/** The word pass of src/dtatw-tok2xml.c: `process_tt_file` reads the
    tokenizer output line by line into the word buffer `w1`, and
    `tt_next_word` repairs token overlaps against the previous word `w0`,
    writes `w0` into the `<s>`/`<w>` stream once the next word is known,
    and moves `w1` into `w0`. */
module Realign {
  import opened Wrappers
  import opened CStr
  import opened TabScan
  import opened IndexLoad
  import opened CharLookup
  import opened WordBuffers
  import opened TtWords

  /** The analyses after the field that ends at `t`. */
  function AnalysesAfter(s: seq<char>, t: nat): seq<seq<char>>
  {
    if t + 1 < |s| then AnalysesFrom(s, t + 1) else []
  }

  /** One field of the analyses, then the rest. */
  lemma AnalysesStep(s: seq<char>, p: nat)
    requires p < |s|
    ensures NextTab(s, p) <= |s| && AnalysesFrom(s, p) == [s[p..NextTab(s, p)]] + AnalysesAfter(s, NextTab(s, p))
  {
  }

  /** The token overlap `tt_next_word` repairs: the number of leading
      bytes of the new word that belong to the same character record as
      the last byte of the previous word, or 0 when there is none. */
  function Overlap(w0cx: seq<int>, len0: nat, w1cx: seq<int>): (k: nat)
    ensures k <= |w1cx|
    ensures k > 0 ==> 0 < len0 <= |w0cx| && w1cx[0] != NoCx && forall m :: 0 <= m < k ==> w1cx[m] == w0cx[len0 - 1]
  {
    if 0 < len0 <= |w0cx| && w1cx != [] && w1cx[0] != NoCx && w1cx[0] == w0cx[len0 - 1]
    then RunEnd(w1cx, w1cx[0], 0) else 0
  }

  /** A buffer that matches `Adopted` entry by entry is `Adopted`. */
  lemma AdoptedIs(r: seq<char>, r0: seq<char>, s: seq<char>)
    requires s != [] && |CPrefix(r0, -1)| + 1 + |s| < |r0| && |r| == |r0|
    requires var e := |CPrefix(r0, -1)|;
             forall i {:trigger r[i]} :: 0 <= i < |r| ==>
               r[i] == if i == e then '\t' else if e < i <= e + |s| then s[i - e - 1] else if i == e + 1 + |s| then NUL else r0[i]
    ensures r == Adopted(r0, s)
  {
    var e := |CPrefix(r0, -1)|;
    var t := Adopted(r0, s);
    assert t == r0[..e] + ['\t'] + s + [NUL] + r0[e + 2 + |s|..];
    forall i | 0 <= i < |r| ensures r[i] == t[i] {
      if i < e {
        assert t[i] == r0[..e][i];
      } else if i == e {
      } else if i <= e + |s| {
        assert t[i] == s[i - e - 1];
      } else if i == e + 1 + |s| {
      } else {
        assert t[i] == r0[e + 2 + |s|..][i - (e + 2 + |s|)];
      }
    }
  }

  /** When the first `n` text bytes of the previous word and the first
      `k` of the next hold no NUL, the repaired text is the one followed
      by the other. */
  lemma AppendedText(a: seq<char>, n: nat, b: seq<char>, k: nat)
    requires n + k < |a| && k <= |b|
    requires forall i :: 0 <= i < n ==> a[i] != NUL
    requires forall i :: 0 <= i < k ==> b[i] != NUL
    ensures CPrefix(Appended(a, n, b, k, NUL), -1) == a[..n] + b[..k]
  {
    var r := Appended(a, n, b, k, NUL);
    assert r[..n + k] == a[..n] + b[..k];
    CPrefixAt(r, n + k);
  }

  /** A word whose text is exactly `k + n` bytes long keeps, after the
      shift, its last `n` bytes. */
  lemma ShiftedText(a: seq<char>, k: nat, n: nat)
    requires k + n < |a| && a[k + n] == NUL
    requires forall i :: k <= i < k + n ==> a[i] != NUL
    ensures CPrefix(Shifted(a, k, n), -1) == a[k..k + n]
  {
    var r := Shifted(a, k, n);
    assert r[..n] == a[k..k + n];
    CPrefixAt(r, n);
  }

  /** The analyses buffer `r` after `tt_next_word` hands it the analyses
      `s` of a word taken up whole: a TAB after its C string, then `s`
      and a NUL; unchanged when `s` is empty or would not fit. */
  function Adopted(r: seq<char>, s: seq<char>): (r': seq<char>)
    ensures |r'| == |r|
  {
    var e := |CPrefix(r, -1)|;
    if s == [] || e + 1 + |s| >= |r| then r else r[..e] + ['\t'] + s + [NUL] + r[e + 2 + |s|..]
  }

  /** The analyses string a word holds after adopting `s`: its own, then
      a TAB and `s` when those fit. */
  lemma {:induction false} AdoptedText(r: seq<char>, s: seq<char>)
    requires forall i :: 0 <= i < |s| ==> s[i] != NUL
    ensures var p := CPrefix(r, -1);
            CPrefix(Adopted(r, s), -1) == if s == [] || |p| + 1 + |s| >= |r| then p else p + "\t" + s
  {
    var p := CPrefix(r, -1);
    if s != [] && |p| + 1 + |s| < |r| {
      var t := Adopted(r, s);
      assert t[..|p| + 1 + |s|] == p + "\t" + s;
      CPrefixAt(t, |p| + 1 + |s|);
    }
  }

  /** The sizes of the buffers of a `ttWordBuffer`, and a range that fits
      them. */
  predicate Sized(v: WordVal)
  {
    |v.text| == WORDBUF_TEXT_LEN && |v.rest| == WORDBUF_REST_LEN && |v.cx| == WORDBUF_CX_LEN
    && v.len < WORDBUF_CX_LEN
  }

  /** A word whose slots end with a NULL after its range overlaps the
      previous word by no more than its length. */
  lemma OverlapWithin(w0cx: seq<int>, len0: nat, w1cx: seq<int>, n: nat)
    requires n < |w1cx| && w1cx[n] == NoCx
    ensures Overlap(w0cx, len0, w1cx) <= n
  {
  }

  /** The overlap of the previous word `a` and the next word `b`. */
  function OverlapOf(a: WordVal, b: WordVal): (k: nat)
    requires Sized(a) && Sized(b) && b.cx[b.len] == NoCx
    ensures k <= b.len
  {
    OverlapWithin(a.cx, a.len, b.cx, b.len);
    Overlap(a.cx, a.len, b.cx)
  }

  /** The first step of the overlap repair of `tt_next_word`: the
      previous word `a` takes the overlapping bytes of the next word `b`. */
  function Grown(a: WordVal, b: WordVal): (g: WordVal)
    requires Sized(a) && Sized(b) && b.cx[b.len] == NoCx && a.len + OverlapOf(a, b) < WORDBUF_CX_LEN
    ensures Sized(g)
  {
    Extended(a, b, OverlapOf(a, b))
  }

  /** The same step on the next word `b`: it drops them. */
  function Trimmed(a: WordVal, b: WordVal): (t: WordVal)
    requires Sized(a) && Sized(b) && b.cx[b.len] == NoCx
    ensures Sized(t)
  {
    Dropped(b, OverlapOf(a, b))
  }

  /** Handing over the analyses of a word taken up whole would overrun
      the analyses buffer of the previous word. */
  predicate AdoptFails(a: WordVal, b: WordVal)
  {
    CPrefix(b.rest, -1) != [] && |CPrefix(a.rest, -1)| + 1 + |CPrefix(b.rest, -1)| >= WORDBUF_REST_LEN
  }

  /** The previous word after taking the analyses of `b`. */
  function AdoptedW0(a: WordVal, b: WordVal): WordVal
  {
    a.(rest := Adopted(a.rest, CPrefix(b.rest, -1)))
  }

  /** The next word after handing over its analyses. */
  function EmptiedW1(b: WordVal): WordVal
    requires |b.rest| > 0
  {
    b.(rest := b.rest[0 := NUL])
  }

  /** The overlap repair of `tt_next_word` on the previous word: it grows
      by the overlap, and when that takes up the next word whole it takes
      its analyses too. */
  function RepairedW0(a: WordVal, b: WordVal): WordVal
    requires Sized(a) && Sized(b) && b.cx[b.len] == NoCx && a.len + OverlapOf(a, b) < WORDBUF_CX_LEN
  {
    if OverlapOf(a, b) == 0 then a
    else if Trimmed(a, b).len == 0 then AdoptedW0(Grown(a, b), Trimmed(a, b))
    else Grown(a, b)
  }

  /** The overlap repair on the next word: it loses the overlap, and its
      analyses when it is taken up whole. */
  function RepairedW1(a: WordVal, b: WordVal): WordVal
    requires Sized(a) && Sized(b) && b.cx[b.len] == NoCx
  {
    if OverlapOf(a, b) == 0 then b
    else if Trimmed(a, b).len == 0 then EmptiedW1(Trimmed(a, b))
    else Trimmed(a, b)
  }

  /** The repair stops the program (status 255) when a word taken up
      whole hands over analyses that do not fit. */
  predicate RepairFails(a: WordVal, b: WordVal)
    requires Sized(a) && Sized(b) && b.cx[b.len] == NoCx && a.len + OverlapOf(a, b) < WORDBUF_CX_LEN
  {
    OverlapOf(a, b) > 0 && Trimmed(a, b).len == 0 && AdoptFails(Grown(a, b), Trimmed(a, b))
  }

  /** The repair moves the overlap from the front of the next word to the
      end of the previous one: the previous word keeps its start, the
      next one starts `k` bytes later, and no byte is lost or doubled. */
  lemma {:induction false} RepairMovesOverlap(a: WordVal, b: WordVal)
    requires Sized(a) && Sized(b) && b.cx[b.len] == NoCx && a.len + OverlapOf(a, b) < WORDBUF_CX_LEN
    ensures var k, r0, r1 := OverlapOf(a, b), RepairedW0(a, b), RepairedW1(a, b);
            r0.off == a.off && r0.len == a.len + k && r1.off == b.off + k && r1.len == b.len - k
            && r0.len + r1.len == a.len + b.len && (k > 0 ==> a.len > 0)
  {
    var k := OverlapOf(a, b);
    if k > 0 {
      assert Grown(a, b).len == a.len + k && Trimmed(a, b).len == b.len - k;
    }
  }

  /** After the repair the previous word and the next one no longer
      overlap: the next word starts with a byte of another record, or is
      empty. */
  lemma {:induction false} RepairLeavesNoOverlap(a: WordVal, b: WordVal)
    requires Sized(a) && Sized(b) && b.cx[b.len] == NoCx && a.len + OverlapOf(a, b) < WORDBUF_CX_LEN
    ensures var r0, r1 := RepairedW0(a, b), RepairedW1(a, b);
            Sized(r0) && Sized(r1) && OverlapOf(r0, r1) == 0
  {
    var k := OverlapOf(a, b);
    if k > 0 {
      var g, t := Grown(a, b), Trimmed(a, b);
      var c := b.cx[0];
      assert g.cx[g.len - 1] == b.cx[k - 1] == c;
      assert t.cx[0] == b.cx[k] != c;
      assert RepairedW0(a, b).cx == g.cx && RepairedW1(a, b).cx == t.cx;
    }
  }

  /** The `<w>` that `tt_next_word` writes as word number `wid` for the
      word `w`: its range, its text, the ids of the real records of its
      bytes, its overlap flags and one `<a>` per analysis. */
  function ItemOf(cxs: seq<CxRecord>, txtb2cx: seq<int>, wid: nat, w: Word): TtOut
  {
    WOut(wid, w.off, w.len, w.text, IdsOf(cxs, CRefs(cxs, Slots(txtb2cx, w.off, w.len))), w.overL, w.overR,
         Analyses(w.rest))
  }

  /** What `tt_next_word` writes for the pair `w0`, `w1` with the
      sentence state `open` and the counters `sIds` and `wIds`: nothing
      unless both words are non-empty, and otherwise `w0` as word number
      `wIds + 1` after the sentence items it calls for. */
  function Written(cxs: seq<CxRecord>, txtb2cx: seq<int>, open: bool, sIds: nat, wIds: nat,
                   w0: WordVal, w1: WordVal): (items: seq<TtOut>)
    requires w0.len <= |w0.cx|
    ensures items != [] <==> w0.len > 0 && w1.len > 0
    ensures items != [] ==> items[|items| - 1] == ItemOf(cxs, txtb2cx, wIds + 1, View(w0))
  {
    if w0.len > 0 && w1.len > 0
    then SentenceItems(open, w0.sb, sIds) + [ItemOf(cxs, txtb2cx, wIds + 1, View(w0))]
    else []
  }

  /** The word pending after `tt_next_word`: `w1` when it is non-empty,
      otherwise `w0` stays. */
  function Kept(w0: WordVal, w1: WordVal): WordVal
  {
    if w1.len > 0 then w1 else w0
  }

  /** How a pass over a `.tt` file ends: every line read, an assertion
      failed (exit status 255), or an overlap would write past the end of
      the word buffer, which the source does not check. */
  datatype Outcome = Finished | Failed(code: int) | Overrun

  /** The number of token lines with a non-zero length among `lines`. */
  function Tokens(lines: seq<seq<char>>): nat
  {
    if lines == [] then 0
    else
      var t := ParseTtLine(lines[|lines| - 1]);
      Tokens(lines[..|lines| - 1]) + (if t.Token? && t.len > 0 then 1 else 0)
  }

  /** No line among `lines` fails the buffer-size assertions. */
  predicate Fits(lines: seq<seq<char>>)
  {
    lines == [] || (Fits(lines[..|lines| - 1]) && !ParseTtLine(lines[|lines| - 1]).Overflow?)
  }

  /** One more line adds its token, if any, and its fit. */
  lemma LinesStep(lines: seq<seq<char>>, i: nat)
    requires i < |lines|
    ensures var t := ParseTtLine(lines[i]);
            Tokens(lines[..i + 1]) == Tokens(lines[..i]) + (if t.Token? && t.len > 0 then 1 else 0)
            && (Fits(lines[..i + 1]) <==> Fits(lines[..i]) && !t.Overflow?)
  {
    assert lines[..i + 1][..i] == lines[..i];
  }

  /** `Fits` says the same of every line. */
  lemma {:induction false} FitsEvery(lines: seq<seq<char>>)
    ensures Fits(lines) <==> forall i :: 0 <= i < |lines| ==> !ParseTtLine(lines[i]).Overflow?
  {
    if lines != [] {
      var init := lines[..|lines| - 1];
      var last := |lines| - 1;
      FitsEvery(init);
      if Fits(lines) {
        forall i | 0 <= i < |lines|
          ensures !ParseTtLine(lines[i]).Overflow?
        {
          if i < last {
            assert init[i] == lines[i];
          }
        }
      } else if !ParseTtLine(lines[last]).Overflow? {
        var j :| 0 <= j < |init| && ParseTtLine(init[j]).Overflow?;
        assert init[j] == lines[j];
      }
    }
  }

  /** One more txt byte of a word adds its record unless it is not
      `cx_id_ok` or the one named last. */
  lemma CRefsStep(cxs: seq<CxRecord>, txtb: seq<int>, off: int, n: nat, prev: int)
    requires var r := CRefs(cxs, Slots(txtb, off, n)); prev == if r == [] then NoCx else r[|r| - 1]
    ensures var r := CRefs(cxs, Slots(txtb, off, n));
            var c := Slot(txtb, off + n);
            CRefs(cxs, Slots(txtb, off, n + 1)) == if CxIdOk(cxs, c) && c != prev then r + [c] else r
  {
    assert Slots(txtb, off, n + 1) == Slots(txtb, off, n) + [Slot(txtb, off + n)];
    CRefsSnoc(cxs, Slots(txtb, off, n), Slot(txtb, off + n));
  }

  /** The `@c` of a word at txt bytes `[off, off + n)`: the ids of its
      real records, each run of one record named once. */
  method CIdList(cxs: seq<CxRecord>, txtb2cx: seq<int>, off: nat, n: nat) returns (ids: seq<seq<char>>)
    ensures ids == IdsOf(cxs, CRefs(cxs, Slots(txtb2cx, off, n)))
  {
    ids := [];
    var prev := NoCx;
    ghost var r: seq<int> := [];
    var i := 0;
    while i < n
      invariant i <= n && r == CRefs(cxs, Slots(txtb2cx, off, i))
      invariant ids == IdsOf(cxs, r) && prev == if r == [] then NoCx else r[|r| - 1]
    {
      var c := Slot(txtb2cx, off + i);
      CRefsStep(cxs, txtb2cx, off, i, prev);
      if CxIdOk(cxs, c) && c != prev {
        IdsOfSnoc(cxs, r, c);
        ids := ids + [cxs[c].id];
        prev := c;
        r := r + [c];
        assert r[|r| - 1] == c;
      }
      i := i + 1;
    }
  }

  /** The fields collected up to the one that ends at `t`, followed by
      the next field, still lead to all the analyses. */
  lemma {:induction false} AnalysesPush(s: seq<char>, r: seq<seq<char>>, t: nat)
    requires t + 1 < |s| && r + AnalysesAfter(s, t) == Analyses(s)
    ensures var u := NextTab(s, t + 1);
            u <= |s| && (r + [s[t + 1..u]]) + AnalysesAfter(s, u) == Analyses(s)
  {
    var u := NextTab(s, t + 1);
    AnalysesStep(s, t + 1);
    var x, rest := s[t + 1..u], AnalysesAfter(s, u);
    assert AnalysesAfter(s, t) == [x] + rest;
    assert (r + [x]) + rest == r + ([x] + rest);
  }

  /** The `<a>` children of a word: the loop over `next_tab` fields. */
  method SplitAnalyses(s: seq<char>) returns (r: seq<seq<char>>)
    ensures r == Analyses(s)
  {
    if s == [] {
      return [];
    }
    var p := 0;
    var t := NextTab(s, p);
    r := [s[p..t]];
    AnalysesStep(s, p);
    while t + 1 < |s|
      invariant p < |s| && t == NextTab(s, p)
      invariant r + AnalysesAfter(s, t) == Analyses(s)
      decreases |s| - t
    {
      AnalysesPush(s, r, t);
      p := t + 1;
      t := NextTab(s, p);
      r := r + [s[p..t]];
    }
  }

  /** The stream `out` is properly nested, with `open` telling whether a
      sentence is open, and numbered by the two counters. */
  ghost predicate Transcribed(out: seq<TtOut>, open: bool, sIds: nat, wIds: nat)
  {
    OpenAfter(out) == Some(open) && Numbered(out) && sIds == Sentences(out) && wIds == Words(out)
  }

  class Realigner {
    /** `cxdata` */
    const cxs: seq<CxRecord>
    /** `txtb2cx` */
    const txtb2cx: seq<int>
    const w0: WordBuffer
    const w1: WordBuffer
    /** `s_open` */
    var sOpen: bool
    /** `s_id_ctr` */
    var sIdCtr: nat
    /** `w_id_ctr` */
    var wIdCtr: nat
    /** What has been written so far. */
    var out: seq<TtOut>
    /** Words of non-zero length handed to `tt_next_word`. */
    ghost var fed: nat
    /** Of those, the words an overlap repair took up whole into `w0`. */
    ghost var absorbed: nat

    /** Two separate buffers, terminated strings, lengths that fit, and
        the NULL after the slots of `w1`. */
    ghost predicate Valid()
      reads w0, w1, w0.text, w0.rest, w1.text, w1.rest, w1.cx
    {
      w0 != w1 && w0.Valid() && w1.Valid()
      && w0.text != w1.text && w0.text != w1.rest && w0.rest != w1.text && w0.rest != w1.rest && w0.cx != w1.cx
      && w0.len < WORDBUF_CX_LEN && w1.len < WORDBUF_CX_LEN && w1.cx[w1.len] == NoCx
    }

    /** The stream is properly nested, with `s_open` telling whether a
        sentence is open, and numbered by the two counters. */
    ghost predicate Transcript()
      reads `out, `sOpen, `sIdCtr, `wIdCtr
    {
      Transcribed(out, sOpen, sIdCtr, wIdCtr)
    }

    /** Every word fed was written, taken up by an overlap, or is the one
        pending in `w0`; one is pending as soon as any was fed. */
    ghost predicate Ledger()
      reads this, w0
    {
      Transcript()
      && Words(out) + absorbed + (if w0.len > 0 then 1 else 0) == fed
      && (w0.len > 0 <==> fed > 0)
    }

    /** Both word buffers zeroed, nothing written. */
    constructor (cxs: seq<CxRecord>, txtb2cx: seq<int>)
      ensures this.cxs == cxs && this.txtb2cx == txtb2cx
      ensures Valid() && Ledger() && w0.Blank() && w1.Blank() && !w1.sb
      ensures out == [] && !sOpen && fed == 0 && absorbed == 0
    {
      this.cxs := cxs;
      this.txtb2cx := txtb2cx;
      w0 := new WordBuffer();
      w1 := new WordBuffer();
      sOpen := false;
      sIdCtr, wIdCtr := 0, 0;
      out := [];
      fed, absorbed := 0, 0;
    }

    /** The overlap repair of `tt_next_word`: the leading bytes of `w1`
        that share the record of the last byte of `w0` move to the end of
        `w0` (text and slots), `w1` shifts left over them, and both words
        are flagged as overlapping. */
    method RepairOverlap() returns (k: nat)
      requires Valid()
      requires w0.len > 0 && w1.cx[0] != NoCx && w1.cx[0] == w0.cx[w0.len - 1]
      requires w0.len + Overlap(w0.cx[..], w0.len, w1.cx[..]) < WORDBUF_CX_LEN
      modifies w0, w0.text, w0.cx, w1, w1.text, w1.cx
      ensures Valid()
      ensures k == OverlapOf(old(w0.Val()), old(w1.Val())) && 0 < k
      ensures w0.Val() == Grown(old(w0.Val()), old(w1.Val())) && w1.Val() == Trimmed(old(w0.Val()), old(w1.Val()))
    {
      ghost var a, b := w0.Val(), w1.Val();
      ghost var g, t := Grown(a, b), Trimmed(a, b);
      k := w0.AppendRun(w1);
      assert w0.Val() == g;
      w1.DropFront(k);
      assert w1.Val() == t && w1.cx[..][w1.len] == b.cx[b.len];
    }

    /** An overlap that took up all of `w1` hands its analyses to `w0`,
        after a TAB; the combined string must fit the buffer. */
    method AdoptRest() returns (st: Status)
      requires Valid()
      modifies w0.rest, w1.rest
      ensures st == Continue || st == Exit(255)
      ensures st == Exit(255) <==>
                old(w1.Rest()) != [] && |old(w0.Rest())| + 1 + |old(w1.Rest())| >= WORDBUF_REST_LEN
      ensures st == Continue ==> Valid()
      ensures st == Continue ==>
                w0.Val() == AdoptedW0(old(w0.Val()), old(w1.Val())) && w1.Val() == EmptiedW1(old(w1.Val()))
    {
      st := Continue;
      ghost var a0, a1 := w0.rest[..], w1.rest[..];
      if w1.rest[0] != NUL {
        var r0 := w0.Rest();
        var r1 := w1.Rest();
        var e := |r0|;
        w0.rest[e] := '\t';
        var n := |r1|;
        if e + 1 + n >= WORDBUF_REST_LEN {
          st := Exit(255);
          return;
        }
        StrCpy(w0.rest, e + 1, w1.rest);
        w1.rest[0] := NUL;
        AdoptedIs(w0.rest[..], a0, r1);
        assert w1.rest[..] == a1[0 := NUL];
      } else {
        assert a1[0 := NUL] == a1;
      }
    }

    /** The `<w>` written for `w0`: the next word number, its txt range
        and text, its character ids, its overlap flags and its analyses. */
    method WordItem() returns (w: TtOut)
      requires w0.len <= w0.cx.Length
      ensures w == ItemOf(cxs, txtb2cx, wIdCtr + 1, View(w0.Val()))
    {
      var cids := CIdList(cxs, txtb2cx, w0.off, w0.len);
      var analyses := SplitAnalyses(w0.Rest());
      w := WOut(wIdCtr + 1, w0.off, w0.len, w0.Text(), cids, w0.overL, w0.overR, analyses);
    }

    /** Writes the word `w` for `w0` (both words non-empty): first the end
        of the open sentence when `w0` starts a new one, and a new sentence
        when none is open. */
    method EmitWord(w: TtOut)
      requires Transcript() && w.WOut? && w.wid == wIdCtr + 1
      modifies this
      ensures Transcript() && sOpen && fed == old(fed) && absorbed == old(absorbed)
      ensures out == old(out) + SentenceItems(old(sOpen), w0.sb, old(sIdCtr)) + [w]
      ensures Words(out) == Words(old(out)) + 1
    {
      var items := SentenceItems(sOpen, w0.sb, sIdCtr);
      WordStep(out, sOpen, w0.sb, w);
      if !sOpen || w0.sb {
        sIdCtr := sIdCtr + 1;
      }
      wIdCtr := wIdCtr + 1;
      out := out + items + [w];
      sOpen := true;
    }

    /** `w0 <- w1` when `w1` is non-empty (flags, range, text, analyses
        and slots), then `w1` zeroed in every case. */
    method Advance()
      requires Valid()
      modifies w0, w0.text, w0.rest, w0.cx, w1, w1.text, w1.rest, w1.cx
      ensures Valid() && w1.Blank() && !w1.sb
      ensures View(w0.Val()) == if old(w1.len) > 0 then old(View(w1.Val())) else old(View(w0.Val()))
    {
      if w1.len > 0 {
        w0.CopyFrom(w1);
      }
      w1.Clear();
    }

    /** The first half of `tt_next_word`: an overlap between the two
        words is repaired, and a `w1` it takes up whole hands over its
        analyses. */
    method Repair() returns (st: Status, k: nat)
      requires Valid()
      requires w0.len + Overlap(w0.cx[..], w0.len, w1.cx[..]) < WORDBUF_CX_LEN
      modifies w0, w0.text, w0.rest, w0.cx, w1, w1.text, w1.rest, w1.cx
      ensures k == OverlapOf(old(w0.Val()), old(w1.Val()))
      ensures st == Continue || st == Exit(255)
      ensures st == Exit(255) <==> RepairFails(old(w0.Val()), old(w1.Val()))
      ensures st == Continue ==>
                Valid() && w0.Val() == RepairedW0(old(w0.Val()), old(w1.Val()))
                && w1.Val() == RepairedW1(old(w0.Val()), old(w1.Val()))
      ensures st == Continue ==> w0.len == old(w0.len) + k && w1.len == old(w1.len) - k
      ensures k > 0 ==> old(w0.len) > 0
      ensures st == Continue ==>
                (if w0.len > 0 then 1 else 0) + (if w1.len > 0 then 1 else 0) + (if k > 0 && w1.len == 0 then 1 else 0)
                == (if old(w0.len) > 0 then 1 else 0) + (if old(w1.len) > 0 then 1 else 0)
      ensures st == Continue ==> (w0.len > 0 || w1.len > 0 <==> old(w0.len) > 0 || old(w1.len) > 0)
    {
      st := Continue;
      k := 0;
      ghost var a, b := w0.Val(), w1.Val();
      RepairMovesOverlap(a, b);
      if w0.len > 0 && w1.cx[0] != NoCx && w1.cx[0] == w0.cx[w0.len - 1] {
        k := RepairOverlap();
        if w1.len == 0 {
          st := AdoptRest();
        }
      }
    }

    /** The second half of `tt_next_word`: `w0` is written when both
        words are non-empty, then a non-empty `w1` moves into `w0`. */
    method Flush()
      requires Valid() && Transcript()
      modifies this, w0, w0.text, w0.rest, w0.cx, w1, w1.text, w1.rest, w1.cx
      ensures Valid() && Transcript() && w1.Blank() && !w1.sb
      ensures fed == old(fed) && absorbed == old(absorbed)
      ensures out == old(out) + Written(cxs, txtb2cx, old(sOpen), old(sIdCtr), old(wIdCtr), old(w0.Val()), old(w1.Val()))
      ensures View(w0.Val()) == View(Kept(old(w0.Val()), old(w1.Val())))
      ensures Words(out) + (if w0.len > 0 then 1 else 0)
              == Words(old(out)) + (if old(w0.len) > 0 then 1 else 0) + (if old(w1.len) > 0 then 1 else 0)
      ensures w0.len > 0 <==> old(w0.len) > 0 || old(w1.len) > 0
    {
      if w0.len > 0 && w1.len > 0 {
        Emit();
      }
      Advance();
    }

    /** Writes `w0` as the next word, after the sentence items it calls
        for. */
    method Emit()
      requires Transcript() && 0 < w0.len < WORDBUF_CX_LEN && w0.len <= w0.cx.Length && w1.len > 0
      modifies this
      ensures Transcript() && sOpen && fed == old(fed) && absorbed == old(absorbed)
      ensures out == old(out) + Written(cxs, txtb2cx, old(sOpen), old(sIdCtr), old(wIdCtr), w0.Val(), w1.Val())
      ensures Words(out) == Words(old(out)) + 1
    {
      var w := WordItem();
      EmitWord(w);
    }

    /** `tt_next_word`: repairs an overlap (which may take up `w1` whole,
        analyses included), writes the repaired `w0` when both repaired
        words are non-empty, and moves a non-empty repaired `w1` into `w0`;
        `w1` ends zeroed. */
    method NextWord() returns (st: Status)
      requires Valid() && Ledger()
      requires w0.len + Overlap(w0.cx[..], w0.len, w1.cx[..]) < WORDBUF_CX_LEN
      modifies this, w0, w0.text, w0.rest, w0.cx, w1, w1.text, w1.rest, w1.cx
      ensures st == Continue || st == Exit(255)
      ensures st == Exit(255) <==> RepairFails(old(w0.Val()), old(w1.Val()))
      ensures st == Continue ==>
                Valid() && Ledger() && w1.Blank() && !w1.sb
                && fed == old(fed) + (if old(w1.len) > 0 then 1 else 0)
                && |old(out)| <= |out| && out[..|old(out)|] == old(out)
      ensures st == Continue ==>
                var r0, r1 := RepairedW0(old(w0.Val()), old(w1.Val())), RepairedW1(old(w0.Val()), old(w1.Val()));
                out == old(out) + Written(cxs, txtb2cx, old(sOpen), old(sIdCtr), old(wIdCtr), r0, r1)
                && View(w0.Val()) == View(Kept(r0, r1))
    {
      ghost var fedNow := w1.len > 0;
      var k;
      st, k := Repair();
      if st != Continue {
        return;
      }
      absorbed, fed := absorbed + (if k > 0 && w1.len == 0 then 1 else 0), fed + (if fedNow then 1 else 0);
      Flush();
    }

    /** One pass of the main loop of `process_tt_file`: the line is
        parsed and handled. */
    method ProcessLine(line: seq<char>) returns (r: Outcome)
      requires Valid() && Ledger() && w1.Blank()
      modifies this, w0, w0.text, w0.rest, w0.cx, w1, w1.text, w1.rest, w1.cx
      ensures r == Finished || r == Failed(255) || r == Overrun
      ensures r == Finished ==> Valid() && Ledger() && w1.Blank() && !ParseTtLine(line).Overflow?
      ensures r == Finished ==>
                var t := ParseTtLine(line);
                fed == old(fed) + (if t.Token? && t.len > 0 then 1 else 0)
                && (t.BlankLine? ==> w1.sb)
                && |old(out)| <= |out| && out[..|old(out)|] == old(out)
    {
      var t := ParseTtLine(line);
      r := HandleLine(t);
    }

    /** A comment is skipped, a blank line marks a sentence boundary
        before the next word, and a token line is loaded into `w1` and
        handed to `tt_next_word`. */
    method HandleLine(t: TtLine) returns (r: Outcome)
      requires Valid() && Ledger() && w1.Blank()
      requires t.Token? ==>
                 |t.text| < WORDBUF_TEXT_LEN - 1 && |t.rest| < WORDBUF_REST_LEN && t.len < WORDBUF_CX_LEN
                 && (forall k :: 0 <= k < |t.text| ==> t.text[k] != NUL)
      modifies this, w0, w0.text, w0.rest, w0.cx, w1, w1.text, w1.rest, w1.cx
      ensures r == Finished || r == Failed(255) || r == Overrun
      ensures r == Failed(255) <== t.Overflow?
      ensures r == Finished ==> Valid() && Ledger() && w1.Blank() && !t.Overflow?
      ensures r == Finished ==>
                fed == old(fed) + (if t.Token? && t.len > 0 then 1 else 0)
                && (t.BlankLine? ==> w1.sb)
                && |old(out)| <= |out| && out[..|old(out)|] == old(out)
    {
      match t
      case Comment =>
        r := Finished;
      case BlankLine =>
        w1.sb := true;
        r := Finished;
      case Overflow =>
        r := Failed(255);
      case Token(text, off, len, rest) =>
        w1.Load(text, off, len, CPrefix(rest, -1), txtb2cx);
        if w0.len + Overlap(w0.cx[..], w0.len, w1.cx[..]) >= WORDBUF_CX_LEN {
          return Overrun;
        }
        var st := NextWord();
        r := if st == Continue then Finished else Failed(255);
    }

    /** One pass of the line loop of `process_tt_file`. */
    method ReadLine(lines: seq<seq<char>>, i: nat) returns (r: Outcome)
      requires i < |lines|
      requires Valid() && Ledger() && w1.Blank() && fed == Tokens(lines[..i]) && Fits(lines[..i])
      modifies this, w0, w0.text, w0.rest, w0.cx, w1, w1.text, w1.rest, w1.cx
      ensures r == Finished || r == Failed(255) || r == Overrun
      ensures r == Finished ==>
                Valid() && Ledger() && w1.Blank() && fed == Tokens(lines[..i + 1]) && Fits(lines[..i + 1])
    {
      LinesStep(lines, i);
      r := ProcessLine(lines[i]);
    }

    /** The main loop of `process_tt_file`, over every line. */
    method ReadTt(lines: seq<seq<char>>) returns (r: Outcome)
      requires Valid() && Ledger() && w1.Blank() && fed == 0
      modifies this, w0, w0.text, w0.rest, w0.cx, w1, w1.text, w1.rest, w1.cx
      ensures r == Finished || r == Failed(255) || r == Overrun
      ensures r == Finished ==> Valid() && Ledger() && w1.Blank() && fed == Tokens(lines)
      ensures r == Finished ==> Fits(lines)
    {
      var i := 0;
      r := Finished;
      while i < |lines| && r == Finished
        invariant i <= |lines|
        invariant r == Finished || r == Failed(255) || r == Overrun
        invariant r == Finished ==> Valid() && Ledger() && w1.Blank() && fed == Tokens(lines[..i]) && Fits(lines[..i])
      {
        r := ReadLine(lines, i);
        i := i + 1;
      }
      if r == Finished {
        assert lines[..i] == lines;
      }
    }

    /** `process_tt_file` as written: after the last line it zeroes `w1`
        and calls `tt_next_word` once more, which writes nothing because
        `w1` is empty, then closes an open sentence. The word still in
        `w0` is never written: of the non-empty tokens, all but the last
        are written or taken up by overlaps. */
    method ProcessTt(lines: seq<seq<char>>) returns (r: Outcome)
      requires Valid() && Ledger() && w1.Blank() && fed == 0
      modifies this, w0, w0.text, w0.rest, w0.cx, w1, w1.text, w1.rest, w1.cx
      ensures r == Finished ==> OpenAfter(out) == Some(false) && Numbered(out)
      ensures r == Finished ==> Words(out) + absorbed + (if Tokens(lines) > 0 then 1 else 0) == Tokens(lines)
      ensures r == Finished && Tokens(lines) == 1 ==> Words(out) == 0
    {
      r := ReadTt(lines);
      if r != Finished {
        return;
      }
      w1.Clear();
      var st := NextWord();
      assert st == Continue;
      if sOpen {
        Extend(out, SClose);
        out := out + [SClose];
        sOpen := false;
      }
    }

    /** `process_tt_file` with the pending word written: every non-empty
        token is written or taken up by an overlap. */
    method ProcessTtFixed(lines: seq<seq<char>>) returns (r: Outcome)
      requires Valid() && Ledger() && w1.Blank() && fed == 0
      modifies this, w0, w0.text, w0.rest, w0.cx, w1, w1.text, w1.rest, w1.cx
      ensures r == Finished ==> OpenAfter(out) == Some(false) && Numbered(out)
      ensures r == Finished ==> Words(out) + absorbed == Tokens(lines)
    {
      r := ReadTt(lines);
      if r != Finished {
        return;
      }
      if w0.len > 0 {
        var w := WordItem();
        EmitWord(w);
      }
      if sOpen {
        Extend(out, SClose);
        out := out + [SClose];
        sOpen := false;
      }
    }
  }
}
