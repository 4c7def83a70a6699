/** The values behind the output of src/dtatw-tok2xml.c: the parse of one
    line of tokenizer output (`.tt`), the character ids (`@c`) and the
    analyses (`<a>`) of a word, and the element stream of `<s>` and `<w>`
    with its nesting and numbering. */
module TtWords {
  import opened Wrappers
  import opened CStr
  import opened TabScan
  import opened Decimal
  import opened IndexRecords
  import opened IndexLoad
  import opened CharLookup
  import opened WordBuffers

  /** `CX_LB_ID`: the id of the line-break pseudo-records. */
  const LB_ID: seq<char> := "$LB$"

  /** `cx_id_ok`: a real character record with a non-empty id that is
      neither the nil id nor the line-break id. A loaded id stops at the
      first field end, so it holds no NUL and `strcmp` sees all of it. */
  predicate CxIdOk(cxs: seq<CxRecord>, r: int)
  {
    0 <= r < |cxs| && cxs[r].id != [] && cxs[r].id != NIL_ID && cxs[r].id != LB_ID
  }

  /** The slots of the txt bytes `[off, off + n)` of a word. */
  function Slots(txtb: seq<int>, off: int, n: nat): seq<int>
  {
    seq(n, i => Slot(txtb, off + i))
  }

  /** The records named in the `@c` of a word with the given slots: the
      slots in order, skipping records that are not `cx_id_ok` and a
      record equal to the one named last. */
  function CRefs(cxs: seq<CxRecord>, slots: seq<int>): (r: seq<int>)
    ensures forall i :: 0 <= i < |r| ==> CxIdOk(cxs, r[i])
    ensures |r| <= |slots|
  {
    if slots == [] then []
    else
      var r := CRefs(cxs, slots[..|slots| - 1]);
      var c := slots[|slots| - 1];
      if CxIdOk(cxs, c) && (r == [] || r[|r| - 1] != c) then r + [c] else r
  }

  /** Every record named is drawn from the slots, and no record is named
      twice in a row. */
  lemma {:induction false} CRefsShape(cxs: seq<CxRecord>, slots: seq<int>)
    ensures forall i :: 0 <= i < |CRefs(cxs, slots)| ==> CRefs(cxs, slots)[i] in slots
    ensures forall i, j :: 0 <= i && j == i + 1 && j < |CRefs(cxs, slots)| ==> CRefs(cxs, slots)[i] != CRefs(cxs, slots)[j]
  {
    if slots != [] {
      var init := slots[..|slots| - 1];
      var c := slots[|slots| - 1];
      var r := CRefs(cxs, init);
      CRefsShape(cxs, init);
      if CxIdOk(cxs, c) && (r == [] || r[|r| - 1] != c) {
        var r2 := r + [c];
        assert CRefs(cxs, slots) == r2;
        forall i | 0 <= i < |r2|
          ensures r2[i] in slots
        {
          if i < |r| {
            var k :| 0 <= k < |init| && init[k] == r[i];
            assert slots[k] == r2[i];
          } else {
            assert slots[|slots| - 1] == r2[i];
          }
        }
        forall i, j | 0 <= i && j == i + 1 && j < |r2|
          ensures r2[i] != r2[j]
        {
          if j < |r| {
            assert r2[i] == r[i] && r2[j] == r[j];
          }
        }
      } else {
        assert CRefs(cxs, slots) == r;
        forall i | 0 <= i < |r|
          ensures r[i] in slots
        {
          var k :| 0 <= k < |init| && init[k] == r[i];
          assert slots[k] == r[i];
        }
      }
    }
  }

  /** Every real record among the slots is named. */
  lemma {:induction false} CRefsComplete(cxs: seq<CxRecord>, slots: seq<int>, i: nat)
    requires i < |slots| && CxIdOk(cxs, slots[i])
    ensures slots[i] in CRefs(cxs, slots)
  {
    var init := slots[..|slots| - 1];
    if i < |slots| - 1 {
      assert init[i] == slots[i];
      CRefsComplete(cxs, init, i);
    }
  }

  /** One more slot. */
  lemma CRefsSnoc(cxs: seq<CxRecord>, slots: seq<int>, c: int)
    ensures var r := CRefs(cxs, slots);
            CRefs(cxs, slots + [c]) == if CxIdOk(cxs, c) && (r == [] || r[|r| - 1] != c) then r + [c] else r
  {
    var s2 := slots + [c];
    assert s2[..|s2| - 1] == slots && s2[|s2| - 1] == c;
  }

  /** The ids of records, as written into `@c`. */
  function IdsOf(cxs: seq<CxRecord>, rs: seq<int>): seq<seq<char>>
    requires forall i :: 0 <= i < |rs| ==> 0 <= rs[i] < |cxs|
  {
    seq(|rs|, i requires 0 <= i < |rs| => cxs[rs[i]].id)
  }

  /** One more record. */
  lemma IdsOfSnoc(cxs: seq<CxRecord>, rs: seq<int>, c: int)
    requires forall i :: 0 <= i < |rs| ==> 0 <= rs[i] < |cxs|
    requires 0 <= c < |cxs|
    ensures IdsOf(cxs, rs + [c]) == IdsOf(cxs, rs) + [cxs[c].id]
  {
  }

  /** The `<a>` children written from the analyses string `s`, from
      position `p` on: each field up to the next TAB or LF, and on after
      it while anything follows. */
  function AnalysesFrom(s: seq<char>, p: nat): (r: seq<seq<char>>)
    requires p < |s|
    ensures r != []
    decreases |s| - p
  {
    var t := NextTab(s, p);
    [s[p..t]] + (if t + 1 < |s| then AnalysesFrom(s, t + 1) else [])
  }

  /** The `<a>` children of a word: none when its analyses string is empty. */
  function Analyses(s: seq<char>): seq<seq<char>>
  {
    if s == [] then [] else AnalysesFrom(s, 0)
  }

  /** The field from `p` to the next field end holds no TAB or LF. */
  lemma FieldSlice(s: seq<char>, p: nat)
    requires p < |s|
    ensures NextTab(s, p) <= |s| && NoTabNewline(s[p..NextTab(s, p)])
    ensures NextTab(s, p) < |s| ==> IsFieldEnd(s[NextTab(s, p)])
  {
    var t := NextTab(s, p);
    forall k | 0 <= k < t - p
      ensures s[p..t][k] != '\t' && s[p..t][k] != '\n'
    {
      assert !IsFieldEnd(At(s, p + k));
    }
  }

  /** No analysis holds a TAB or LF. */
  lemma {:induction false} AnalysesFromFields(s: seq<char>, p: nat)
    requires p < |s|
    ensures forall i :: 0 <= i < |AnalysesFrom(s, p)| ==> NoTabNewline(AnalysesFrom(s, p)[i])
    decreases |s| - p
  {
    var t := NextTab(s, p);
    FieldSlice(s, p);
    if t + 1 < |s| {
      AnalysesFromFields(s, t + 1);
    }
  }

  /** A string is its part before `t`, the byte at `t`, and the rest. */
  lemma SplitAt(s: seq<char>, p: nat, t: nat)
    requires p <= t < |s|
    ensures s[p..] == s[p..t] + [s[t]] + s[t + 1..]
  {
  }

  /** Joining a field with the fields after its TAB. */
  lemma JoinStep(s: seq<char>, p: nat, t: nat, rest: seq<seq<char>>)
    requires p <= t < |s| && s[t] == '\t'
    requires |rest| >= 1 && Join(rest) == s[t + 1..]
    ensures Join([s[p..t]] + rest) == s[p..]
  {
    JoinCons(s[p..t], rest);
    SplitAt(s, p, t);
    assert [s[t]] == "\t";
  }

  /** The analyses joined with TABs give back the analyses string, when it
      holds no LF or NUL and does not end in a TAB. */
  lemma {:induction false} AnalysesFromJoin(s: seq<char>, p: nat)
    requires p < |s| && s[|s| - 1] != '\t'
    requires forall k :: 0 <= k < |s| ==> s[k] != '\n' && s[k] != NUL
    ensures Join(AnalysesFrom(s, p)) == s[p..]
    decreases |s| - p
  {
    var t := NextTab(s, p);
    FieldSlice(s, p);
    if t + 1 < |s| {
      AnalysesFromJoin(s, t + 1);
      JoinStep(s, p, t, AnalysesFrom(s, t + 1));
    } else {
      LastAnalysis(s, p);
    }
  }

  /** The last field runs to the end of a string that does not end in a
      field end. */
  lemma LastAnalysis(s: seq<char>, p: nat)
    requires p < |s| && !IsFieldEnd(s[|s| - 1]) && NextTab(s, p) + 1 >= |s|
    ensures AnalysesFrom(s, p) == [s[p..]]
  {
    assert At(s, |s| - 1) == s[|s| - 1];
    assert NextTab(s, p) == |s|;
    assert s[p..NextTab(s, p)] == s[p..];
    assert AnalysesFrom(s, p) == [s[p..NextTab(s, p)]] + [];
  }

  /** One element of the `.t.xml` output of the word pass: a sentence
      start with its number, a sentence end, or a word with its number,
      txt range, text, character ids, overlap flags and analyses. */
  datatype TtOut =
    | SOpen(sid: nat)
    | SClose
    | WOut(wid: nat, off: nat, len: nat, text: seq<char>, cids: seq<seq<char>>,
           overL: bool, overR: bool, analyses: seq<seq<char>>)

  /** Whether a sentence is open after `x`, given whether one was open
      before; `None` for a sentence start inside a sentence, or an end or
      a word outside one. */
  function Nest(open: Option<bool>, x: TtOut): Option<bool>
  {
    match open
    case None => None
    case Some(o) =>
      match x
      case SOpen(_) => if o then None else Some(true)
      case SClose => if o then Some(false) else None
      case WOut(_, _, _, _, _, _, _, _) => if o then Some(true) else None
  }

  /** Whether a sentence is open after the stream, or `None` when the
      stream is not properly nested. */
  function OpenAfter(out: seq<TtOut>): Option<bool>
  {
    if out == [] then Some(false) else Nest(OpenAfter(out[..|out| - 1]), out[|out| - 1])
  }

  /** The number of sentence starts in the stream. */
  function Sentences(out: seq<TtOut>): nat
  {
    if out == [] then 0 else Sentences(out[..|out| - 1]) + (if out[|out| - 1].SOpen? then 1 else 0)
  }

  /** The number of words in the stream. */
  function Words(out: seq<TtOut>): nat
  {
    if out == [] then 0 else Words(out[..|out| - 1]) + (if out[|out| - 1].WOut? then 1 else 0)
  }

  /** Sentences are numbered `s1, s2, ...` and words `w1, w2, ...` in
      stream order. */
  predicate Numbered(out: seq<TtOut>)
  {
    out == [] ||
    (var init, x := out[..|out| - 1], out[|out| - 1];
     Numbered(init)
     && (x.SOpen? ==> x.sid == Sentences(init) + 1)
     && (x.WOut? ==> x.wid == Words(init) + 1))
  }

  /** Appending one element to the stream. */
  lemma Extend(out: seq<TtOut>, x: TtOut)
    ensures OpenAfter(out + [x]) == Nest(OpenAfter(out), x)
    ensures Sentences(out + [x]) == Sentences(out) + (if x.SOpen? then 1 else 0)
    ensures Words(out + [x]) == Words(out) + (if x.WOut? then 1 else 0)
    ensures Numbered(out + [x]) <==>
              Numbered(out) && (x.SOpen? ==> x.sid == Sentences(out) + 1) && (x.WOut? ==> x.wid == Words(out) + 1)
  {
    assert (out + [x])[..|out|] == out;
  }

  /** What is written before a word: the end of the open sentence when the
      word starts a new one, and a new sentence when none is open. */
  function SentenceItems(open: bool, sb: bool, sid: nat): seq<TtOut>
  {
    (if sb && open then [SClose] else []) + (if !open || sb then [SOpen(sid + 1)] else [])
  }

  /** Writing a word after its sentence items keeps the stream nested and
      numbered, leaves a sentence open, and counts one more word and, when
      a sentence was started, one more sentence. */
  lemma WordStep(out: seq<TtOut>, open: bool, sb: bool, w: TtOut)
    requires OpenAfter(out) == Some(open) && Numbered(out)
    requires w.WOut? && w.wid == Words(out) + 1
    ensures var out' := out + SentenceItems(open, sb, Sentences(out)) + [w];
            OpenAfter(out') == Some(true) && Numbered(out')
            && Sentences(out') == Sentences(out) + (if !open || sb then 1 else 0)
            && Words(out') == Words(out) + 1
  {
    var sid := Sentences(out);
    var o1 := if sb && open then out + [SClose] else out;
    if sb && open {
      Extend(out, SClose);
    }
    var o2 := if !open || sb then o1 + [SOpen(sid + 1)] else o1;
    if !open || sb {
      Extend(o1, SOpen(sid + 1));
    }
    assert o2 == out + SentenceItems(open, sb, sid);
    Extend(o2, w);
  }

  /** One line of `.tt` input, as `process_tt_file` reads it. */
  datatype TtLine =
    | Comment
    | BlankLine
    | Token(text: seq<char>, off: nat, len: nat, rest: seq<char>)
    | Overflow

  /** Drops one trailing LF, then one trailing CR. */
  function Chomp(line: seq<char>): (l: seq<char>)
    ensures |line| - 2 <= |l| <= |line| && l == line[..|l|]
  {
    var a := if |line| > 0 && line[|line| - 1] == '\n' then line[..|line| - 1] else line;
    if |a| > 0 && a[|a| - 1] == '\r' then a[..|a| - 1] else a
  }

  /** The bytes of `l` from `b` up to `e`, or none when that range is
      not inside `l`. */
  function Field(l: seq<char>, b: nat, e: nat): (f: seq<char>)
    ensures b <= e <= |l| ==> f == l[b..e]
    ensures |f| <= |l|
  {
    if b <= e <= |l| then l[b..e] else []
  }

  /** The parse of one line: comments (`%%`) and blank lines are told
      apart; otherwise the text runs to the first field end, the location
      field to the next, and its two numbers are the txt offset and
      length; the analyses follow. Both field ends are overwritten with
      NUL before the numbers are read, so `strtoul` sees the location
      field alone: it is read here as a string of its own. A text or
      analyses string too long for the word buffer, or a length too large
      for it, fails an assertion. Bytes past the end of the line read as
      NUL. The analyses are kept as the raw remainder of the line; the
      word buffer copies them up to their first NUL when the word is
      loaded. */
  function ParseTtLine(line: seq<char>): (t: TtLine)
    ensures t.Token? ==> |t.text| < WORDBUF_TEXT_LEN - 1 && |t.rest| < WORDBUF_REST_LEN && t.len < WORDBUF_CX_LEN
    ensures t.Token? ==> forall k :: 0 <= k < |t.text| ==> !IsFieldEnd(t.text[k])
  {
    if IsComment(line) then Comment else ParseChomped(Chomp(line))
  }

  /** A chomped line that is no comment: blank when it starts with NUL,
      otherwise the word whose first two fields end at the first two
      field ends. */
  function ParseChomped(l: seq<char>): (t: TtLine)
    ensures t.Token? ==> |t.text| < WORDBUF_TEXT_LEN - 1 && |t.rest| < WORDBUF_REST_LEN && t.len < WORDBUF_CX_LEN
    ensures t.Token? ==> forall k :: 0 <= k < |t.text| ==> !IsFieldEnd(t.text[k])
  {
    if At(l, 0) == NUL then BlankLine
    else
      var e0 := NextTab(l, 0);
      WordOf(l, e0, NextTab(l, e0 + 1))
  }

  /** The word of a line whose text field ends at `e0` and location field
      at `e1`, or `Overflow` when a part does not fit its buffer. */
  function WordOf(l: seq<char>, e0: nat, e1: nat): (t: TtLine)
    requires e0 <= |l| && forall k :: 0 <= k < e0 ==> !IsFieldEnd(At(l, k))
    ensures t.Token? ==> |t.text| < WORDBUF_TEXT_LEN - 1 && |t.rest| < WORDBUF_REST_LEN && t.len < WORDBUF_CX_LEN
    ensures t.Token? ==> forall k :: 0 <= k < |t.text| ==> !IsFieldEnd(t.text[k])
  {
    if e0 + 1 >= WORDBUF_TEXT_LEN || |l| - (e1 + 1) >= WORDBUF_REST_LEN then Overflow
    else
      var loc := Field(l, e0 + 1, e1);
      var off := StrToUL(loc, 0);
      var len := StrToUL(loc, off.1).0;
      if len >= WORDBUF_CX_LEN then Overflow
      else
        assert forall k :: 0 <= k < e0 ==> l[..e0][k] == At(l, k);
        Token(l[..e0], off.0, len, if e1 + 1 <= |l| then l[e1 + 1..] else [])
  }

  /** A line laid out as the tokenizer writes a word, without its
      newline: the text, a TAB, the two numerals of the txt offset and
      length separated by a blank, then the analyses after a TAB when
      there are any. */
  function Layout(text: seq<char>, d1: seq<char>, d2: seq<char>, rest: seq<char>): seq<char>
  {
    text + "\t" + d1 + " " + d2 + (if rest == [] then [] else "\t" + rest)
  }

  /** The line written for a word, newline included. */
  function TokenLine(text: seq<char>, off: nat, len: nat, rest: seq<char>): seq<char>
  {
    Layout(text, Dec(off), Dec(len), rest) + "\n"
  }

  /** A non-empty numeral. */
  predicate Numeral(d: seq<char>)
  {
    d != [] && AllDigits(d)
  }

  /** Where the fields of a laid-out line lie. */
  lemma LayoutShape(text: seq<char>, d1: seq<char>, d2: seq<char>, rest: seq<char>)
    requires Numeral(d1) && Numeral(d2)
    requires forall k :: 0 <= k < |text| ==> !IsFieldEnd(text[k])
    ensures var l := Layout(text, d1, d2, rest);
            var e0 := |text|;
            var e1 := e0 + 2 + |d1| + |d2|;
            |l| == e1 + (if rest == [] then 0 else 1 + |rest|)
            && l[..e0] == text && l[e0] == '\t' && l[e0 + 1..e1] == d1 + " " + d2
            && (rest != [] ==> l[e1] == '\t' && l[e1 + 1..] == rest)
            && (forall m :: 0 <= m < e0 ==> !IsFieldEnd(l[m]))
            && (forall m :: e0 < m < e1 ==> !IsFieldEnd(l[m]))
  {
    var l := Layout(text, d1, d2, rest);
    var e0 := |text|;
    var p := e0 + 1 + |d1|;
    var e1 := p + 1 + |d2|;
    var head := text + "\t" + d1 + " " + d2;
    assert l[..e1] == head;
    assert head[e0 + 1..] == d1 + " " + d2;
    forall m | 0 <= m < e0 ensures l[m] == text[m] {
      assert head[m] == text[m];
    }
    forall m | e0 < m < e1 ensures !IsFieldEnd(l[m]) {
      if m < p {
        assert head[m] == d1[m - e0 - 1];
      } else if m > p {
        assert head[m] == d2[m - p - 1];
      }
    }
  }

  /** A laid-out line is no comment, and the chomp takes off exactly its
      newline when the analyses do not end in a CR. */
  lemma LayoutChomp(text: seq<char>, d1: seq<char>, d2: seq<char>, rest: seq<char>)
    requires Numeral(d2)
    requires !IsComment(text)
    requires rest == [] || rest[|rest| - 1] != '\r'
    ensures !IsComment(Layout(text, d1, d2, rest) + "\n")
    ensures Chomp(Layout(text, d1, d2, rest) + "\n") == Layout(text, d1, d2, rest)
  {
    var l := Layout(text, d1, d2, rest);
    var line := l + "\n";
    if |text| >= 2 {
      assert line[0] == text[0] && line[1] == text[1];
    } else if |text| == 1 {
      assert line[1] == '\t';
    }
    if rest == [] {
      assert l[|l| - 1] == d2[|d2| - 1];
    } else {
      assert l[|l| - 1] == rest[|rest| - 1];
    }
  }

  /** The first numeral of a location field as written. */
  lemma LocationOffset(d1: seq<char>, d2: seq<char>)
    requires Numeral(d1) && Numeral(d2)
    ensures StrToUL(d1 + " " + d2, 0) == (DigitsValue(d1), |d1|)
  {
    var loc := d1 + " " + d2;
    assert loc[..|d1|] == d1;
    StrToULDigits(loc, 0, d1);
  }

  /** The second numeral of a location field as written. */
  lemma LocationLength(d1: seq<char>, d2: seq<char>)
    requires Numeral(d1) && Numeral(d2)
    ensures StrToUL(d1 + " " + d2, |d1|).0 == DigitsValue(d2)
  {
    var loc := d1 + " " + d2;
    assert loc[|d1| + 1..] == d2;
    StrToULSpaceDigits(loc, |d1|, d2);
  }

  /** A line that is no comment is parsed as its chomped form. */
  lemma ReadsChomped(line: seq<char>, l: seq<char>)
    requires !IsComment(line) && Chomp(line) == l
    ensures ParseTtLine(line) == ParseChomped(l)
  {
  }

  /** A chomped line that does not start with NUL is the word whose
      fields end at its first two field ends. */
  lemma ReadsFields(l: seq<char>, e0: nat, e1: nat)
    requires At(l, 0) != NUL && NextTab(l, 0) == e0 && NextTab(l, e0 + 1) == e1
    ensures e0 <= |l| && forall k :: 0 <= k < e0 ==> !IsFieldEnd(At(l, k))
    ensures ParseChomped(l) == WordOf(l, e0, e1)
  {
  }

  /** When every part fits, the word holds the text before `e0`, the two
      numbers read from the location field and the analyses after `e1`. */
  lemma ReadsToken(l: seq<char>, e0: nat, e1: nat, off: nat, p: nat, len: nat)
    requires e0 <= |l| && forall k :: 0 <= k < e0 ==> !IsFieldEnd(At(l, k))
    requires e0 + 1 < WORDBUF_TEXT_LEN && |l| - (e1 + 1) < WORDBUF_REST_LEN && len < WORDBUF_CX_LEN
    requires StrToUL(Field(l, e0 + 1, e1), 0) == (off, p) && StrToUL(Field(l, e0 + 1, e1), p).0 == len
    ensures WordOf(l, e0, e1) == Token(l[..e0], off, len, if e1 + 1 <= |l| then l[e1 + 1..] else [])
  {
  }

  /** The analyses of a laid-out line are read back whole. */
  lemma LayoutRest(text: seq<char>, d1: seq<char>, d2: seq<char>, rest: seq<char>)
    requires Numeral(d1) && Numeral(d2)
    requires forall k :: 0 <= k < |text| ==> !IsFieldEnd(text[k])
    ensures var l := Layout(text, d1, d2, rest);
            var e1 := |text| + 2 + |d1| + |d2|;
            (if e1 + 1 <= |l| then l[e1 + 1..] else []) == rest
            && l[..|text|] == text && |l| - (e1 + 1) <= |rest|
  {
    LayoutShape(text, d1, d2, rest);
  }

  /** The first two field ends of a laid-out line close its text and its
      location field. */
  lemma LayoutFieldEnds(text: seq<char>, d1: seq<char>, d2: seq<char>, rest: seq<char>)
    requires Numeral(d1) && Numeral(d2)
    requires forall k :: 0 <= k < |text| ==> !IsFieldEnd(text[k])
    ensures var l := Layout(text, d1, d2, rest);
            At(l, 0) != NUL && NextTab(l, 0) == |text| && NextTab(l, |text| + 1) == |text| + 2 + |d1| + |d2|
            && |text| <= |l| && forall k :: 0 <= k < |text| ==> !IsFieldEnd(At(l, k))
  {
    var l := Layout(text, d1, d2, rest);
    var e0 := |text|;
    LayoutShape(text, d1, d2, rest);
    if text != [] {
      assert l[0] == l[..e0][0];
    }
    NextTabField(l, 0, e0);
    NextTabField(l, e0 + 1, e0 + 2 + |d1| + |d2|);
  }

  /** The location field of a laid-out line reads as its two numerals. */
  lemma LayoutLocation(text: seq<char>, d1: seq<char>, d2: seq<char>, rest: seq<char>)
    requires Numeral(d1) && Numeral(d2)
    requires forall k :: 0 <= k < |text| ==> !IsFieldEnd(text[k])
    ensures var l := Layout(text, d1, d2, rest);
            var loc := Field(l, |text| + 1, |text| + 2 + |d1| + |d2|);
            StrToUL(loc, 0) == (DigitsValue(d1), |d1|) && StrToUL(loc, |d1|).0 == DigitsValue(d2)
  {
    var l := Layout(text, d1, d2, rest);
    LayoutShape(text, d1, d2, rest);
    assert Field(l, |text| + 1, |text| + 2 + |d1| + |d2|) == d1 + " " + d2;
    LocationOffset(d1, d2);
    LocationLength(d1, d2);
  }

  /** What makes a line read as a word: it is no comment, its chomp is
      `l`, its first two field ends are `e0` and `e1`, the text before
      `e0` and the analyses after `e1` are `text` and `rest`, its parts
      fit their buffers, and the location field holds the numbers `off`
      (read up to `p`) and `len`. */
  predicate LineFields(l: seq<char>, e0: nat, e1: nat, text: seq<char>, off: nat, p: nat, len: nat, rest: seq<char>)
  {
    !IsComment(l + "\n") && Chomp(l + "\n") == l
    && At(l, 0) != NUL && NextTab(l, 0) == e0 && NextTab(l, e0 + 1) == e1
    && e0 <= |l| && l[..e0] == text && (if e1 + 1 <= |l| then l[e1 + 1..] else []) == rest
    && e0 + 1 < WORDBUF_TEXT_LEN && |l| - (e1 + 1) < WORDBUF_REST_LEN && len < WORDBUF_CX_LEN
    && StrToUL(Field(l, e0 + 1, e1), 0) == (off, p) && StrToUL(Field(l, e0 + 1, e1), p).0 == len
  }

  /** A line that is no comment, whose chomp is `l`, whose first two
      field ends are `e0` and `e1`, and whose parts fit their buffers,
      reads as the word with the text before `e0`, the two numbers of the
      location field and the analyses after `e1`. */
  lemma ReadsLine(l: seq<char>, e0: nat, e1: nat, text: seq<char>, off: nat, p: nat, len: nat, rest: seq<char>)
    requires LineFields(l, e0, e1, text, off, p, len, rest)
    ensures ParseTtLine(l + "\n") == Token(text, off, len, rest)
  {
    ReadsChomped(l + "\n", l);
    ReadsFields(l, e0, e1);
    ReadsToken(l, e0, e1, off, p, len);
  }

  /** `ReadsLine` for every line at once, so that a caller holding a
      concrete line needs no more than `LineFields` of it. */
  lemma ReadsLines()
    ensures forall l, e0, e1, text, off, p, len, rest :: LineFields(l, e0, e1, text, off, p, len, rest) ==>
              ParseTtLine(l + "\n") == Token(text, off, len, rest)
  {
    forall l, e0, e1, text, off, p, len, rest | LineFields(l, e0, e1, text, off, p, len, rest)
      ensures ParseTtLine(l + "\n") == Token(text, off, len, rest)
    {
      ReadsLine(l, e0, e1, text, off, p, len, rest);
    }
  }

  /** A laid-out line meets what `ReadsLine` asks of a line. */
  lemma LayoutFacts(text: seq<char>, d1: seq<char>, d2: seq<char>, rest: seq<char>)
    requires Numeral(d1) && Numeral(d2) && !IsComment(text)
    requires |text| < WORDBUF_TEXT_LEN - 1 && |rest| < WORDBUF_REST_LEN
    requires forall k :: 0 <= k < |text| ==> !IsFieldEnd(text[k])
    requires rest == [] || rest[|rest| - 1] != '\r'
    requires DigitsValue(d2) < WORDBUF_CX_LEN
    ensures LineFields(Layout(text, d1, d2, rest), |text|, |text| + 2 + |d1| + |d2|,
                       text, DigitsValue(d1), |d1|, DigitsValue(d2), rest)
  {
    LayoutChomp(text, d1, d2, rest);
    LayoutFieldEnds(text, d1, d2, rest);
    LayoutLocation(text, d1, d2, rest);
    LayoutRest(text, d1, d2, rest);
  }

  /** A laid-out line with its newline reads as the word with those
      fields. */
  lemma LayoutWord(text: seq<char>, d1: seq<char>, d2: seq<char>, rest: seq<char>)
    requires Numeral(d1) && Numeral(d2) && !IsComment(text)
    requires |text| < WORDBUF_TEXT_LEN - 1 && |rest| < WORDBUF_REST_LEN && DigitsValue(d2) < WORDBUF_CX_LEN
    requires forall k :: 0 <= k < |text| ==> !IsFieldEnd(text[k])
    requires rest == [] || rest[|rest| - 1] != '\r'
    ensures ParseTtLine(Layout(text, d1, d2, rest) + "\n") == Token(text, DigitsValue(d1), DigitsValue(d2), rest)
  {
    LayoutFacts(text, d1, d2, rest);
    ReadsLines();
  }

  /** A written line reads back as the word it was written from, as long
      as it is not taken for a comment, the analyses do not end in a CR
      (which the chomp would drop), and every part fits its buffer. */
  lemma ParseTokenLine(text: seq<char>, off: nat, len: nat, rest: seq<char>)
    requires !IsComment(text)
    requires |text| < WORDBUF_TEXT_LEN - 1 && |rest| < WORDBUF_REST_LEN && len < WORDBUF_CX_LEN
    requires forall k :: 0 <= k < |text| ==> !IsFieldEnd(text[k])
    requires rest == [] || rest[|rest| - 1] != '\r'
    ensures ParseTtLine(TokenLine(text, off, len, rest)) == Token(text, off, len, rest)
  {
    DecValue(off);
    DecValue(len);
    LayoutWord(text, Dec(off), Dec(len), rest);
  }
}
