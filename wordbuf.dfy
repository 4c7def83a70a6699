/** The `ttWordBuffer` of src/dtatw-tok2xml.c: one token of the
    tokenizer output with its flags, its txt-byte range, its text, its
    TAB-separated analyses and one character-record slot per txt byte.
    The flag mask `w_flags` is modelled as three booleans (`ttwSB`,
    `ttwOverL`, `ttwOverR`); a record pointer is a record index, and NULL
    is `NoCx`. */
module WordBuffers {
  import opened CStr
  import opened CharLookup

  const WORDBUF_TEXT_LEN: nat := 8192
  const WORDBUF_CX_LEN: nat := 8192
  const WORDBUF_REST_LEN: nat := 8192

  /** A NUL at `p` and none before: the C string held by `s` is `s[..p]`. */
  lemma CPrefixAt(s: seq<char>, p: nat)
    requires p < |s| && s[p] == NUL
    requires forall k :: 0 <= k < p ==> s[k] != NUL
    ensures CPrefix(s, -1) == s[..p]
  {
  }

  /** `txtb2cx[b]`; a read outside the vector is taken to find no record. */
  function Slot(txtb: seq<int>, b: int): int
  {
    if 0 <= b < |txtb| then txtb[b] else NoCx
  }

  /** The first index at or after `i` whose element differs from `c`. */
  function RunEnd(s: seq<int>, c: int, i: nat): (j: nat)
    requires i <= |s|
    ensures i <= j <= |s| && (j < |s| ==> s[j] != c)
    ensures forall m :: i <= m < j ==> s[m] == c
    decreases |s| - i
  {
    if i == |s| || s[i] != c then i else RunEnd(s, c, i + 1)
  }

  /** `strcpy(dst + at, src)`: the C string held by `src` and its NUL. */
  method StrCpy(dst: array<char>, at: nat, src: array<char>)
    requires dst != src && at + CEnd(src[..], -1) < dst.Length && CEnd(src[..], -1) < src.Length
    modifies dst
    ensures var n := CEnd(old(src[..]), -1);
            forall i :: 0 <= i < dst.Length ==>
              dst[i] == if at <= i < at + n then src[i - at] else if i == at + n then NUL else old(dst[i])
  {
    var i := 0;
    while src[i] != NUL
      invariant i <= CEnd(src[..], -1)
      invariant forall j :: 0 <= j < dst.Length ==> dst[j] == if at <= j < at + i then src[j - at] else old(dst[j])
      decreases CEnd(src[..], -1) - i
    {
      dst[at + i] := src[i];
      i := i + 1;
    }
    dst[at + i] := NUL;
  }

  /** `strcpy(dst, s)` from a string value. */
  method StrCpyValue(dst: array<char>, s: seq<char>)
    requires |s| < dst.Length
    modifies dst
    ensures forall i :: 0 <= i < dst.Length ==> dst[i] == if i < |s| then s[i] else if i == |s| then NUL else old(dst[i])
  {
    var i := 0;
    while i < |s|
      invariant i <= |s|
      invariant forall j :: 0 <= j < dst.Length ==> dst[j] == if j < i then s[j] else old(dst[j])
    {
      dst[i] := s[i];
      i := i + 1;
    }
    dst[i] := NUL;
  }

  /** `strcpy(dst, src)` between two buffers that end in NUL: `dst` then
      holds the same C string. */
  method CopyString(dst: array<char>, src: array<char>)
    requires dst != src && dst.Length == src.Length > 0 && src[src.Length - 1] == NUL
    modifies dst
    ensures dst[dst.Length - 1] == old(dst[dst.Length - 1]) || dst[dst.Length - 1] == NUL
    ensures CPrefix(dst[..], -1) == CPrefix(src[..], -1)
  {
    var n := CEnd(src[..], -1);
    StrCpy(dst, 0, src);
    CPrefixAt(dst[..], n);
    assert dst[..n] == src[..n];
  }

  /** `strcpy(dst, s)` from a string value without NUL: `dst` then holds
      that C string. */
  method LoadString(dst: array<char>, s: seq<char>)
    requires |s| < dst.Length && forall k :: 0 <= k < |s| ==> s[k] != NUL
    modifies dst
    ensures dst[dst.Length - 1] == old(dst[dst.Length - 1]) || dst[dst.Length - 1] == NUL
    ensures CPrefix(dst[..], -1) == s
  {
    StrCpyValue(dst, s);
    CPrefixAt(dst[..], |s|);
    assert dst[..|s|] == s;
  }

  /** The buffer `a` after the repair loop of `tt_next_word` writes the
      first `k` entries of `b` at index `n`, then the terminator `z`. */
  function Appended<T>(a: seq<T>, n: nat, b: seq<T>, k: nat, z: T): (r: seq<T>)
    requires n + k < |a| && k <= |b|
    ensures |r| == |a|
  {
    a[..n] + b[..k] + [z] + a[n + k + 1..]
  }

  /** The buffer `a` after `memmove(&a[0], &a[k], n + 1)`: the `n + 1`
      entries from `k` on move to the front, the rest stay. */
  function Shifted<T>(a: seq<T>, k: nat, n: nat): (r: seq<T>)
    requires k + n + 1 <= |a|
    ensures |r| == |a| && r[|a| - 1] == a[|a| - 1]
  {
    var r := a[k..k + n + 1] + a[n + 1..];
    assert n + 1 == |a| ==> r == a[k..];
    r
  }

  /** A buffer that matches `Appended` entry by entry is `Appended`. */
  lemma AppendedIs<T>(r: seq<T>, a: seq<T>, n: nat, b: seq<T>, k: nat, z: T)
    requires n + k < |a| && k <= |b| && |r| == |a|
    requires forall i {:trigger r[i]} :: 0 <= i < |r| ==> r[i] == if n <= i < n + k then b[i - n] else if i == n + k then z else a[i]
    ensures r == Appended(a, n, b, k, z)
  {
  }

  /** A buffer that matches `Shifted` entry by entry is `Shifted`. */
  lemma ShiftedIs<T>(r: seq<T>, a: seq<T>, k: nat, n: nat)
    requires k + n + 1 <= |a| && |r| == |a|
    requires forall i {:trigger r[i]} :: 0 <= i < |r| ==> r[i] == if i <= n then a[i + k] else a[i]
    ensures r == Shifted(a, k, n)
  {
    var t := Shifted(a, k, n);
    var front, back := a[k..k + n + 1], a[n + 1..];
    assert t == front + back;
    forall i | 0 <= i <= n ensures r[i] == t[i] {
      assert t[i] == front[i];
    }
    forall i | n < i < |r| ensures r[i] == t[i] {
      assert t[i] == back[i - (n + 1)];
    }
  }

  /** `memmove(&a[0], &a[from], n)`: the first `n` elements take the `n`
      elements starting at `from`; the others stay. */
  method MemMove<T>(a: array<T>, from: nat, n: nat)
    requires 0 < n && from + n <= a.Length
    modifies a
    ensures a[..] == Shifted(old(a[..]), from, n - 1)
  {
    ghost var a0 := a[..];
    var i := 0;
    while i < n
      invariant i <= n
      invariant forall j :: 0 <= j < a.Length ==> a[j] == if j < i then old(a[j + from]) else old(a[j])
    {
      a[i] := a[i + from];
      i := i + 1;
    }
    forall j | 0 <= j < a.Length ensures a[..][j] == if j <= n - 1 then a0[j + from] else a0[j] {
      assert a0[j] == old(a[j]);
      if j < n {
        assert a0[j + from] == old(a[j + from]);
      }
    }
    ShiftedIs(a[..], a0, from, n - 1);
  }

  /** The repair loop of `tt_next_word`: the bytes of `st` from the start
      whose slot in `sc` is that of the first byte are copied to `dt` at
      `at`, their slots to `dc`, and both are terminated. */
  method CopyRun(dt: array<char>, dc: array<int>, at: nat, st: array<char>, sc: array<int>, n: nat)
      returns (k: nat)
    requires dt != st && dc != sc && dt.Length == st.Length == dc.Length == sc.Length
    requires n < sc.Length && sc[n] == NoCx && sc[0] != NoCx
    requires at + RunEnd(sc[..], sc[0], 0) < dc.Length
    modifies dt, dc
    ensures k == RunEnd(sc[..], sc[0], 0) && 0 < k <= n
    ensures dt[..] == Appended(old(dt[..]), at, st[..], k, NUL)
    ensures dc[..] == Appended(old(dc[..]), at, sc[..], k, NoCx)
  {
    ghost var t0, c0 := dt[..], dc[..];
    var c := sc[0];
    ghost var run := RunEnd(sc[..], c, 0);
    k := 0;
    while sc[k] == c
      invariant k <= run
      invariant forall i :: 0 <= i < dt.Length ==> dt[i] == if at <= i < at + k then st[i - at] else t0[i]
      invariant forall i :: 0 <= i < dc.Length ==> dc[i] == if at <= i < at + k then c else c0[i]
      decreases run - k
    {
      dt[at + k] := st[k];
      dc[at + k] := c;
      k := k + 1;
    }
    dt[at + k] := NUL;
    dc[at + k] := NoCx;
    forall i | 0 <= i < dt.Length
      ensures dt[..][i] == if at <= i < at + k then st[..][i - at] else if i == at + k then NUL else t0[i]
    {
    }
    forall i | 0 <= i < dc.Length
      ensures dc[..][i] == if at <= i < at + k then sc[..][i - at] else if i == at + k then NoCx else c0[i]
    {
    }
    AppendedIs(dt[..], t0, at, st[..], k, NUL);
    AppendedIs(dc[..], c0, at, sc[..], k, NoCx);
  }

  /** The contents of a word buffer as a value: flags, range, and its
      three buffers whole. */
  datatype WordVal = WordVal(sb: bool, overL: bool, overR: bool, off: nat, len: nat,
                             text: seq<char>, rest: seq<char>, cx: seq<int>)

  /** What the output and the next word read of a word buffer: flags,
      range, the C strings held by its text and analyses buffers, and the
      slots of its bytes. */
  datatype Word = Word(sb: bool, overL: bool, overR: bool, off: nat, len: nat,
                       text: seq<char>, rest: seq<char>, cx: seq<int>)

  function View(v: WordVal): (w: Word)
    requires v.len <= |v.cx|
    ensures |w.cx| == w.len
  {
    Word(v.sb, v.overL, v.overR, v.off, v.len, CPrefix(v.text, -1), CPrefix(v.rest, -1), v.cx[..v.len])
  }

  /** The previous word `a` after the first step of the overlap repair
      takes `k` bytes of the next word `b`: they and their slots are
      written at its length and terminated, its length grows by `k`, and
      it is flagged as overlapping on the right. */
  function Extended(a: WordVal, b: WordVal, k: nat): (g: WordVal)
    requires a.len + k < |a.text| && a.len + k < |a.cx| && k <= |b.text| && k <= |b.cx|
    ensures |g.text| == |a.text| && |g.cx| == |a.cx| && g.rest == a.rest
  {
    a.(len := a.len + k, overR := true,
       text := Appended(a.text, a.len, b.text, k, NUL), cx := Appended(a.cx, a.len, b.cx, k, NoCx))
  }

  /** The next word `b` after the second step of the overlap repair drops
      its first `k` bytes: it starts `k` bytes later, its text and slots
      (terminators included) move left by `k`, and it is flagged as
      overlapping on the left. */
  function Dropped(b: WordVal, k: nat): (t: WordVal)
    requires k <= b.len < |b.text| && b.len < |b.cx|
    ensures |t.text| == |b.text| && |t.cx| == |b.cx| && t.rest == b.rest
  {
    b.(off := b.off + k, len := b.len - k, overL := true,
       text := Shifted(b.text, k, b.len - k), cx := Shifted(b.cx, k, b.len - k))
  }

  class WordBuffer {
    var sb: bool
    var overL: bool
    var overR: bool
    var off: nat
    var len: nat
    const text: array<char>
    const rest: array<char>
    const cx: array<int>

    /** The buffer sizes, and a NUL in the last byte of each string buffer
        that nothing but a terminator ever overwrites. */
    ghost predicate Valid()
      reads this, text, rest
    {
      text.Length == WORDBUF_TEXT_LEN && rest.Length == WORDBUF_REST_LEN && cx.Length == WORDBUF_CX_LEN
      && text != rest && text[WORDBUF_TEXT_LEN - 1] == NUL && rest[WORDBUF_REST_LEN - 1] == NUL
    }

    /** The state `memset(w, 0, sizeof(ttWordBuffer))` leaves, except for
        the sentence-boundary flag. */
    ghost predicate Blank()
      reads this, text, rest, cx
    {
      !overL && !overR && off == 0 && len == 0
      && (forall i :: 0 <= i < text.Length ==> text[i] == NUL)
      && (forall i :: 0 <= i < rest.Length ==> rest[i] == NUL)
      && (forall i :: 0 <= i < cx.Length ==> cx[i] == NoCx)
    }

    /** The token text: the C string in `w_text`. */
    function Text(): seq<char>
      reads text
    {
      CPrefix(text[..], -1)
    }

    /** The analyses: the C string in `w_rest`. */
    function Rest(): seq<char>
      reads rest
    {
      CPrefix(rest[..], -1)
    }

    /** The buffer's contents. */
    ghost function Val(): WordVal
      reads this, text, rest, cx
    {
      WordVal(sb, overL, overR, off, len, text[..], rest[..], cx[..])
    }

    /** A zeroed buffer. */
    constructor ()
      ensures Valid() && Blank() && !sb
      ensures fresh(text) && fresh(rest) && fresh(cx)
    {
      sb, overL, overR := false, false, false;
      off, len := 0, 0;
      text := new char[WORDBUF_TEXT_LEN](_ => NUL);
      rest := new char[WORDBUF_REST_LEN](_ => NUL);
      cx := new int[WORDBUF_CX_LEN](_ => NoCx);
    }

    /** The first half of the overlap repair, on the previous word: the
        leading bytes of `src` whose slot is the record of its first byte
        are appended to this word's text and slots, followed by NUL and
        NULL; the length grows by their number and the word is flagged as
        overlapping on the right. */
    method AppendRun(src: WordBuffer) returns (k: nat)
      requires Valid() && src.Valid() && src != this && text != src.text && cx != src.cx
      requires src.len < WORDBUF_CX_LEN && src.cx[src.len] == NoCx && src.cx[0] != NoCx
      requires len + RunEnd(src.cx[..], src.cx[0], 0) < WORDBUF_CX_LEN
      modifies this, text, cx
      ensures Valid()
      ensures k == RunEnd(src.cx[..], src.cx[0], 0) && 0 < k <= src.len
      ensures Val() == Extended(old(Val()), src.Val(), k)
    {
      ghost var a, b := Val(), src.Val();
      k := CopyRun(text, cx, len, src.text, src.cx, src.len);
      ghost var g := Extended(a, b, k);
      assert text[..] == g.text && cx[..] == g.cx && rest[..] == a.rest;
      len, overR := len + k, true;
      assert Val() == g;
    }

    /** The second half of the overlap repair, on the new word: its first
        `k` bytes are dropped, so its range starts `k` later, its text and
        slots, terminators included, move left by `k`, and it is flagged
        as overlapping on the left. */
    method DropFront(k: nat)
      requires Valid() && k <= len < WORDBUF_CX_LEN
      modifies this, text, cx
      ensures Valid()
      ensures Val() == Dropped(old(Val()), k)
    {
      ghost var b := Val();
      ghost var d := Dropped(b, k);
      var n := len - k;
      MemMove(text, k, n + 1);
      assert text[..] == d.text;
      assert cx[..] == b.cx;
      MemMove(cx, k, n + 1);
      assert cx[..] == d.cx;
      assert text[..] == d.text && rest[..] == d.rest;
      off, len, overL := off + k, n, true;
      assert Val() == d;
    }

    /** `w0 <- w1` in `tt_next_word`: flags, range, text, analyses and
        the slots of the word's bytes are copied from `src`. */
    method CopyFrom(src: WordBuffer)
      requires Valid() && src.Valid() && src != this && src.len < WORDBUF_CX_LEN
      requires text != src.text && text != src.rest && rest != src.text && rest != src.rest && cx != src.cx
      modifies this, text, rest, cx
      ensures Valid() && len == src.len
      ensures View(Val()) == View(src.Val())
    {
      ghost var s := View(src.Val());
      CopyString(text, src.text);
      ghost var t := text[..];
      CopyString(rest, src.rest);
      ghost var r := rest[..];
      CopyRange(cx, 0, src.cx, 0, src.len);
      assert cx[..src.len] == s.cx;
      sb, overL, overR, off, len := src.sb, src.overL, src.overR, src.off, src.len;
      assert text[..] == t && rest[..] == r;
    }

    /** Fills a zeroed buffer from a parsed `.tt` line: range, text,
        analyses, and the slots of the word's txt bytes followed by NULL;
        the sentence-boundary flag is kept. */
    method Load(t: seq<char>, o: nat, n: nat, r: seq<char>, txtb: seq<int>)
      requires Valid() && Blank()
      requires |t| < WORDBUF_TEXT_LEN - 1 && |r| < WORDBUF_REST_LEN && n < WORDBUF_CX_LEN
      requires forall k :: 0 <= k < |t| ==> t[k] != NUL
      requires forall k :: 0 <= k < |r| ==> r[k] != NUL
      modifies this, text, rest, cx
      ensures Valid() && sb == old(sb) && !overL && !overR
      ensures off == o && len == n && Text() == t && Rest() == r
      ensures forall i :: 0 <= i < n ==> cx[i] == Slot(txtb, o + i)
      ensures cx[n] == NoCx
    {
      off := o;
      len := n;
      LoadString(text, t);
      LoadString(rest, r);
      var i := 0;
      while i < n
        invariant i <= n
        invariant forall j :: 0 <= j < WORDBUF_CX_LEN ==> cx[j] == if j < i then Slot(txtb, o + j) else NoCx
        modifies cx
      {
        cx[i] := Slot(txtb, o + i);
        i := i + 1;
      }
      cx[n] := NoCx;
    }

    /** `memset(w, 0, sizeof(ttWordBuffer))`. */
    method Clear()
      requires Valid()
      modifies this, text, rest, cx
      ensures Valid() && Blank() && !sb
    {
      sb, overL, overR := false, false, false;
      off, len := 0, 0;
      forall i | 0 <= i < text.Length {
        text[i] := NUL;
      }
      forall i | 0 <= i < rest.Length {
        rest[i] := NUL;
      }
      forall i | 0 <= i < cx.Length {
        cx[i] := NoCx;
      }
    }
  }
}
