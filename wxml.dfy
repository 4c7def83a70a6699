/** src/dtatw-txml2wxml.c: rewrites each `<w>` of a tokenized XML file as
    a `<w>` element holding one `<c ref="#id"/>` per character id listed in
    its `c` attribute; no other element is written. */
module Wxml {
  import opened Wrappers
  import opened CStr
  import opened XmlEscape
  import opened IndexRecords

  /** Indentation written before `<w>`/`</w>` and before each `<c>`. */
  const INDENT_W: seq<char> := "\n  "
  const INDENT_C: seq<char> := "\n    "

  /** The events the handlers see: a start tag with expat's flat attribute
      list, or an end tag. */
  datatype Event = StartTag(name: seq<char>, attrs: seq<seq<char>>) | EndTag(name: seq<char>)

  predicate WellFormed(e: Event)
  {
    e.StartTag? ==> |e.attrs| % 2 == 0 && DistinctNames(e.attrs)
  }

  // ---------------------------------------------------------------------
  // Splitting `@c` into ids
  // ---------------------------------------------------------------------

  /** The end of the run of non-space bytes that starts at `i`. */
  function RunEnd(s: seq<char>, i: nat): (e: nat)
    requires i <= |s|
    ensures i <= e <= |s|
    ensures forall k :: i <= k < e ==> !IsSpace(s[k])
    ensures e == |s| || IsSpace(s[e])
    decreases |s| - i
  {
    if i == |s| || IsSpace(s[i]) then i else RunEnd(s, i + 1)
  }

  /** The maximal runs of non-space bytes of `s[i..]`, in order. */
  function RunsFrom(s: seq<char>, i: nat): seq<seq<char>>
    requires i <= |s|
    decreases |s| - i
  {
    if i == |s| then []
    else if IsSpace(s[i]) then RunsFrom(s, i + 1)
    else [s[i..RunEnd(s, i)]] + RunsFrom(s, RunEnd(s, i))
  }

  /** The ids of a `c` attribute value. */
  function Runs(s: seq<char>): seq<seq<char>>
  {
    RunsFrom(s, 0)
  }

  /** A non-empty id without white space. */
  predicate IsId(r: seq<char>)
  {
    r != [] && forall k :: 0 <= k < |r| ==> !IsSpace(r[k])
  }

  /** No run is empty and none holds white space. */
  lemma {:induction false} RunsAreIds(s: seq<char>, i: nat)
    requires i <= |s|
    ensures forall r <- RunsFrom(s, i) :: IsId(r)
    decreases |s| - i
  {
    if i < |s| {
      if IsSpace(s[i]) {
        RunsAreIds(s, i + 1);
      } else {
        RunsAreIds(s, RunEnd(s, i));
      }
    }
  }

  /** The non-space bytes of `s[i..]`. */
  function NonSpaceFrom(s: seq<char>, i: nat): seq<char>
    requires i <= |s|
    decreases |s| - i
  {
    if i == |s| then [] else (if IsSpace(s[i]) then [] else [s[i]]) + NonSpaceFrom(s, i + 1)
  }

  /** The concatenation of a list of ids. */
  function Concat(rs: seq<seq<char>>): seq<char>
  {
    if rs == [] then [] else rs[0] + Concat(rs[1..])
  }

  lemma {:induction false} NonSpaceRun(s: seq<char>, i: nat, e: nat)
    requires i <= e <= |s|
    requires forall k :: i <= k < e ==> !IsSpace(s[k])
    ensures NonSpaceFrom(s, i) == s[i..e] + NonSpaceFrom(s, e)
    decreases e - i
  {
    if i < e {
      NonSpaceRun(s, i + 1, e);
      var rest := NonSpaceFrom(s, e);
      assert NonSpaceFrom(s, i) == [s[i]] + NonSpaceFrom(s, i + 1);
      assert [s[i]] + (s[i + 1..e] + rest) == ([s[i]] + s[i + 1..e]) + rest;
      assert [s[i]] + s[i + 1..e] == s[i..e];
    }
  }

  /** Nothing but white space is lost: the runs hold every other byte, in
      order. */
  lemma {:induction false} RunsConcat(s: seq<char>, i: nat)
    requires i <= |s|
    ensures Concat(RunsFrom(s, i)) == NonSpaceFrom(s, i)
    decreases |s| - i
  {
    if i < |s| {
      if IsSpace(s[i]) {
        RunsConcat(s, i + 1);
      } else {
        var e := RunEnd(s, i);
        RunsConcat(s, e);
        NonSpaceRun(s, i, e);
        var rs := [s[i..e]] + RunsFrom(s, e);
        assert rs[0] == s[i..e] && rs[1..] == RunsFrom(s, e);
      }
    }
  }

  /** Ids joined by single spaces. */
  function Unwords(rs: seq<seq<char>>): seq<char>
  {
    if rs == [] then [] else if |rs| == 1 then rs[0] else rs[0] + (" " + Unwords(rs[1..]))
  }

  lemma {:induction false} RunEndShift(p: seq<char>, t: seq<char>, j: nat)
    requires j <= |t|
    ensures RunEnd(p + t, |p| + j) == |p| + RunEnd(t, j)
    decreases |t| - j
  {
    if j < |t| && !IsSpace(t[j]) {
      assert (p + t)[|p| + j] == t[j];
      RunEndShift(p, t, j + 1);
    } else if j < |t| {
      assert (p + t)[|p| + j] == t[j];
    }
  }

  lemma SliceShift(p: seq<char>, t: seq<char>, a: nat, b: nat)
    requires a <= b <= |t|
    ensures (p + t)[|p| + a..|p| + b] == t[a..b]
  {
    assert forall k :: 0 <= k < b - a ==> (p + t)[|p| + a..|p| + b][k] == t[a..b][k];
  }

  /** The runs of a suffix do not depend on what precedes it. */
  lemma {:induction false} RunsShift(p: seq<char>, t: seq<char>, j: nat)
    requires j <= |t|
    ensures RunsFrom(p + t, |p| + j) == RunsFrom(t, j)
    decreases |t| - j, 1
  {
    if j < |t| {
      assert (p + t)[|p| + j] == t[j];
      if IsSpace(t[j]) {
        RunsShift(p, t, j + 1);
      } else {
        RunShift(p, t, j);
      }
    }
  }

  /** The same for a suffix that starts with a run. */
  lemma {:induction false} RunShift(p: seq<char>, t: seq<char>, j: nat)
    requires j < |t| && !IsSpace(t[j])
    ensures RunsFrom(p + t, |p| + j) == RunsFrom(t, j)
    decreases |t| - j, 0
  {
    assert (p + t)[|p| + j] == t[j];
    RunEndShift(p, t, j);
    var e := RunEnd(t, j);
    RunsShift(p, t, e);
    SliceShift(p, t, j, e);
  }

  /** A run followed by nothing or by white space is split off whole. */
  lemma RunsFirst(r: seq<char>, t: seq<char>)
    requires IsId(r)
    requires t == [] || IsSpace(t[0])
    ensures RunsFrom(r + t, 0) == [r] + RunsFrom(t, 0)
  {
    RunEndShift(r, t, 0);
    assert RunEnd(r, 0) == |r| by {
      assert RunEnd(r, |r|) == |r|;
      RunEndAll(r, 0);
    }
    assert RunEnd(t, 0) == 0;
    assert (r + t)[0] == r[0];
    assert (r + t)[..|r|] == r;
    RunsShift(r, t, 0);
  }

  lemma {:induction false} RunEndAll(s: seq<char>, i: nat)
    requires i <= |s|
    requires forall k :: i <= k < |s| ==> !IsSpace(s[k])
    ensures RunEnd(s, i) == |s|
    decreases |s| - i
  {
    if i < |s| {
      RunEndAll(s, i + 1);
    }
  }

  /** A leading space starts no run. */
  lemma RunsSpace(u: seq<char>)
    ensures RunsFrom(" " + u, 0) == RunsFrom(u, 0)
  {
    RunsShift(" ", u, 0);
    assert (" " + u)[0] == ' ';
  }

  /** Splitting ids joined by spaces gives the ids back. */
  lemma {:induction false} RunsUnwords(rs: seq<seq<char>>)
    requires forall r <- rs :: IsId(r)
    ensures Runs(Unwords(rs)) == rs
  {
    if |rs| == 1 {
      RunsFirst(rs[0], []);
      assert rs[0] + [] == rs[0];
    } else if |rs| > 1 {
      var u := Unwords(rs[1..]);
      RunsFirst(rs[0], " " + u);
      RunsSpace(u);
      RunsUnwords(rs[1..]);
    }
  }

  /** The output for one id. */
  function RefOut(r: seq<char>): seq<char>
  {
    INDENT_C + "<c ref=\"#" + Escaped(r) + "\"/>"
  }

  /** The output for a list of ids, in order. */
  function RefsOut(rs: seq<seq<char>>): seq<char>
  {
    if rs == [] then [] else RefOut(rs[0]) + RefsOut(rs[1..])
  }

  /** Under the same conditions as `CPrefix`, a slice without NUL is
      visited whole. */
  lemma SliceVisited(s: seq<char>, b: nat, e: nat)
    requires b <= e <= |s|
    requires forall k :: b <= k < e ==> s[k] != NUL
    ensures CPrefix(s[b..], e - b) == s[b..e]
  {
    var t := s[b..];
    assert forall k :: 0 <= k < e - b ==> t[k] != NUL;
    var n := CEnd(t, e - b);
    assert n == e - b;
  }

  /** Bytes of `ca` up to its terminator are those of `p`. */
  ghost predicate Terminated(ca: seq<char>, p: seq<char>)
  {
    p == CPrefix(ca, -1) && At(ca, |p|) == NUL
  }

  /** A run of `p` is what `put_escaped_str(c_begin, c_end - c_begin)`
      visits. */
  lemma TerminatedSlice(ca: seq<char>, p: seq<char>, b: nat, e: nat)
    requires Terminated(ca, p) && b <= e <= |p|
    ensures CPrefix(ca[b..], e - b) == p[b..e]
  {
    assert forall k :: b <= k < e ==> ca[k] == p[k] && p[k] != NUL;
    SliceVisited(ca, b, e);
    assert forall k :: 0 <= k < e - b ==> ca[b..e][k] == p[b..e][k];
  }

  /** The loop `for ( ; *c_begin && isspace(*c_begin); c_begin++)`. */
  method SkipSpace(ca: seq<char>, b: nat, ghost p: seq<char>) returns (b': nat)
    requires Terminated(ca, p) && b <= |p|
    ensures b <= b' <= |p|
    ensures RunsFrom(p, b') == RunsFrom(p, b)
    ensures b' == |p| || !IsSpace(p[b'])
  {
    b' := b;
    while At(ca, b') != NUL && IsSpace(At(ca, b'))
      invariant b <= b' <= |p|
      invariant RunsFrom(p, b') == RunsFrom(p, b)
      decreases |p| - b'
    {
      b' := b' + 1;
    }
  }

  /** The loop `for (c_end=c_begin; *c_end && !isspace(*c_end); c_end++)`. */
  method FindRunEnd(ca: seq<char>, b: nat, ghost p: seq<char>) returns (e: nat)
    requires Terminated(ca, p) && b <= |p|
    ensures e == RunEnd(p, b)
  {
    e := b;
    while At(ca, e) != NUL && !IsSpace(At(ca, e))
      invariant b <= e <= |p|
      invariant RunEnd(p, e) == RunEnd(p, b)
      decreases |p| - e
    {
      e := e + 1;
    }
  }

  /** Writing the reference for the run at `b` leaves the rest to do. */
  lemma RefsOutStep(out: seq<char>, p: seq<char>, b: nat)
    requires b < |p| && !IsSpace(p[b])
    ensures out + RefsOut(RunsFrom(p, b))
            == (out + RefOut(p[b..RunEnd(p, b)])) + RefsOut(RunsFrom(p, RunEnd(p, b)))
  {
    var e := RunEnd(p, b);
    var rs := RunsFrom(p, b);
    assert rs == [p[b..e]] + RunsFrom(p, e);
    assert rs[0] == p[b..e] && rs[1..] == RunsFrom(p, e);
    assert RefsOut(rs) == RefOut(p[b..e]) + RefsOut(RunsFrom(p, e));
  }

  /** The `<c>` elements written for the value `ca` of `@c`: the loop
      skips white space, finds the end of the next run and writes it as
      a reference. */
  method CRefs(ca: seq<char>) returns (out: seq<char>)
    ensures out == RefsOut(Runs(CPrefix(ca, -1)))
  {
    ghost var p := CPrefix(ca, -1);
    ghost var total := RefsOut(RunsFrom(p, 0));
    assert Terminated(ca, p);
    out := [];
    var b := 0;
    while At(ca, b) != NUL
      invariant b <= |p|
      invariant out + RefsOut(RunsFrom(p, b)) == total
      decreases |p| - b
    {
      var cBegin := SkipSpace(ca, b, p);
      var cEnd := FindRunEnd(ca, cBegin, p);
      if At(ca, cBegin) != NUL && cEnd > cBegin {
        RefsOutStep(out, p, cBegin);
        TerminatedSlice(ca, p, cBegin, cEnd);
        var id := PutEscapedStr(ca[cBegin..], cEnd - cBegin);
        var ref := INDENT_C + "<c ref=\"#" + id + "\"/>";
        out := out + ref;
      }
      b := cEnd;
    }
    assert b == |p|;
  }

  // ---------------------------------------------------------------------
  // The handlers
  // ---------------------------------------------------------------------

  /** The largest of three positions. */
  function Max3(a: nat, b: nat, c: nat): (m: nat)
    ensures m >= a && m >= b && m >= c && (m == a || m == b || m == c)
  {
    if a >= b && a >= c then a else if b >= c then b else c
  }

  /** The value of `aname` when its position is below `i`. */
  function SeenBefore(attrs: seq<seq<char>>, aname: seq<char>, i: nat): Option<seq<char>>
    requires |attrs| % 2 == 0
  {
    var k := AttrIndexFrom(attrs, aname, 0);
    if k < i && k < |attrs| then Some(attrs[k + 1]) else None
  }

  /** Passing the pair at `i` finds `aname` there or nowhere new. */
  lemma SeenNext(attrs: seq<seq<char>>, aname: seq<char>, i: nat)
    requires |attrs| % 2 == 0 && DistinctNames(attrs) && i % 2 == 0 && i < |attrs|
    ensures SeenBefore(attrs, aname, i + 2)
            == if attrs[i] == aname then Some(attrs[i + 1]) else SeenBefore(attrs, aname, i)
    ensures attrs[i] == aname ==> AttrIndexFrom(attrs, aname, 0) == i
  {
    var k := AttrIndexFrom(attrs, aname, 0);
    if attrs[i] == aname {
      assert k <= i && attrs[k] == attrs[i];
      assert k == i;
    }
  }

  /** The state of the attribute loop before the pair at `i`. */
  ghost predicate Scanned(attrs: seq<seq<char>>, i: nat, xmlId: Option<seq<char>>, ca: Option<seq<char>>,
                          ta: Option<seq<char>>)
    requires |attrs| % 2 == 0
  {
    i <= |attrs| && i % 2 == 0
    && xmlId == SeenBefore(attrs, "xml:id", i)
    && ca == SeenBefore(attrs, "c", i)
    && ta == SeenBefore(attrs, "t", i)
  }

  /** One pass of the attribute loop. */
  method ScanPair(attrs: seq<seq<char>>, i: nat, xmlId: Option<seq<char>>, ca: Option<seq<char>>,
                  ta: Option<seq<char>>)
    returns (xmlId': Option<seq<char>>, ca': Option<seq<char>>, ta': Option<seq<char>>)
    requires |attrs| % 2 == 0 && DistinctNames(attrs)
    requires Scanned(attrs, i, xmlId, ca, ta) && i < |attrs|
    ensures Scanned(attrs, i + 2, xmlId', ca', ta')
    ensures xmlId'.Some? && ca'.Some? && ta'.Some? && !(xmlId.Some? && ca.Some? && ta.Some?)
            ==> i == Max3(AttrIndexFrom(attrs, "xml:id", 0), AttrIndexFrom(attrs, "c", 0),
                          AttrIndexFrom(attrs, "t", 0))
  {
    SeenNext(attrs, "xml:id", i);
    SeenNext(attrs, "c", i);
    SeenNext(attrs, "t", i);
    xmlId', ca', ta' := xmlId, ca, ta;
    if attrs[i] == "xml:id" {
      xmlId' := Some(attrs[i + 1]);
    } else if attrs[i] == "c" {
      ca' := Some(attrs[i + 1]);
    } else if attrs[i] == "t" {
      ta' := Some(attrs[i + 1]);
    }
  }

  /** The attribute loop of `cb_start`: it stops once `xml:id`, `c` and
      `t` have all been found; `scanned` is where it stops. */
  method ScanAttrs(attrs: seq<seq<char>>)
    returns (xmlId: Option<seq<char>>, ca: Option<seq<char>>, ta: Option<seq<char>>, scanned: nat)
    requires |attrs| % 2 == 0 && DistinctNames(attrs)
    ensures xmlId == AttrValue(attrs, "xml:id")
    ensures ca == AttrValue(attrs, "c")
    ensures ta == AttrValue(attrs, "t")
    ensures scanned == if xmlId.Some? && ca.Some? && ta.Some?
                       then Max3(AttrIndexFrom(attrs, "xml:id", 0), AttrIndexFrom(attrs, "c", 0),
                                 AttrIndexFrom(attrs, "t", 0)) + 2
                       else |attrs|
  {
    ghost var m := Max3(AttrIndexFrom(attrs, "xml:id", 0), AttrIndexFrom(attrs, "c", 0),
                        AttrIndexFrom(attrs, "t", 0));
    xmlId, ca, ta := None, None, None;
    var i := 0;
    while i < |attrs| && (xmlId.None? || ca.None? || ta.None?)
      invariant Scanned(attrs, i, xmlId, ca, ta)
      invariant xmlId.Some? && ca.Some? && ta.Some? ==> i == m + 2
    {
      xmlId, ca, ta := ScanPair(attrs, i, xmlId, ca, ta);
      i := i + 2;
    }
    scanned := i;
  }

  /** `fputs(prefix)`, the escaped value and the closing quote, or nothing
      when the attribute is absent. */
  function AttrOut(prefix: seq<char>, v: Option<seq<char>>): seq<char>
  {
    if v.None? then [] else prefix + Escaped(CPrefix(v.value, -1)) + "\""
  }

  /** The `<c>` elements for an optional `c` value. */
  function CRefsOut(ca: Option<seq<char>>): seq<char>
  {
    if ca.None? then [] else RefsOut(Runs(CPrefix(ca.value, -1)))
  }

  /** What `cb_start` writes between `<w` and the closing `</w>`. */
  function WBody(attrs: seq<seq<char>>): seq<char>
    requires |attrs| % 2 == 0
  {
    AttrOut(" xml:id=\"", AttrValue(attrs, "xml:id")) + AttrOut(" t=\"", AttrValue(attrs, "t"))
    + ">" + CRefsOut(AttrValue(attrs, "c"))
  }

  /** What `cb_start` writes for a start tag. */
  function StartOut(name: seq<char>, attrs: seq<seq<char>>): seq<char>
    requires |attrs| % 2 == 0
  {
    if name != "w" then [] else INDENT_W + "<w" + WBody(attrs) + INDENT_W + "</w>"
  }

  /** The escaped attribute, when present. */
  method PutAttr(prefix: seq<char>, v: Option<seq<char>>) returns (out: seq<char>)
    ensures out == AttrOut(prefix, v)
  {
    out := [];
    if v.Some? {
      var x := PutEscapedStr(v.value, -1);
      out := prefix + x + "\"";
    }
  }

  /** `cb_start`. */
  method Start(name: seq<char>, attrs: seq<seq<char>>) returns (out: seq<char>)
    requires |attrs| % 2 == 0 && DistinctNames(attrs)
    ensures out == StartOut(name, attrs)
  {
    if name != "w" {
      return [];
    }
    var xmlId, ca, ta, _ := ScanAttrs(attrs);
    var a1 := PutAttr(" xml:id=\"", xmlId);
    var a2 := PutAttr(" t=\"", ta);
    var refs := [];
    if ca.Some? {
      refs := CRefs(ca.value);
    }
    out := INDENT_W + "<w" + (a1 + a2 + ">" + refs) + INDENT_W + "</w>";
  }

  /** `cb_end`: writes nothing. */
  method End(name: seq<char>) returns (out: seq<char>)
    ensures out == []
  {
    out := [];
  }

  /** The output of one event. */
  function EventOut(e: Event): seq<char>
    requires WellFormed(e)
  {
    match e
    case StartTag(name, attrs) => StartOut(name, attrs)
    case EndTag(_) => []
  }

  /** The handler for one event. */
  method Handle(e: Event) returns (out: seq<char>)
    requires WellFormed(e)
    ensures out == EventOut(e)
  {
    match e
    case StartTag(name, attrs) => out := Start(name, attrs);
    case EndTag(name) => out := End(name);
  }

  /** The output of a run of events. */
  function RunOut(events: seq<Event>): seq<char>
    requires forall e <- events :: WellFormed(e)
  {
    if events == [] then [] else RunOut(events[..|events| - 1]) + EventOut(events[|events| - 1])
  }

  /** The parse: each event goes to its handler, in document order. */
  method Convert(events: seq<Event>) returns (out: seq<char>)
    requires forall e <- events :: WellFormed(e)
    ensures out == RunOut(events)
  {
    out := [];
    var i := 0;
    while i < |events|
      invariant i <= |events|
      invariant out == RunOut(events[..i])
    {
      assert events[..i + 1][..i] == events[..i];
      var o := Handle(events[i]);
      out := out + o;
      i := i + 1;
    }
    assert events[..i] == events;
  }

  // ---------------------------------------------------------------------
  // Properties of the output
  // ---------------------------------------------------------------------

  /** The number of `c` bytes in `s`. */
  function Occurrences(c: char, s: seq<char>): nat
  {
    if s == [] then 0 else (if s[0] == c then 1 else 0) + Occurrences(c, s[1..])
  }

  lemma {:induction false} OccurrencesAppend(c: char, a: seq<char>, b: seq<char>)
    ensures Occurrences(c, a + b) == Occurrences(c, a) + Occurrences(c, b)
  {
    if a != [] {
      assert (a + b)[0] == a[0];
      assert (a + b)[1..] == a[1..] + b;
      OccurrencesAppend(c, a[1..], b);
    } else {
      assert a + b == b;
    }
  }

  lemma {:induction false} OccurrencesNone(c: char, s: seq<char>)
    requires forall k :: 0 <= k < |s| ==> s[k] != c
    ensures Occurrences(c, s) == 0
  {
    if s != [] {
      OccurrencesNone(c, s[1..]);
    }
  }

  /** An escaped value holds no `<`. */
  lemma EscapedTags(s: seq<char>)
    ensures Occurrences('<', Escaped(s)) == 0
  {
    EscapedNoMarkup(s);
    OccurrencesNone('<', Escaped(s));
  }

  /** The fixed strings `cb_start` writes around tags hold no `<`. */
  lemma PlainLiterals()
    ensures Occurrences('<', INDENT_W) == 0 && Occurrences('<', INDENT_C) == 0
    ensures Occurrences('<', "\"/>") == 0 && Occurrences('<', ">") == 0
  {
    OccurrencesNone('<', INDENT_W);
    OccurrencesNone('<', INDENT_C);
    OccurrencesNone('<', "\"/>");
    OccurrencesNone('<', ">");
  }

  /** A tag-opening string holds one `<`, at its start. */
  lemma {:induction false} OneTag(s: seq<char>)
    requires |s| > 0 && s[0] == '<'
    requires forall k :: 1 <= k < |s| ==> s[k] != '<'
    ensures Occurrences('<', s) == 1
  {
    OccurrencesNone('<', s[1..]);
  }

  /** The tags among the fixed strings `cb_start` writes. */
  lemma LiteralTags()
    ensures Occurrences('<', INDENT_W) == 0 && Occurrences('<', INDENT_C) == 0
    ensures Occurrences('<', "<w") == 1 && Occurrences('<', "</w>") == 1
    ensures Occurrences('<', "<c ref=\"#") == 1 && Occurrences('<', "\"/>") == 0
    ensures Occurrences('<', ">") == 0
  {
    PlainLiterals();
    OneTag("<w");
    OneTag("</w>");
    OneTag("<c ref=\"#");
  }

  /** One reference is one tag. */
  lemma RefOutTags(r: seq<char>)
    ensures Occurrences('<', RefOut(r)) == 1
  {
    EscapedTags(r);
    LiteralTags();
    OccurrencesAppend('<', INDENT_C, "<c ref=\"#");
    OccurrencesAppend('<', INDENT_C + "<c ref=\"#", Escaped(r));
    OccurrencesAppend('<', INDENT_C + "<c ref=\"#" + Escaped(r), "\"/>");
  }

  /** Each id adds exactly one tag. */
  lemma {:induction false} RefsOutTags(rs: seq<seq<char>>)
    ensures Occurrences('<', RefsOut(rs)) == |rs|
  {
    if rs != [] {
      RefOutTags(rs[0]);
      OccurrencesAppend('<', RefOut(rs[0]), RefsOut(rs[1..]));
      RefsOutTags(rs[1..]);
    }
  }

  lemma AttrOutTags(prefix: seq<char>, v: Option<seq<char>>)
    requires forall k :: 0 <= k < |prefix| ==> prefix[k] != '<'
    ensures Occurrences('<', AttrOut(prefix, v)) == 0
  {
    if v.Some? {
      var x := Escaped(CPrefix(v.value, -1));
      EscapedTags(CPrefix(v.value, -1));
      OccurrencesNone('<', prefix);
      OccurrencesAppend('<', prefix, x);
      OccurrencesAppend('<', prefix + x, "\"");
    }
  }

  /** The ids of `@c`, or none without it. */
  function Ids(attrs: seq<seq<char>>): seq<seq<char>>
    requires |attrs| % 2 == 0
  {
    var ca := AttrValue(attrs, "c");
    if ca.None? then [] else Runs(CPrefix(ca.value, -1))
  }

  /** Between `<w` and `</w>` the only tags are one `<c>` per id of `@c`,
      and every id is non-empty and free of white space. */
  lemma WBodyShape(attrs: seq<seq<char>>)
    requires |attrs| % 2 == 0
    ensures Occurrences('<', WBody(attrs)) == |Ids(attrs)|
    ensures forall r <- Ids(attrs) :: IsId(r)
  {
    var ca := AttrValue(attrs, "c");
    var a1 := AttrOut(" xml:id=\"", AttrValue(attrs, "xml:id"));
    var a2 := AttrOut(" t=\"", AttrValue(attrs, "t"));
    AttrOutTags(" xml:id=\"", AttrValue(attrs, "xml:id"));
    AttrOutTags(" t=\"", AttrValue(attrs, "t"));
    if ca.Some? {
      RefsOutTags(Runs(CPrefix(ca.value, -1)));
      RunsAreIds(CPrefix(ca.value, -1), 0);
    } else {
      assert CRefsOut(ca) == [];
    }
    LiteralTags();
    OccurrencesAppend('<', a1, a2);
    OccurrencesAppend('<', a1 + a2, ">");
    OccurrencesAppend('<', a1 + a2 + ">", CRefsOut(ca));
  }

  /** Only `<w>` writes anything; a `<w>` is written as one element whose
      tags are its own opening and closing tag and one `<c>` per id. */
  lemma StartOutShape(name: seq<char>, attrs: seq<seq<char>>)
    requires |attrs| % 2 == 0
    ensures name != "w" ==> StartOut(name, attrs) == []
    ensures name == "w" ==> Occurrences('<', StartOut(name, attrs)) == 2 + |Ids(attrs)|
  {
    if name == "w" {
      var body := WBody(attrs);
      WBodyShape(attrs);
      LiteralTags();
      OccurrencesAppend('<', INDENT_W, "<w");
      OccurrencesAppend('<', INDENT_W + "<w", body);
      OccurrencesAppend('<', INDENT_W + "<w" + body, INDENT_W);
      OccurrencesAppend('<', INDENT_W + "<w" + body + INDENT_W, "</w>");
    }
  }

  /** Without a `<w>` start tag the output is empty. */
  lemma {:induction false} RunOutNoWords(events: seq<Event>)
    requires forall e <- events :: WellFormed(e)
    requires forall e <- events :: !(e.StartTag? && e.name == "w")
    ensures RunOut(events) == []
  {
    if events != [] {
      RunOutNoWords(events[..|events| - 1]);
      var e := events[|events| - 1];
      assert e in events;
      if e.StartTag? {
        StartOutShape(e.name, e.attrs);
      }
      assert EventOut(e) == [];
    }
  }
}
