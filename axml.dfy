/** src/dtatw-txml2axml.c: writes one `<a xml:id="..."/>` for each `<a>`
    inside a `<w>`, carrying the id of that `<w>`; `<w>` and `<a>` may not
    nest, and the id is kept in a fixed buffer of 1024 bytes. */
module Axml {
  import opened Wrappers
  import opened CStr
  import opened IndexRecords

  /** `XMLID_BUFLEN`: the size of the `w_id` buffer. */
  const XMLID_BUFLEN: nat := 1024
  /** Indentation written before each `<a>`. */
  const INDENT_A: seq<char> := "\n  "

  /** The events the handlers see. */
  datatype Event = StartTag(name: seq<char>, attrs: seq<seq<char>>) | EndTag(name: seq<char>)

  predicate WellFormed(e: Event)
  {
    e.StartTag? ==> |e.attrs| % 2 == 0
  }

  /** The id held in `w_id` (as a C string), `w_depth` and `a_depth`. */
  datatype AxmlState = AxmlState(wId: seq<char>, wDepth: int, aDepth: int)

  /** What one event does: whether the program goes on, the new state and
      the bytes written. A failed `assert` ends the program with status
      255; a null pointer handed to `strlen` ends the model with `Fault`. */
  datatype Step = Step(status: Status, st: AxmlState, written: seq<char>)

  /** The `<a>` element written for the id of the enclosing `<w>`. */
  function AOut(wId: seq<char>): seq<char>
  {
    INDENT_A + "<a xml:id=\"" + wId + "\"/>"
  }

  /** `cb_start` and `cb_end` on the state `s`. A `<w>` without `xml:id`
      hands `strlen` a null pointer, which is undefined behaviour: the
      model stops there with `Fault`. */
  function Next(s: AxmlState, e: Event): Step
    requires WellFormed(e)
  {
    match e
    case StartTag(name, attrs) =>
      if name == "w" then
        var v := AttrValue(attrs, "xml:id");
        if s.wDepth != 0 then Step(Exit(255), s, [])
        else if v.None? then Step(Fault, s, [])
        else if |CPrefix(v.value, -1)| >= XMLID_BUFLEN then Step(Exit(255), s, [])
        else Step(Continue, s.(wId := CPrefix(v.value, -1), wDepth := s.wDepth + 1), [])
      else if s.wDepth > 0 && name == "a" then
        if s.aDepth != 0 then Step(Exit(255), s, [])
        else Step(Continue, s.(aDepth := s.aDepth + 1), AOut(s.wId))
      else Step(Continue, s, [])
    case EndTag(name) =>
      if s.wDepth > 0 && name == "w" then Step(Continue, s.(wId := [], wDepth := s.wDepth - 1), [])
      else if s.aDepth > 0 && name == "a" then Step(Continue, s.(aDepth := s.aDepth - 1), [])
      else Step(Continue, s, [])
  }

  /** The states the handlers keep: each depth is 0 or 1, the id fits
      its buffer with room for the terminator, and no id is held outside
      a `<w>`. */
  predicate Bounded(s: AxmlState)
  {
    0 <= s.wDepth <= 1 && 0 <= s.aDepth <= 1 && |s.wId| < XMLID_BUFLEN
    && (s.wDepth == 0 ==> s.wId == [])
  }

  /** Every event keeps the bounds; a `<w>` inside a `<w>`, an `<a>`
      inside an `<a>` or an id of 1024 bytes or more stops the program
      with 255 instead, and a `<w>` without id stops the model. */
  lemma NextBounded(s: AxmlState, e: Event)
    requires WellFormed(e) && Bounded(s)
    ensures Bounded(Next(s, e).st)
    ensures Next(s, e).status == Exit(255) <==>
              (e.StartTag? && e.name == "w"
               && (s.wDepth != 0
                   || (AttrValue(e.attrs, "xml:id").Some?
                       && |CPrefix(AttrValue(e.attrs, "xml:id").value, -1)| >= XMLID_BUFLEN)))
              || (e.StartTag? && e.name == "a" && s.wDepth > 0 && s.aDepth != 0)
    ensures Next(s, e).status == Fault <==>
              e.StartTag? && e.name == "w" && s.wDepth == 0 && AttrValue(e.attrs, "xml:id").None?
    ensures Next(s, e).status.Continue? || Next(s, e).status == Exit(255) || Next(s, e).status == Fault
  {
  }

  /** A run of events from the zeroed state: the handlers stop at the
      first failed assertion. */
  function Replay(events: seq<Event>): Step
    requires forall e <- events :: WellFormed(e)
  {
    if events == [] then Step(Continue, AxmlState([], 0, 0), [])
    else
      var r := Replay(events[..|events| - 1]);
      if !r.status.Continue? then r
      else
        var n := Next(r.st, events[|events| - 1]);
        Step(n.status, n.st, r.written + n.written)
  }

  /** The state stays bounded along any run. */
  lemma {:induction false} ReplayBounded(events: seq<Event>)
    requires forall e <- events :: WellFormed(e)
    ensures Bounded(Replay(events).st)
  {
    if events != [] {
      var pre := events[..|events| - 1];
      assert forall e <- pre :: e in events;
      ReplayBounded(pre);
      assert events[|events| - 1] in events;
      if Replay(pre).status.Continue? {
        NextBounded(Replay(pre).st, events[|events| - 1]);
      }
    }
  }

  /** `strcpy(buf, s)` followed by reading `buf` as a C string. */
  lemma TerminatedContent(b: seq<char>, s: seq<char>)
    requires |s| < |b| && b[..|s|] == s && b[|s|] == NUL
    requires forall k :: 0 <= k < |s| ==> s[k] != NUL
    ensures CPrefix(b, -1) == s
  {
    assert forall k :: 0 <= k < |s| ==> b[k] == s[k];
    var n := CEnd(b, -1);
    assert n == |s|;
  }

  /** The handler state (`ParseData` without the parser and the file):
      the `w_id` buffer and the two depths, with the output written so
      far. */
  class AxmlData {
    const wIdBuf: array<char>
    var wDepth: int
    var aDepth: int
    var out: seq<char>

    ghost predicate Valid()
      reads this, wIdBuf
    {
      wIdBuf.Length == XMLID_BUFLEN && Bounded(Snap())
    }

    /** The state as the model of the handlers sees it. */
    function Snap(): AxmlState
      reads this, wIdBuf
    {
      AxmlState(CPrefix(wIdBuf[..], -1), wDepth, aDepth)
    }

    /** `memset(&data, 0, sizeof(data))`. */
    constructor()
      ensures Valid() && Snap() == AxmlState([], 0, 0) && out == []
      ensures fresh(wIdBuf)
    {
      wIdBuf := new char[XMLID_BUFLEN](_ => NUL);
      wDepth, aDepth, out := 0, 0, [];
      new;
      assert wIdBuf[..][0] == NUL;
      assert CEnd(wIdBuf[..], -1) == 0;
    }

    /** `strcpy(data->w_id, xml_id)`. */
    method StrCpy(s: seq<char>)
      requires Valid() && |s| < XMLID_BUFLEN
      requires forall k :: 0 <= k < |s| ==> s[k] != NUL
      modifies wIdBuf
      ensures CPrefix(wIdBuf[..], -1) == s
    {
      var i := 0;
      while i < |s|
        invariant i <= |s| && wIdBuf[..i] == s[..i]
      {
        wIdBuf[i] := s[i];
        i := i + 1;
      }
      wIdBuf[i] := NUL;
      assert wIdBuf[..][..|s|] == s;
      TerminatedContent(wIdBuf[..], s);
    }

    /** `cb_start`. */
    method Start(name: seq<char>, attrs: seq<seq<char>>) returns (status: Status)
      requires Valid() && |attrs| % 2 == 0
      modifies this, wIdBuf
      ensures Valid()
      ensures status == Next(old(Snap()), StartTag(name, attrs)).status
      ensures status.Continue? ==> Snap() == Next(old(Snap()), StartTag(name, attrs)).st
      ensures out == old(out) + Next(old(Snap()), StartTag(name, attrs)).written
    {
      status := Continue;
      if name == "w" {
        if wDepth != 0 {
          return Exit(255);
        }
        var xmlId := GetAttr(attrs, "xml:id");
        if xmlId.None? {
          return Fault;
        }
        var id := CPrefix(xmlId.value, -1);
        if |id| >= XMLID_BUFLEN {
          return Exit(255);
        }
        StrCpy(id);
        wDepth := wDepth + 1;
      } else if wDepth > 0 && name == "a" {
        if aDepth != 0 {
          return Exit(255);
        }
        out := out + (INDENT_A + "<a xml:id=\"" + CPrefix(wIdBuf[..], -1) + "\"/>");
        aDepth := aDepth + 1;
      }
    }

    /** `cb_end`: `</w>` empties the id buffer. */
    method End(name: seq<char>)
      requires Valid()
      modifies this, wIdBuf
      ensures Valid()
      ensures Snap() == Next(old(Snap()), EndTag(name)).st
      ensures out == old(out)
    {
      if wDepth > 0 && name == "w" {
        wIdBuf[0] := NUL;
        assert wIdBuf[..][0] == NUL;
        assert CEnd(wIdBuf[..], -1) == 0;
        wDepth := wDepth - 1;
      } else if aDepth > 0 && name == "a" {
        aDepth := aDepth - 1;
      }
    }

    /** The handler for one event. */
    method Handle(e: Event) returns (status: Status)
      requires Valid() && WellFormed(e)
      modifies this, wIdBuf
      ensures Valid()
      ensures status == Next(old(Snap()), e).status
      ensures status.Continue? ==> Snap() == Next(old(Snap()), e).st
      ensures out == old(out) + Next(old(Snap()), e).written
    {
      match e {
        case StartTag(name, attrs) =>
          status := Start(name, attrs);
        case EndTag(name) =>
          End(name);
          status := Continue;
      }
    }
  }

  /** The parse: fresh handler state, then each event to its handler until
      one fails. */
  method Convert(events: seq<Event>) returns (out: seq<char>, status: Status)
    requires forall e <- events :: WellFormed(e)
    ensures out == Replay(events).written && status == Replay(events).status
  {
    var data := new AxmlData();
    var i := 0;
    status := Continue;
    while i < |events| && status.Continue?
      invariant i <= |events| && data.Valid()
      invariant status == Replay(events[..i]).status && data.out == Replay(events[..i]).written
      invariant status.Continue? ==> data.Snap() == Replay(events[..i]).st
      invariant !status.Continue? ==> Replay(events) == Replay(events[..i])
      modifies data, data.wIdBuf
    {
      assert events[..i + 1][..i] == events[..i];
      assert events[i] in events;
      status := data.Handle(events[i]);
      i := i + 1;
      if !status.Continue? {
        ReplayStops(events, i);
      }
    }
    if status.Continue? {
      assert events[..i] == events;
    }
    out := data.out;
  }

  /** Once a run has stopped, later events change nothing. */
  lemma {:induction false} ReplayStops(events: seq<Event>, i: nat)
    requires forall e <- events :: WellFormed(e)
    requires i <= |events| && !Replay(events[..i]).status.Continue?
    ensures Replay(events) == Replay(events[..i])
    decreases |events| - i
  {
    if i < |events| {
      var pre := events[..|events| - 1];
      assert forall e <- pre :: e in events;
      assert pre[..i] == events[..i];
      ReplayStops(pre, i);
    } else {
      assert events[..i] == events;
    }
  }
}
