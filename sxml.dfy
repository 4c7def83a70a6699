/** src/dtatw-txml2sxml.c: extracts the sentence structure of a tokenized
    XML file: one `<s>` per sentence holding one `<w ref="#id"/>` per
    token, with a count of open sentences and of tokens inside them. */
module Sxml {
  import opened Wrappers
  import opened CStr
  import opened IndexRecords

  /** Indentation written before sentences and before tokens. */
  const INDENT_S: seq<char> := "\n  "
  const INDENT_W: seq<char> := "\n    "

  /** The events the handlers see. */
  datatype Event = StartTag(name: seq<char>, attrs: seq<seq<char>>) | EndTag(name: seq<char>)

  predicate WellFormed(e: Event)
  {
    e.StartTag? ==> |e.attrs| % 2 == 0
  }

  /** `s_depth` and `w_depth`. */
  datatype Depths = Depths(sDepth: int, wDepth: int)

  /** The `xml:id` as `printf("%s", xml_id ? xml_id : "")` writes it. */
  function IdOut(attrs: seq<seq<char>>): seq<char>
    requires |attrs| % 2 == 0
  {
    var v := AttrValue(attrs, "xml:id");
    if v.None? then [] else CPrefix(v.value, -1)
  }

  /** The new depths after one event. */
  function Next(d: Depths, e: Event): Depths
  {
    match e
    case StartTag(name, _) =>
      if name == "s" then d.(sDepth := d.sDepth + 1)
      else if d.sDepth > 0 && name == "w" then d.(wDepth := d.wDepth + 1)
      else d
    case EndTag(name) =>
      if d.sDepth > 0 && name == "s" then d.(sDepth := d.sDepth - 1)
      else if d.wDepth > 0 && name == "w" then d.(wDepth := d.wDepth - 1)
      else d
  }

  /** What the handler writes for one event. */
  function Written(d: Depths, e: Event): seq<char>
    requires WellFormed(e)
  {
    match e
    case StartTag(name, attrs) =>
      if name == "s" then INDENT_S + "<s xml:id=\"" + IdOut(attrs) + "\">"
      else if d.sDepth > 0 && name == "w" then INDENT_W + "<w ref=\"#" + IdOut(attrs) + "\"/>"
      else []
    case EndTag(name) =>
      if d.sDepth > 0 && name == "s" then INDENT_S + "</s>" else []
  }

  /** The depths after a run of events, from zero. */
  function Replay(events: seq<Event>): Depths
  {
    if events == [] then Depths(0, 0) else Next(Replay(events[..|events| - 1]), events[|events| - 1])
  }

  /** Everything written for a run of events. */
  function Output(events: seq<Event>): seq<char>
    requires forall e <- events :: WellFormed(e)
  {
    if events == [] then []
    else
      var pre := events[..|events| - 1];
      Output(pre) + Written(Replay(pre), events[|events| - 1])
  }

  /** The number of `<s>` written: one per `<s>` start tag. */
  function Opened(events: seq<Event>): nat
  {
    if events == [] then 0
    else
      var e := events[|events| - 1];
      Opened(events[..|events| - 1]) + (if e.StartTag? && e.name == "s" then 1 else 0)
  }

  /** The number of `</s>` written: one per `</s>` met while a sentence is
      open. */
  function Closed(events: seq<Event>): nat
  {
    if events == [] then 0
    else
      var pre := events[..|events| - 1];
      Closed(pre) + (if events[|events| - 1] == EndTag("s") && Replay(pre).sDepth > 0 then 1 else 0)
  }

  /** Both counters stay at or above zero, the sentence counter is the
      number of sentences written and not yet closed, and so no more
      `</s>` than `<s>` is ever written. */
  lemma {:induction false} ReplayCounts(events: seq<Event>)
    ensures Replay(events).sDepth >= 0 && Replay(events).wDepth >= 0
    ensures Replay(events).sDepth == Opened(events) - Closed(events)
    ensures Closed(events) <= Opened(events)
  {
    if events != [] {
      ReplayCounts(events[..|events| - 1]);
    }
  }

  /** The handler state (`ParseData` without the parser and the file),
      with the output written so far. */
  class SxmlData {
    var sDepth: int
    var wDepth: int
    var out: seq<char>

    function Snap(): Depths
      reads this
    {
      Depths(sDepth, wDepth)
    }

    constructor()
      ensures Snap() == Depths(0, 0) && out == []
    {
      sDepth, wDepth, out := 0, 0, [];
    }

    /** `cb_start`. */
    method Start(name: seq<char>, attrs: seq<seq<char>>)
      requires |attrs| % 2 == 0
      modifies this
      ensures Snap() == Next(old(Snap()), StartTag(name, attrs))
      ensures out == old(out) + Written(old(Snap()), StartTag(name, attrs))
    {
      if name == "s" {
        var xmlId := GetAttr(attrs, "xml:id");
        var id := if xmlId.Some? then CPrefix(xmlId.value, -1) else [];
        out := out + (INDENT_S + "<s xml:id=\"" + id + "\">");
        sDepth := sDepth + 1;
      } else if sDepth > 0 && name == "w" {
        var xmlId := GetAttr(attrs, "xml:id");
        var id := if xmlId.Some? then CPrefix(xmlId.value, -1) else [];
        out := out + (INDENT_W + "<w ref=\"#" + id + "\"/>");
        wDepth := wDepth + 1;
      }
    }

    /** `cb_end`. */
    method End(name: seq<char>)
      modifies this
      ensures Snap() == Next(old(Snap()), EndTag(name))
      ensures out == old(out) + Written(old(Snap()), EndTag(name))
    {
      if sDepth > 0 && name == "s" {
        out := out + (INDENT_S + "</s>");
        sDepth := sDepth - 1;
      } else if wDepth > 0 && name == "w" {
        wDepth := wDepth - 1;
      }
    }

    /** The handler for one event. */
    method Handle(e: Event)
      requires WellFormed(e)
      modifies this
      ensures Snap() == Next(old(Snap()), e)
      ensures out == old(out) + Written(old(Snap()), e)
    {
      match e {
        case StartTag(name, attrs) => Start(name, attrs);
        case EndTag(name) => End(name);
      }
    }
  }

  /** The parse: fresh handler state, then each event to its handler. */
  method Convert(events: seq<Event>) returns (out: seq<char>, final: Depths)
    requires forall e <- events :: WellFormed(e)
    ensures out == Output(events) && final == Replay(events)
  {
    var data := new SxmlData();
    var i := 0;
    while i < |events|
      invariant i <= |events|
      invariant data.Snap() == Replay(events[..i]) && data.out == Output(events[..i])
    {
      assert events[..i + 1][..i] == events[..i];
      assert events[i] in events;
      data.Handle(events[i]);
      i := i + 1;
    }
    assert events[..i] == events;
    out, final := data.out, data.Snap();
  }
}
