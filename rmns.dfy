/** src/xml-rm-namespaces.c: copies an XML document, turning every
    namespace prefix into a plain name by writing `_` for each `:` in
    element and attribute names, and `_xmlns` for an `xmlns` attribute. */
module RmNamespaces {
  import opened CStr
  import opened FlatMaps
  import opened XmlEscape

  /** `colon_out` and `xmlns_out`. */
  const COLON_OUT: char := '_'
  const XMLNS_OUT: seq<char> := "_xmlns"

  /** The events the handlers see. Each start and end tag carries the
      original bytes of the tag in the input (`get_event_context`); a
      default event carries the bytes expat hands over. */
  datatype Event =
    | StartTag(name: seq<char>, attrs: seq<seq<char>>, ctx: seq<char>)
    | EndTag(name: seq<char>, ctx: seq<char>)
    | Default(s: seq<char>)

  /** What the handlers need of an event: a flat attribute list, and a
      start tag of at least two bytes, so that `cbuf[clen-2]` is inside
      it. */
  predicate WellFormed(e: Event)
  {
    e.StartTag? ==> |e.attrs| % 2 == 0 && |e.ctx| >= 2
  }

  // ---------------------------------------------------------------------
  // put_hacked_string
  // ---------------------------------------------------------------------

  /** A name byte with `:` replaced. */
  function Rename(c: char): char
  {
    if c == ':' then COLON_OUT else c
  }

  /** `s` with every `:` replaced. */
  function Renamed(s: seq<char>): (r: seq<char>)
    ensures |r| == |s|
    ensures forall k :: 0 <= k < |s| ==> r[k] == Rename(s[k])
  {
    if s == [] then [] else Renamed(s[..|s| - 1]) + [Rename(s[|s| - 1])]
  }

  /** The bytes `put_hacked_string` writes for one byte. */
  function HackChar(c: char, doEscape: bool): seq<char>
  {
    if c == ':' then [COLON_OUT] else if doEscape then EscapeChar(c) else [c]
  }

  /** The bytes `put_hacked_string` writes for `s`, byte by byte. */
  function Hacked(s: seq<char>, doEscape: bool): seq<char>
  {
    if s == [] then [] else Hacked(s[..|s| - 1], doEscape) + HackChar(s[|s| - 1], doEscape)
  }

  /** `put_hacked_string(str, len, doEscape)`: stops at the first NUL, or
      after `len` bytes when `len >= 0`. */
  method PutHackedString(str: seq<char>, len: int, doEscape: bool) returns (written: seq<char>)
    ensures written == Hacked(CPrefix(str, len), doEscape)
  {
    written := [];
    var i := 0;
    ghost var n := CEnd(str, len);
    while i < |str| && str[i] != NUL && (len < 0 || i < len)
      invariant 0 <= i <= n
      invariant written == Hacked(str[..i], doEscape)
    {
      assert str[..i + 1][..i] == str[..i];
      if str[i] == ':' {
        written := written + [COLON_OUT];
      } else if doEscape {
        written := written + EscapeChar(str[i]);
      } else {
        written := written + [str[i]];
      }
      i := i + 1;
    }
    assert i == n;
  }

  /** Rewriting is renaming, followed by escaping when asked for. */
  lemma {:induction false} HackedRenamed(s: seq<char>, doEscape: bool)
    ensures Hacked(s, doEscape) == if doEscape then Escaped(Renamed(s)) else Renamed(s)
  {
    if s != [] {
      var s' := s[..|s| - 1];
      var c := s[|s| - 1];
      HackedRenamed(s', doEscape);
      FlatMapSnoc(EscapeChar, Renamed(s'), Rename(c));
      assert Renamed(s) == Renamed(s') + [Rename(c)];
      if c != ':' {
        assert Rename(c) == c;
      }
    }
  }

  /** Holds no `:`. */
  predicate NoColon(s: seq<char>)
  {
    forall k :: 0 <= k < |s| ==> s[k] != ':'
  }

  /** Escaping adds no `:`. */
  lemma {:induction false} EscapedNoColon(s: seq<char>)
    requires NoColon(s)
    ensures NoColon(Escaped(s))
  {
    if s != [] {
      var s' := s[..|s| - 1];
      EscapedNoColon(s');
      FlatMapSnoc(EscapeChar, s', s[|s| - 1]);
      assert s == s' + [s[|s| - 1]];
      var e := EscapeChar(s[|s| - 1]);
      assert NoColon(e);
    }
  }

  /** Without escaping, `put_hacked_string` writes one byte per input byte,
      the same one except that `:` becomes `_`. With escaping, the output
      holds no raw markup, and decoding its entities gives the renamed
      input back. Either way no `:` is left. */
  lemma HackedShape(s: seq<char>)
    ensures |Hacked(s, false)| == |s|
    ensures forall k :: 0 <= k < |s| ==> Hacked(s, false)[k] == Rename(s[k])
    ensures NoColon(Hacked(s, false)) && NoColon(Hacked(s, true))
    ensures NoMarkup(Hacked(s, true))
    ensures Unescape(Hacked(s, true)) == Renamed(s)
  {
    HackedRenamed(s, false);
    HackedRenamed(s, true);
    EscapedNoColon(Renamed(s));
    EscapedNoMarkup(Renamed(s));
    UnescapeEscaped(Renamed(s));
  }

  // ---------------------------------------------------------------------
  // The handlers
  // ---------------------------------------------------------------------

  /** The name written for an attribute. */
  function NameOut(aname: seq<char>): seq<char>
  {
    if aname == "xmlns" then XMLNS_OUT else Hacked(CPrefix(aname, -1), true)
  }

  /** ` name="value"` for one attribute: the value is escaped, its `:`s
      are kept. */
  function AttrOut(aname: seq<char>, value: seq<char>): seq<char>
  {
    " " + NameOut(aname) + "=\"" + Escaped(CPrefix(value, -1)) + "\""
  }

  /** The attributes, in order. */
  function AttrsOut(attrs: seq<seq<char>>): seq<char>
    requires |attrs| % 2 == 0
  {
    if attrs == [] then []
    else AttrsOut(attrs[..|attrs| - 2]) + AttrOut(attrs[|attrs| - 2], attrs[|attrs| - 1])
  }

  /** What `cb_start` writes: the tag closes with `/>` exactly when the
      original tag did. */
  function StartOut(name: seq<char>, attrs: seq<seq<char>>, ctx: seq<char>): seq<char>
    requires |attrs| % 2 == 0 && |ctx| >= 2
  {
    "<" + Hacked(CPrefix(name, -1), true) + AttrsOut(attrs)
    + (if ctx[|ctx| - 2] == '/' then "/>" else ">")
  }

  /** One attribute, as the loop of `cb_start` writes it. */
  method PutAttr(aname: seq<char>, value: seq<char>) returns (out: seq<char>)
    ensures out == AttrOut(aname, value)
  {
    var n;
    if aname == "xmlns" {
      n := XMLNS_OUT;
    } else {
      n := PutHackedString(aname, -1, true);
    }
    var v := PutEscapedStr(value, -1);
    out := " " + n + "=\"" + v + "\"";
  }

  /** Writing the pair at `i` extends the attributes written so far. */
  lemma AttrsOutSnoc(attrs: seq<seq<char>>, i: nat)
    requires |attrs| % 2 == 0 && i % 2 == 0 && i + 2 <= |attrs|
    ensures AttrsOut(attrs[..i + 2]) == AttrsOut(attrs[..i]) + AttrOut(attrs[i], attrs[i + 1])
  {
    var p := attrs[..i + 2];
    assert p[..|p| - 2] == attrs[..i];
    assert p[|p| - 2] == attrs[i] && p[|p| - 1] == attrs[i + 1];
  }

  /** Names sit at even positions, so a name is always followed by its
      value. */
  lemma EvenStep(i: nat, n: nat)
    requires i % 2 == 0 && n % 2 == 0 && i < n
    ensures i + 2 <= n && (i + 2) % 2 == 0
  {
  }

  /** The loop of `cb_start` over the attributes. */
  method PutAttrs(attrs: seq<seq<char>>) returns (out: seq<char>)
    requires |attrs| % 2 == 0
    ensures out == AttrsOut(attrs)
  {
    out := [];
    var i := 0;
    while i < |attrs|
      invariant i <= |attrs| && i % 2 == 0
      invariant out == AttrsOut(attrs[..i])
    {
      EvenStep(i, |attrs|);
      AttrsOutSnoc(attrs, i);
      var a := PutAttr(attrs[i], attrs[i + 1]);
      out := out + a;
      i := i + 2;
    }
    assert attrs[..i] == attrs;
  }

  /** `cb_start`. */
  method Start(name: seq<char>, attrs: seq<seq<char>>, ctx: seq<char>) returns (out: seq<char>)
    requires |attrs| % 2 == 0 && |ctx| >= 2
    ensures out == StartOut(name, attrs, ctx)
  {
    var n := PutHackedString(name, -1, true);
    var attrsOut := PutAttrs(attrs);
    var close;
    if ctx[|ctx| - 2] == '/' {
      close := "/>";
    } else {
      close := ">";
    }
    out := "<" + n + attrsOut + close;
  }

  /** What `cb_end` writes: the original end tag, renamed, unescaped. */
  function EndOut(ctx: seq<char>): seq<char>
  {
    Hacked(CPrefix(ctx, |ctx|), false)
  }

  /** `cb_end`. */
  method End(name: seq<char>, ctx: seq<char>) returns (out: seq<char>)
    ensures out == EndOut(ctx)
  {
    out := PutHackedString(ctx, |ctx|, false);
  }

  /** `cb_default`: `fwrite` of the bytes as they are. */
  method DefaultCopy(s: seq<char>) returns (out: seq<char>)
    ensures out == s
  {
    out := [];
    var i := 0;
    while i < |s|
      invariant i <= |s| && out == s[..i]
    {
      out := out + [s[i]];
      i := i + 1;
    }
  }

  /** The output of one event. */
  function EventOut(e: Event): seq<char>
    requires WellFormed(e)
  {
    match e
    case StartTag(name, attrs, ctx) => StartOut(name, attrs, ctx)
    case EndTag(_, ctx) => EndOut(ctx)
    case Default(s) => s
  }

  /** The handler for one event. */
  method Handle(e: Event) returns (out: seq<char>)
    requires WellFormed(e)
    ensures out == EventOut(e)
  {
    match e
    case StartTag(name, attrs, ctx) => out := Start(name, attrs, ctx);
    case EndTag(name, ctx) => out := End(name, ctx);
    case Default(s) => out := DefaultCopy(s);
  }

  /** The output of a run of events. */
  function RunOut(events: seq<Event>): seq<char>
    requires forall e <- events :: WellFormed(e)
  {
    if events == [] then [] else RunOut(events[..|events| - 1]) + EventOut(events[|events| - 1])
  }

  /** The parse: each event goes to its handler, in document order. */
  method Convert(events: seq<Event>) returns (out: seq<char>)
    requires forall e <- events :: WellFormed(e)
    ensures out == RunOut(events)
  {
    out := [];
    var i := 0;
    while i < |events|
      invariant i <= |events|
      invariant out == RunOut(events[..i])
    {
      assert events[..i + 1][..i] == events[..i];
      var o := Handle(events[i]);
      out := out + o;
      i := i + 1;
    }
    assert events[..i] == events;
  }

  // ---------------------------------------------------------------------
  // Properties of the output
  // ---------------------------------------------------------------------

  /** An attribute name is written without `:` and without raw markup;
      `xmlns` becomes `_xmlns`, any other name its renamed escape. */
  lemma NameOutShape(aname: seq<char>)
    ensures NoColon(NameOut(aname)) && NoMarkup(NameOut(aname))
    ensures aname == "xmlns" ==> NameOut(aname) == "_xmlns"
    ensures aname != "xmlns" ==> Unescape(NameOut(aname)) == Renamed(CPrefix(aname, -1))
  {
    if aname != "xmlns" {
      HackedShape(CPrefix(aname, -1));
    }
  }

  /** An end tag is copied byte for byte up to its length (or a NUL),
      with `:` replaced and nothing escaped. */
  lemma EndOutShape(ctx: seq<char>)
    requires forall k :: 0 <= k < |ctx| ==> ctx[k] != NUL
    ensures |EndOut(ctx)| == |ctx|
    ensures forall k :: 0 <= k < |ctx| ==> EndOut(ctx)[k] == Rename(ctx[k])
    ensures NoColon(EndOut(ctx))
  {
    CPrefixWhole(ctx, |ctx|);
    HackedShape(ctx);
  }

  /** A start tag opens with `<` and the renamed element name, ends with
      `>`, and is one byte longer, closing with `/>`, exactly when the
      original tag did. */
  lemma StartOutShape(name: seq<char>, attrs: seq<seq<char>>, ctx: seq<char>)
    requires |attrs| % 2 == 0 && |ctx| >= 2
    ensures var out := StartOut(name, attrs, ctx);
            var n := Hacked(CPrefix(name, -1), true);
            && out[0] == '<' && out[1..1 + |n|] == n && NoColon(n) && NoMarkup(n)
            && out[|out| - 1] == '>'
            && (ctx[|ctx| - 2] == '/' <==> |out| == 1 + |n| + |AttrsOut(attrs)| + 2)
  {
    var n := Hacked(CPrefix(name, -1), true);
    HackedShape(CPrefix(name, -1));
    var head := "<" + n + AttrsOut(attrs);
    assert head[0] == '<' && head[1..1 + |n|] == n;
  }
}
