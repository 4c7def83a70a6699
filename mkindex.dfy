/** src/dtatw-mkindex.c: the expat handlers that write the binary
    character index (`.cx`) and the text stream (`.tx`) of a TEI document.
    Characters are either explicit `<c>` elements or, in free text inside
    `<text>`, the decoded characters of the character data; `<lb>`, `<pb>`
    and `<formula>` give pseudo-character records. */
module Mkindex {
  import opened Wrappers
  import opened CStr
  import opened Decimal
  import opened IndexRecords

  /** Size of the text buffer `c_tbuf` of the current `<c>`. */
  const CTBUFSIZE: nat := 256

  /** `uint32_t` values are taken modulo this. */
  const U32: nat := 0x1_0000_0000

  /** The all-ones `uint32_t` that `memset(…, 0xff, …)` leaves in an
      attribute slot: "no attributes". */
  const NO_ATTR: nat := 0xFFFF_FFFF

  /** `CX_FORMULA_TEXT`, the text a `<formula>` stands for (its default
      value). */
  const FORMULA_TEXT: seq<char> := " FORMULA "

  // ---------------------------------------------------------------------
  // Stored records and their delta encoding

  /** The record types `cxrChar`, `cxrLb`, `cxrPb`, `cxrFormula`. */
  datatype Elt = CxChar | CxLb | CxPb | CxFormula

  /** The four `uint32_t` attribute slots `cx_attrs` of a record (the
      bounding box of a `<c>`, the facsimile number of a `<pb>`). */
  datatype Attrs = Attrs(s0: nat, s1: nat, s2: nat, s3: nat)

  const NoAttrs: Attrs := Attrs(NO_ATTR, NO_ATTR, NO_ATTR, NO_ATTR)
  const ZeroAttrs: Attrs := Attrs(0, 0, 0, 0)

  /** The global `cxr` as `put_record_raw` leaves it: the record type,
      the three flags `cxfHasXmlOffset`, `cxfHasTxtLength`, `cxfHasAttrs`,
      and the fields. A field that its flag does not announce keeps
      whatever an earlier record left there. */
  datatype StoredRecord = StoredRecord(elt: Elt, hasXmlOffset: bool, hasTxtLength: bool, hasAttrs: bool,
                                       xoff: int, xlen: int, tlen: int, attrs: Attrs)

  /** The zero-initialised global before the first record. */
  const ZeroRecord: StoredRecord := StoredRecord(CxChar, false, false, false, 0, 0, 0, ZeroAttrs)

  /** The arguments of one `put_record_raw` call; `attrs` is `None` for a
      NULL pointer. */
  datatype RawPut = RawPut(elt: Elt, xoff: int, xlen: int, tlen: int, attrs: Option<Attrs>)

  /** Attributes are stored iff the pointer is not NULL and its first slot
      is not all ones. */
  predicate StoresAttrs(a: Option<Attrs>)
  {
    a.Some? && a.value.s0 != NO_ATTR
  }

  /** `put_record_raw` on the global record `prev`: the XML offset is
      flagged when it does not continue the previous record, the text
      length when it differs from the XML length. */
  function Store(prev: StoredRecord, p: RawPut): StoredRecord
  {
    StoredRecord(p.elt,
                 p.xoff != prev.xoff + prev.xlen,
                 p.tlen != p.xlen,
                 StoresAttrs(p.attrs),
                 p.xoff, p.xlen,
                 if p.tlen != p.xlen then p.tlen else prev.tlen,
                 if StoresAttrs(p.attrs) then p.attrs.value else prev.attrs)
  }

  /** What a reader that knows where the previous record's XML range
      ended gets back from a record: an unflagged offset continues the
      previous range, an unflagged text length equals the XML length,
      unflagged attributes are absent. */
  function Restore(prevEnd: int, r: StoredRecord): (p: RawPut)
    ensures p.xoff + p.xlen == (if r.hasXmlOffset then r.xoff else prevEnd) + r.xlen
  {
    RawPut(r.elt,
           if r.hasXmlOffset then r.xoff else prevEnd,
           r.xlen,
           if r.hasTxtLength then r.tlen else r.xlen,
           if r.hasAttrs then Some(r.attrs) else None)
  }

  /** A call's arguments as far as they are observable: all-ones
      attributes are no attributes. */
  function Observable(p: RawPut): RawPut
  {
    p.(attrs := if StoresAttrs(p.attrs) then p.attrs else None)
  }

  /** The flags of a stored record say exactly what the encoding
      promises; in particular the first record (after the zeroed global)
      is flagged iff it does not start at XML byte 0. */
  lemma StoreFlags(prev: StoredRecord, p: RawPut)
    ensures Store(prev, p).hasXmlOffset <==> p.xoff != prev.xoff + prev.xlen
    ensures Store(prev, p).hasTxtLength <==> p.tlen != p.xlen
    ensures Store(prev, p).hasAttrs <==> p.attrs.Some? && p.attrs.value.s0 != NO_ATTR
    ensures Store(ZeroRecord, p).hasXmlOffset <==> p.xoff != 0
  {
  }

  /** One record reads back as the call that wrote it. */
  lemma StoreRestore(prev: StoredRecord, p: RawPut)
    ensures Restore(prev.xoff + prev.xlen, Store(prev, p)) == Observable(p)
  {
  }

  /** The records written by a run of calls, starting from `prev`. */
  function StoreAll(prev: StoredRecord, ps: seq<RawPut>): (rs: seq<StoredRecord>)
    ensures |rs| == |ps|
  {
    if ps == [] then []
    else StoreAll(prev, ps[..|ps| - 1]) + [Store(LastStored(prev, ps[..|ps| - 1]), ps[|ps| - 1])]
  }

  /** The global record after a run of calls. */
  function LastStored(prev: StoredRecord, ps: seq<RawPut>): StoredRecord
  {
    if ps == [] then prev else Store(LastStored(prev, ps[..|ps| - 1]), ps[|ps| - 1])
  }

  /** Reading a run of records in order, starting after XML byte
      `prevEnd`. */
  function RestoreAll(prevEnd: int, rs: seq<StoredRecord>): (ps: seq<RawPut>)
    ensures |ps| == |rs|
  {
    if rs == [] then []
    else RestoreAll(prevEnd, rs[..|rs| - 1]) + [Restore(EndAfter(prevEnd, rs[..|rs| - 1]), rs[|rs| - 1])]
  }

  /** Where the XML range of the last record read ends. */
  function EndAfter(prevEnd: int, rs: seq<StoredRecord>): int
  {
    if rs == [] then prevEnd
    else var p := Restore(EndAfter(prevEnd, rs[..|rs| - 1]), rs[|rs| - 1]); p.xoff + p.xlen
  }

  function Observables(ps: seq<RawPut>): (qs: seq<RawPut>)
    ensures |qs| == |ps| && forall k :: 0 <= k < |ps| ==> qs[k] == Observable(ps[k])
  {
    seq(|ps|, k requires 0 <= k < |ps| => Observable(ps[k]))
  }

  /** The delta encoding is lossless: reading the records of a run of
      calls, in order, gives back every call's observable arguments. */
  lemma {:induction false} StoreRestoreAll(prev: StoredRecord, ps: seq<RawPut>)
    ensures RestoreAll(prev.xoff + prev.xlen, StoreAll(prev, ps)) == Observables(ps)
    ensures EndAfter(prev.xoff + prev.xlen, StoreAll(prev, ps))
            == LastStored(prev, ps).xoff + LastStored(prev, ps).xlen
  {
    if ps != [] {
      var init, p := ps[..|ps| - 1], ps[|ps| - 1];
      var rs := StoreAll(prev, ps);
      assert rs[..|rs| - 1] == StoreAll(prev, init);
      StoreRestoreAll(prev, init);
      StoreRestore(LastStored(prev, init), p);
    }
  }

  // ---------------------------------------------------------------------
  // Character data in free text

  /** Every byte of `s` is `isspace`; the empty string is white space. */
  predicate AllSpace(s: seq<char>)
  {
    forall k :: 0 <= k < |s| ==> IsSpace(s[k])
  }

  /** `is_ws(s, len)` for `len >= 0`, on the `len` bytes of the event. */
  method IsWs(s: seq<char>) returns (r: bool)
    ensures r <==> AllSpace(s)
  {
    var i := 0;
    while i < |s|
      invariant i <= |s| && AllSpace(s[..i])
    {
      if !IsSpace(s[i]) {
        return false;
      }
      i := i + 1;
    }
    assert s[..i] == s;
    return true;
  }

  predicate IsHexDigit(c: char)
  {
    '0' <= c <= '9' || 'a' <= c <= 'f' || 'A' <= c <= 'F'
  }

  function HexDigit(c: char): (d: nat)
    requires IsHexDigit(c)
    ensures d < 16
  {
    if '0' <= c <= '9' then c as int - '0' as int
    else if 'a' <= c <= 'f' then c as int - 'a' as int + 10
    else c as int - 'A' as int + 10
  }

  /** The end of the run of hex digits starting at `i`. */
  function HexRunEnd(s: seq<char>, i: nat): (j: nat)
    ensures i <= j && (j <= |s| || j == i)
    ensures !IsHexDigit(At(s, j))
    ensures forall m :: i <= m < j ==> IsHexDigit(At(s, m))
    decreases |s| - i
  {
    if i >= |s| || !IsHexDigit(s[i]) then i else HexRunEnd(s, i + 1)
  }

  /** The value of the hex digits `s[b..e]`, most significant first. */
  function HexValue(s: seq<char>, b: nat, e: nat): nat
    requires b <= e <= |s| && forall m :: b <= m < e ==> IsHexDigit(s[m])
    decreases e - b
  {
    if e == b then 0 else HexValue(s, b, e - 1) * 16 + HexDigit(s[e - 1])
  }

  /** `strtoul(s + i, &tail, 16)` on plain hex digits, with the tail
      position; with no digits the value is 0 and the tail is `i`. */
  function StrToULHex(s: seq<char>, i: nat): (r: (nat, nat))
    ensures r.1 == i || r.1 > i
    ensures r.1 == i ==> r.0 == 0
  {
    var b := SpaceRunEnd(s, i);
    var e := HexRunEnd(s, b);
    if e == b then (0, i)
    else
      assert forall m :: b <= m < e ==> IsHexDigit(s[m]) by {
        forall m | b <= m < e ensures IsHexDigit(s[m]) {
          assert IsHexDigit(At(s, m));
        }
      }
      (HexValue(s, b, e), e)
  }

  /** `u8_nextcharn(ctx, len, &j)`, which this model does not contain: the
      code point at a position and the number of bytes it takes. */
  type Utf8Decoder = (seq<char>, int, nat) -> (nat, nat)

  /** `u8_wc_toutf8` / `u8_wc_len`, which this model does not contain: the
      bytes of a code point. */
  type Utf8Encoder = nat -> seq<char>

  /** The fallback of the decoding loop: the decoder's character, and at
      least one byte consumed. */
  function Fallback(ctx: seq<char>, len: int, i: nat, dec: Utf8Decoder): (r: (nat, nat))
    ensures r.1 > i
  {
    var d := dec(ctx, len, i);
    (d.0, if d.1 == 0 then i + 1 else i + d.1)
  }

  /** One pass of the decoding loop of `cb_char` at position `i` of the
      event text `ctx`: the code point and the position after it. Numeric
      character references read the number after `&#` (decimal) or `&#x`
      (hex) and skip one byte after it; the five named entities decode to
      their character; anything else goes to the UTF-8 decoder. `&apos;`
      consumes only five of its six bytes, as written. */
  function DecodeAt(ctx: seq<char>, len: int, i: nat, dec: Utf8Decoder): (r: (nat, nat))
    requires i < |ctx|
    ensures r.1 > i
  {
    if ctx[i] == '&' && At(ctx, i + 1) == '#' then
      var t := if At(ctx, i + 2) == 'x' then StrToULHex(ctx, i + 3) else StrToUL(ctx, i + 2);
      (t.0 % U32, t.1 + 1)
    else if ctx[i] == '&' && i + 3 < |ctx| && ctx[i + 1..i + 4] == "lt;" then ('<' as nat, i + 4)
    else if ctx[i] == '&' && i + 3 < |ctx| && ctx[i + 1..i + 4] == "gt;" then ('>' as nat, i + 4)
    else if ctx[i] == '&' && i + 4 < |ctx| && ctx[i + 1..i + 5] == "amp;" then ('&' as nat, i + 5)
    else if ctx[i] == '&' && i + 5 < |ctx| && ctx[i + 1..i + 6] == "quot;" then ('"' as nat, i + 6)
    else if ctx[i] == '&' && i + 5 < |ctx| && ctx[i + 1..i + 6] == "apos;" then ('\'' as nat, i + 5)
    else Fallback(ctx, len, i, dec)
  }

  /** `&apos;` is split: the quote is decoded from its first five bytes
      and the loop goes on at its `;`, which becomes a character of its
      own. */
  lemma AposSplit(rest: seq<char>, len: int, dec: Utf8Decoder)
    ensures DecodeAt("&apos;" + rest, len, 0, dec) == ('\'' as nat, 5)
    ensures ("&apos;" + rest)[5] == ';'
  {
    var ctx := "&apos;" + rest;
    assert ctx[..6] == "&apos;";
    assert ctx[1..6] == "apos;";
    assert ctx[1..4][0] == 'a' && ctx[1..5][3] == 's' && ctx[1..6][0] == 'a';
    assert At(ctx, 1) == 'a';
  }

  /** The four other named entities are decoded to their character and
      consumed whole. */
  lemma NamedEntitiesWhole(e: seq<char>, rest: seq<char>, len: int, dec: Utf8Decoder)
    requires e == "&lt;" || e == "&gt;" || e == "&amp;" || e == "&quot;"
    ensures DecodeAt(e + rest, len, 0, dec).1 == |e|
    ensures DecodeAt(e + rest, len, 0, dec).0
            == (if e == "&lt;" then '<' else if e == "&gt;" then '>' else if e == "&amp;" then '&' else '"') as nat
  {
    var ctx := e + rest;
    assert ctx[..|e|] == e;
    assert ctx[1..|e|] == e[1..];
    assert ctx[0] == '&' && At(ctx, 1) == e[1] != '#';
    if e == "&lt;" {
    } else if e == "&gt;" {
      assert ctx[1..4][0] == 'g';
    } else if e == "&amp;" {
      assert ctx[1..4][0] == 'a';
    } else {
      assert ctx[1..4][0] == 'q' && ctx[1..5][0] == 'q';
    }
  }

  /** What one decoded character does: white space (a code point up to
      0xff that is `isspace`) is remembered, anything else is text. */
  datatype Act = Ws(xoff: int, xlen: int) | Text(xoff: int, xlen: int, text: seq<char>)

  function ActOf(u: nat, xoff: int, xlen: int, enc: Utf8Encoder): (a: Act)
    ensures a.xoff == xoff && a.xlen == xlen
    ensures a.Ws? <==> u <= 0xff && IsSpace(u as char)
  {
    if u <= 0xff && IsSpace(u as char) then Ws(xoff, xlen) else Text(xoff, xlen, enc(u))
  }

  /** The characters decoded from position `i` of an event at XML byte
      `xoff`, each with the XML bytes it came from. */
  function Acts(ctx: seq<char>, len: int, xoff: int, i: nat, dec: Utf8Decoder, enc: Utf8Encoder): seq<Act>
    decreases |ctx| - i
  {
    if i >= |ctx| then []
    else
      var r := DecodeAt(ctx, len, i, dec);
      [ActOf(r.0, xoff + i, r.1 - i, enc)] + Acts(ctx, len, xoff, r.1, dec, enc)
  }

  lemma ActsUnfold(ctx: seq<char>, len: int, xoff: int, i: nat, dec: Utf8Decoder, enc: Utf8Encoder)
    requires i < |ctx|
    ensures var r := DecodeAt(ctx, len, i, dec);
            Acts(ctx, len, xoff, i, dec, enc) == [ActOf(r.0, xoff + i, r.1 - i, enc)] + Acts(ctx, len, xoff, r.1, dec, enc)
  {
  }

  /** The decoded characters tile the event: the first starts at byte
      `xoff + i`, each next one starts where the previous one ends, and
      each covers at least one byte. */
  lemma {:induction false} ActsTile(ctx: seq<char>, len: int, xoff: int, i: nat, dec: Utf8Decoder, enc: Utf8Encoder)
    ensures var acts := Acts(ctx, len, xoff, i, dec, enc);
            (i < |ctx| ==> acts != [] && acts[0].xoff == xoff + i)
            && (forall k :: 0 <= k < |acts| ==> acts[k].xlen > 0)
            && (forall k :: 0 <= k < |acts| - 1 ==> acts[k].xoff + acts[k].xlen == acts[k + 1].xoff)
    decreases |ctx| - i
  {
    if i < |ctx| {
      var r := DecodeAt(ctx, len, i, dec);
      ActsTile(ctx, len, xoff, r.1, dec, enc);
    }
  }

  // ---------------------------------------------------------------------
  // Collapsing white space

  /** The XML range of the white space seen last and not yet written. */
  datatype Span = Span(xoff: int, xlen: int)

  /** One `put_record_raw` call followed by the `put_raw_text` of its
      text. */
  datatype Emission = Emission(put: RawPut, text: seq<char>)

  /** The record `flush_ws` writes for pending white space: text length 1,
      text one space. */
  function WsEmission(xoff: int, xlen: int): Emission
  {
    Emission(RawPut(CxChar, xoff, xlen, 1, None), " ")
  }

  /** The record `put_record_textchar` writes for a text character. */
  function TextEmission(xoff: int, xlen: int, t: seq<char>): Emission
  {
    Emission(RawPut(CxChar, xoff, xlen, |t|, None), t)
  }

  /** `flush_ws`: a record only when white space is pending. */
  function FlushOf(pend: Option<Span>): (es: seq<Emission>)
    ensures |es| <= 1
  {
    match pend
    case None => []
    case Some(sp) => [WsEmission(sp.xoff, sp.xlen)]
  }

  /** What the decoding loop of `cb_char` and its final `flush_ws` write
      for the characters `acts`, with `pend` pending before them: white
      space only moves the pending range; text first flushes it. */
  function Collapse(acts: seq<Act>, pend: Option<Span>): seq<Emission>
  {
    if acts == [] then FlushOf(pend)
    else match acts[0]
      case Ws(x, l) => Collapse(acts[1..], Some(Span(x, l)))
      case Text(x, l, t) => FlushOf(pend) + [TextEmission(x, l, t)] + Collapse(acts[1..], None)
  }

  /** A reference for the same output: of each run of white space only
      the last character is kept. */
  function Squeeze(acts: seq<Act>): seq<Act>
  {
    if acts == [] then []
    else if acts[0].Ws? && |acts| > 1 && acts[1].Ws? then Squeeze(acts[1..])
    else [acts[0]] + Squeeze(acts[1..])
  }

  function EmissionOf(a: Act): Emission
  {
    match a
    case Ws(x, l) => WsEmission(x, l)
    case Text(x, l, t) => TextEmission(x, l, t)
  }

  function Emissions(acts: seq<Act>): (es: seq<Emission>)
    ensures |es| == |acts| && forall k :: 0 <= k < |acts| ==> es[k] == EmissionOf(acts[k])
  {
    seq(|acts|, k requires 0 <= k < |acts| => EmissionOf(acts[k]))
  }

  function PendActs(pend: Option<Span>): seq<Act>
  {
    match pend
    case None => []
    case Some(sp) => [Ws(sp.xoff, sp.xlen)]
  }

  lemma SqueezeCons(a: Act, rest: seq<Act>)
    ensures Squeeze([a] + rest)
            == if a.Ws? && rest != [] && rest[0].Ws? then Squeeze(rest) else [a] + Squeeze(rest)
  {
    assert ([a] + rest)[1..] == rest;
  }

  lemma EmissionsCons(a: Act, rest: seq<Act>)
    ensures Emissions([a] + rest) == [EmissionOf(a)] + Emissions(rest)
  {
  }

  /** The loop writes one record per kept character: white space that is
      pending or decoded is written once per run, with the range of the
      run's last character, and every text character is written. */
  lemma {:induction false} CollapseSqueeze(acts: seq<Act>, pend: Option<Span>)
    ensures Collapse(acts, pend) == Emissions(Squeeze(PendActs(pend) + acts))
  {
    if acts == [] {
      assert PendActs(pend) + acts == PendActs(pend);
      if pend.Some? {
        SqueezeCons(PendActs(pend)[0], []);
        EmissionsCons(PendActs(pend)[0], []);
      }
    } else {
      var a, rest := acts[0], acts[1..];
      assert acts == [a] + rest;
      match a
      case Ws(x, l) =>
        CollapseSqueeze(rest, Some(Span(x, l)));
        assert PendActs(Some(Span(x, l))) + rest == acts;
        if pend.Some? {
          assert PendActs(pend) + acts == [PendActs(pend)[0]] + acts;
          SqueezeCons(PendActs(pend)[0], acts);
        } else {
          assert PendActs(pend) + acts == acts;
        }
      case Text(x, l, t) =>
        CollapseSqueeze(rest, None);
        assert PendActs(None) + rest == rest;
        SqueezeCons(a, rest);
        EmissionsCons(a, Squeeze(rest));
        if pend.Some? {
          assert PendActs(pend) + acts == [PendActs(pend)[0]] + acts;
          SqueezeCons(PendActs(pend)[0], acts);
          EmissionsCons(PendActs(pend)[0], Squeeze(acts));
          assert FlushOf(pend) == [EmissionOf(PendActs(pend)[0])];
        } else {
          assert PendActs(pend) + acts == acts;
        }
    }
  }

  /** No two white-space characters are adjacent after squeezing. */
  lemma {:induction false} SqueezeNoWsPair(acts: seq<Act>)
    ensures var sq := Squeeze(acts);
            forall k :: 0 <= k < |sq| - 1 ==> !(sq[k].Ws? && sq[k + 1].Ws?)
    ensures acts != [] ==> Squeeze(acts) != [] && (Squeeze(acts)[0].Ws? <==> acts[0].Ws?)
  {
    if acts != [] {
      SqueezeNoWsPair(acts[1..]);
    }
  }

  /** The text characters of a run, in order. */
  function TextsOf(acts: seq<Act>): (ts: seq<Act>)
    ensures |ts| <= |acts|
  {
    if acts == [] then [] else (if acts[0].Text? then [acts[0]] else []) + TextsOf(acts[1..])
  }

  lemma TextsOfCons(a: Act, rest: seq<Act>)
    ensures TextsOf([a] + rest) == (if a.Text? then [a] else []) + TextsOf(rest)
  {
    assert ([a] + rest)[1..] == rest;
  }

  /** Squeezing drops white space only: the text characters are all kept,
      in order. */
  lemma {:induction false} SqueezeTexts(acts: seq<Act>)
    ensures TextsOf(Squeeze(acts)) == TextsOf(acts)
  {
    if acts != [] {
      SqueezeTexts(acts[1..]);
      SqueezeCons(acts[0], acts[1..]);
      TextsOfCons(acts[0], Squeeze(acts[1..]));
      assert acts == [acts[0]] + acts[1..];
    }
  }

  /** A run without adjacent white space has at most one white-space
      character before each text character and one at the end. */
  lemma {:induction false} NoWsPairBound(sq: seq<Act>)
    requires forall k :: 0 <= k < |sq| - 1 ==> !(sq[k].Ws? && sq[k + 1].Ws?)
    ensures |sq| <= 2 * |TextsOf(sq)| + 1
    ensures sq != [] && sq[0].Text? ==> |sq| <= 2 * |TextsOf(sq)|
  {
    if sq != [] {
      NoWsPairBound(sq[1..]);
    }
  }

  /** So the records written for the characters of an event number at
      most two per text character, plus one: a run of white space never
      gives more than one record. */
  lemma CollapseBound(acts: seq<Act>)
    ensures |Collapse(acts, None)| <= 2 * |TextsOf(acts)| + 1
  {
    CollapseSqueeze(acts, None);
    assert PendActs(None) + acts == acts;
    SqueezeNoWsPair(acts);
    SqueezeTexts(acts);
    NoWsPairBound(Squeeze(acts));
  }

  // ---------------------------------------------------------------------
  // Attribute slots

  /** `<c>` bounding-box attributes through the switch of `cb_start`, as
      written: a three-byte name starting with `l` sets slot 0 (third byte
      `x`) or 1 (`y`) and then falls through into the `u` case, which sets
      slot 2 or 3 by the same rule. Values are read with `strtoul` base 10
      and stored as `uint32_t`. */
  function CAttrStep(a: Attrs, name: seq<char>, value: seq<char>): (r: Attrs)
    ensures !IsBoxName(name) ==> r == a
    ensures IsBoxName(name) && name[0] == 'u' ==> r.s0 == a.s0 && r.s1 == a.s1
    ensures IsBoxName(name) && name[2] == 'x' ==> r.s2 == StrToUL(value, 0).0 % U32
    ensures IsBoxName(name) && name[2] == 'y' ==> r.s3 == StrToUL(value, 0).0 % U32
    ensures IsBoxName(name) && name[0] == 'l' && name[2] == 'x' ==> r.s0 == r.s2
    ensures IsBoxName(name) && name[0] == 'l' && name[2] == 'y' ==> r.s1 == r.s3
  {
    if |name| != 3 then a
    else
      var v := StrToUL(value, 0).0 % U32;
      var a1 := if name[0] == 'l' && name[2] == 'x' then a.(s0 := v)
                else if name[0] == 'l' && name[2] == 'y' then a.(s1 := v)
                else a;
      if (name[0] == 'l' || name[0] == 'u') && name[2] == 'x' then a1.(s2 := v)
      else if (name[0] == 'l' || name[0] == 'u') && name[2] == 'y' then a1.(s3 := v)
      else a1
  }

  /** A name the switch acts on: three bytes, starting with `l` or `u`. */
  predicate IsBoxName(name: seq<char>)
  {
    |name| == 3 && (name[0] == 'l' || name[0] == 'u')
  }

  /** The slots after all attributes of a `<c>`, starting all ones. */
  function CAttrs(attrs: seq<seq<char>>): Attrs
    requires |attrs| % 2 == 0
  {
    if attrs == [] then NoAttrs
    else CAttrStep(CAttrs(attrs[..|attrs| - 2]), attrs[|attrs| - 2], attrs[|attrs| - 1])
  }

  /** A `<c>` without bounding-box attributes keeps all slots at all ones,
      so its record stores no attributes. */
  lemma {:induction false} CAttrsNone(attrs: seq<seq<char>>)
    requires |attrs| % 2 == 0
    requires forall k :: 0 <= k < |attrs| && k % 2 == 0 ==> !IsBoxName(attrs[k])
    ensures CAttrs(attrs) == NoAttrs && !StoresAttrs(Some(CAttrs(attrs)))
  {
    if attrs != [] {
      CAttrsNone(attrs[..|attrs| - 2]);
    }
  }

  /** The fall-through as written lets a lower-right `lrx` overwrite the
      upper-left slot 2: `ulx="1" lrx="2"` leaves 2 in both slot 0 and
      slot 2. */
  lemma CAttrFallThrough()
    ensures CAttrs(["ulx", "1", "lrx", "2"]).s0 == 2
    ensures CAttrs(["ulx", "1", "lrx", "2"]).s2 == 2
  {
    var a := ["ulx", "1", "lrx", "2"];
    assert a[..2] == ["ulx", "1"] && a[..2][..0] == [];
    StrToULDigits("1", 0, "1");
    StrToULDigits("2", 0, "2");
    assert DigitsValue("1") == 1 && DigitsValue("2") == 2;
  }

  /** The facsimile number of a `<pb>`: the first `facs` value without a
      leading `#` and then `f`, read with `strtoul` base 10; slots start at
      zero. `None` (a NULL pointer) when there is no `facs`. */
  function PbAttrs(attrs: seq<seq<char>>): (r: Option<Attrs>)
    requires |attrs| % 2 == 0
    ensures r.Some? <==> AttrValue(attrs, "facs").Some?
    ensures r.Some? ==> r.value.s1 == 0 && r.value.s2 == 0 && r.value.s3 == 0 && r.value.s0 < U32
  {
    match AttrValue(attrs, "facs")
    case None => None
    case Some(v) =>
      var k := if At(v, 0) == '#' then 1 else 0;
      var k2 := if At(v, k) == 'f' then k + 1 else k;
      Some(ZeroAttrs.(s0 := StrToUL(v, k2).0 % U32))
  }

  /** The attribute loop of `cb_start` for `<c>`, with the switch's
      fall-through from the `l` case into the `u` case. */
  method ParseCAttrs(attrs: seq<seq<char>>) returns (a: Attrs)
    requires |attrs| % 2 == 0
    ensures a == CAttrs(attrs)
  {
    a := NoAttrs;
    var i := 0;
    while i < |attrs|
      invariant i <= |attrs| && i % 2 == 0
      invariant a == CAttrs(attrs[..i])
    {
      var name := attrs[i];
      if |name| == 3 {
        var v := StrToUL(attrs[i + 1], 0).0 % U32;
        if name[0] == 'l' {
          if name[2] == 'x' {
            a := a.(s0 := v);
          } else if name[2] == 'y' {
            a := a.(s1 := v);
          }
        }
        if name[0] == 'l' || name[0] == 'u' {
          if name[2] == 'x' {
            a := a.(s2 := v);
          } else if name[2] == 'y' {
            a := a.(s3 := v);
          }
        }
      }
      assert attrs[..i + 2][..i] == attrs[..i];
      i := i + 2;
    }
    assert attrs[..i] == attrs;
  }

  /** The attribute loop of `put_record_pb`: the first `facs` attribute
      gives the facsimile number and ends the loop. */
  method PbFacs(attrs: seq<seq<char>>) returns (a: Option<Attrs>)
    requires |attrs| % 2 == 0
    ensures a == PbAttrs(attrs)
  {
    var i := 0;
    while i < |attrs|
      invariant i <= |attrs| && i % 2 == 0
      invariant AttrIndexFrom(attrs, "facs", i) == AttrIndexFrom(attrs, "facs", 0)
    {
      if attrs[i] == "facs" {
        var v := attrs[i + 1];
        var k := 0;
        if At(v, k) == '#' {
          k := k + 1;
        }
        if At(v, k) == 'f' {
          k := k + 1;
        }
        return Some(ZeroAttrs.(s0 := StrToUL(v, k).0 % U32));
      }
      i := i + 2;
    }
    return None;
  }

  // ---------------------------------------------------------------------
  // The outputs

  /** What the handlers have written: the `.cx` records, the global `cxr`,
      the `.tx` bytes, and the text offset `c_toffset`. */
  datatype Sink = Sink(cx: seq<StoredRecord>, cxr: StoredRecord, tx: seq<char>, toff: int)

  /** One `put_record_raw` followed by the `put_raw_text` of its text.
      Without a `.cx` file neither the record nor `cxr` is written; the
      text offset advances whether or not a `.tx` file is open. */
  function Put(o: Sink, hasCx: bool, hasTx: bool, e: Emission): Sink
  {
    Sink(if hasCx then o.cx + [Store(o.cxr, e.put)] else o.cx,
         if hasCx then Store(o.cxr, e.put) else o.cxr,
         if hasTx then o.tx + e.text else o.tx,
         o.toff + |e.text|)
  }

  function PutAll(o: Sink, hasCx: bool, hasTx: bool, es: seq<Emission>): Sink
  {
    if es == [] then o else Put(PutAll(o, hasCx, hasTx, es[..|es| - 1]), hasCx, hasTx, es[|es| - 1])
  }

  lemma {:induction false} PutAllAppend(o: Sink, hasCx: bool, hasTx: bool, a: seq<Emission>, b: seq<Emission>)
    ensures PutAll(o, hasCx, hasTx, a + b) == PutAll(PutAll(o, hasCx, hasTx, a), hasCx, hasTx, b)
    decreases |b|
  {
    if b == [] {
      assert a + b == a;
    } else {
      assert (a + b)[..|a + b| - 1] == a + b[..|b| - 1];
      PutAllAppend(o, hasCx, hasTx, a, b[..|b| - 1]);
    }
  }

  function PutsOf(es: seq<Emission>): (ps: seq<RawPut>)
    ensures |ps| == |es| && forall k :: 0 <= k < |es| ==> ps[k] == es[k].put
  {
    seq(|es|, k requires 0 <= k < |es| => es[k].put)
  }

  /** The texts of a run of emissions, in order. */
  function Written(es: seq<Emission>): seq<char>
  {
    if es == [] then [] else Written(es[..|es| - 1]) + es[|es| - 1].text
  }

  /** What a run of emissions leaves behind: the records are the delta
      encoding of its calls (so `StoreRestoreAll` reads them back), the
      text file gets its texts in order, and the text offset advances by
      their total length. */
  lemma {:induction false} PutAllOutputs(o: Sink, hasCx: bool, hasTx: bool, es: seq<Emission>)
    ensures hasCx ==> PutAll(o, hasCx, hasTx, es).cx == o.cx + StoreAll(o.cxr, PutsOf(es))
                      && PutAll(o, hasCx, hasTx, es).cxr == LastStored(o.cxr, PutsOf(es))
    ensures !hasCx ==> PutAll(o, hasCx, hasTx, es).cx == o.cx && PutAll(o, hasCx, hasTx, es).cxr == o.cxr
    ensures PutAll(o, hasCx, hasTx, es).tx == if hasTx then o.tx + Written(es) else o.tx
    ensures PutAll(o, hasCx, hasTx, es).toff == o.toff + |Written(es)|
  {
    if es != [] {
      var init := es[..|es| - 1];
      PutAllOutputs(o, hasCx, hasTx, init);
      assert PutsOf(es)[..|es| - 1] == PutsOf(init);
    }
  }

  lemma PutAllOne(o: Sink, hasCx: bool, hasTx: bool, es: seq<Emission>)
    requires |es| <= 1
    ensures PutAll(o, hasCx, hasTx, es) == if es == [] then o else Put(o, hasCx, hasTx, es[0])
  {
    if es != [] {
      assert es[..0] == [];
    }
  }

  /** The record a start tag inside `<text>` other than `<c>` writes:
      `<lb>` stands for a newline, `<pb>` for nothing (with its facsimile
      number), `<formula>` covers no XML bytes and stands for the formula
      text; other tags write nothing. */
  function PseudoRecords(name: seq<char>, attrs: seq<seq<char>>, xoff: int, xcount: nat): (es: seq<Emission>)
    requires |attrs| % 2 == 0
    ensures |es| <= 1 && (es != [] <==> name == "lb" || name == "pb" || name == "formula")
    ensures forall e <- es :: e.put.tlen == |e.text|
  {
    if name == "lb" then [Emission(RawPut(CxLb, xoff, xcount, 1, None), "\n")]
    else if name == "pb" then [Emission(RawPut(CxPb, xoff, xcount, 0, PbAttrs(attrs)), [])]
    else if name == "formula" then [Emission(RawPut(CxFormula, xoff, 0, |FORMULA_TEXT|, None), FORMULA_TEXT)]
    else []
  }

  /** The outputs agree with each other: without a `.cx` file nothing is
      recorded, with one `cxr` is the last record written; with a `.tx`
      file the text offset is its length. */
  ghost predicate Agrees(o: Sink, hasCx: bool, hasTx: bool)
  {
    (!hasCx ==> o.cx == [] && o.cxr == ZeroRecord)
    && (hasCx && o.cx != [] ==> o.cxr == o.cx[|o.cx| - 1])
    && (hasTx ==> o.toff == |o.tx|)
  }

  lemma {:induction false} PutAllAgrees(o: Sink, hasCx: bool, hasTx: bool, es: seq<Emission>)
    requires Agrees(o, hasCx, hasTx)
    ensures Agrees(PutAll(o, hasCx, hasTx, es), hasCx, hasTx)
  {
    if es != [] {
      PutAllAgrees(o, hasCx, hasTx, es[..|es| - 1]);
    }
  }

  /** The XML range that `c_xoffset`/`c_xlen` hold after the characters
      `acts`, starting from `cur`: that of the last white space. */
  function LastSpan(acts: seq<Act>, cur: Span): Span
  {
    if acts == [] then cur
    else match acts[0]
      case Ws(x, l) => LastSpan(acts[1..], Span(x, l))
      case Text(_, _, _) => LastSpan(acts[1..], cur)
  }

  lemma SeqAssoc<T>(a: seq<T>, b: seq<T>, c: seq<T>)
    ensures a + (b + c) == (a + b) + c
  {
  }

  /** One character of `Collapse` and of `LastSpan`. */
  lemma CollapseStep(a: Act, rest: seq<Act>, pend: Option<Span>)
    ensures a.Ws? ==> Collapse([a] + rest, pend) == Collapse(rest, Some(Span(a.xoff, a.xlen)))
    ensures a.Text? ==> Collapse([a] + rest, pend)
                        == FlushOf(pend) + [TextEmission(a.xoff, a.xlen, a.text)] + Collapse(rest, None)
    ensures forall cur :: LastSpan([a] + rest, cur) == LastSpan(rest, if a.Ws? then Span(a.xoff, a.xlen) else cur)
  {
    assert ([a] + rest)[1..] == rest;
  }

  /** The expat callbacks this model handles: start tags with their
      attribute list (name, value, ...), end tags, each at XML byte `xoff`
      spanning `xcount` bytes, and character data `s` with its raw text
      `ctx` from XML byte `xoff`. */
  datatype Event =
    | StartTag(name: seq<char>, attrs: seq<seq<char>>, xoff: int, xcount: nat)
    | EndTag(name: seq<char>, xoff: int, xcount: nat)
    | CharData(s: seq<char>, ctx: seq<char>, xoff: int)

  predicate WellFormed(e: Event)
  {
    e.StartTag? ==> |e.attrs| % 2 == 0
  }

  // ---------------------------------------------------------------------
  // The handler state

  /** `TokWrapData`, the state the expat handlers share. Outputs are
      recorded in `cx`, `cxr`, `tx` and `cToffset`. */
  class TokWrapData {
    /** Whether a `.cx` file and a `.tx` file are open. */
    const hasCx: bool
    const hasTx: bool
    var cx: seq<StoredRecord>
    var cxr: StoredRecord
    var tx: seq<char>
    /** Open `<text>` elements, and all open elements. */
    var textDepth: int
    var totalDepth: int
    /** 1 inside a `<c>`, else 0. */
    var cDepth: nat
    var nChrs: nat
    const cTbuf: array<char>
    var cTlen: nat
    var cXoffset: int
    var cXlen: int
    var cToffset: int
    var wsPending: bool
    var cxAttrs: Attrs

    ghost predicate Valid()
      reads this
    {
      cTbuf.Length == CTBUFSIZE && cTlen < CTBUFSIZE && cDepth <= 1 && (cDepth == 0 ==> cTlen == 0)
      && Agrees(Snap(), hasCx, hasTx)
    }

    function Snap(): Sink
      reads this
    {
      Sink(cx, cxr, tx, cToffset)
    }

    /** The white space seen and not yet written. */
    function Pending(): Option<Span>
      reads this
    {
      if wsPending then Some(Span(cXoffset, cXlen)) else None
    }

    /** The state after `memset(&data, 0, sizeof(data))`. */
    constructor(hasCx: bool, hasTx: bool)
      ensures Valid() && fresh(cTbuf)
      ensures this.hasCx == hasCx && this.hasTx == hasTx
      ensures Snap() == Sink([], ZeroRecord, [], 0) && Pending() == None
      ensures textDepth == 0 && totalDepth == 0 && cDepth == 0 && nChrs == 0 && cTlen == 0
      ensures cXoffset == 0 && cXlen == 0 && cxAttrs == ZeroAttrs
    {
      this.hasCx := hasCx;
      this.hasTx := hasTx;
      cx := [];
      cxr := ZeroRecord;
      tx := [];
      textDepth := 0;
      totalDepth := 0;
      cDepth := 0;
      nChrs := 0;
      cTbuf := new char[CTBUFSIZE](_ => NUL);
      cTlen := 0;
      cXoffset := 0;
      cXlen := 0;
      cToffset := 0;
      wsPending := false;
      cxAttrs := ZeroAttrs;
    }

    /** `put_raw_text`: the bytes go to the text file if there is one; the
        text offset advances by their number in any case. */
    method PutRawText(t: seq<char>)
      modifies this`tx, this`cToffset
      ensures tx == if hasTx then old(tx) + t else old(tx)
      ensures cToffset == old(cToffset) + |t|
    {
      if hasTx {
        tx := tx + t;
      }
      cToffset := cToffset + |t|;
    }

    /** `put_record_raw`: nothing without a `.cx` file; otherwise the
        global record takes the call's fields and flags and is written. */
    method PutRecordRaw(p: RawPut)
      modifies this`cx, this`cxr
      ensures hasCx ==> cxr == Store(old(cxr), p) && cx == old(cx) + [cxr]
      ensures !hasCx ==> cxr == old(cxr) && cx == old(cx)
    {
      if !hasCx {
        return;
      }
      var hasXmlOffset := p.xoff != cxr.xoff + cxr.xlen;
      var hasTxtLength := false;
      var tlen := cxr.tlen;
      if p.tlen != p.xlen {
        hasTxtLength := true;
        tlen := p.tlen;
      }
      var hasAttrs := false;
      var attrs := cxr.attrs;
      if p.attrs.Some? && p.attrs.value.s0 != NO_ATTR {
        hasAttrs := true;
        attrs := p.attrs.value;
      }
      cxr := StoredRecord(p.elt, hasXmlOffset, hasTxtLength, hasAttrs, p.xoff, p.xlen, tlen, attrs);
      cx := cx + [cxr];
    }

    /** A record and its text. */
    method Emit(e: Emission)
      modifies this`cx, this`cxr, this`tx, this`cToffset
      ensures Snap() == Put(old(Snap()), hasCx, hasTx, e)
    {
      PutRecordRaw(e.put);
      PutRawText(e.text);
    }

    /** `flush_ws`: pending white space becomes one record of text length
        1 with the text " ", covering the XML range of the last white
        space seen. */
    method FlushWs()
      modifies this`cx, this`cxr, this`tx, this`cToffset, this`cTlen, this`wsPending
      ensures Snap() == PutAll(old(Snap()), hasCx, hasTx, FlushOf(old(Pending())))
      ensures !wsPending && cTlen == if old(wsPending) then 0 else old(cTlen)
    {
      if wsPending {
        Emit(Emission(RawPut(CxChar, cXoffset, cXlen, 1, None), " "));
        cTlen := 0;
        wsPending := false;
        assert [WsEmission(old(cXoffset), old(cXlen))][..0] == [];
      }
    }
 

    /** `put_record_textchar`: a decoded character of free text, with the
        XML range it came from and its UTF-8 bytes `t`. */
    method PutRecordTextchar(xoff: int, xlen: int, t: seq<char>)
      modifies this`cx, this`cxr, this`tx, this`cToffset, this`cTlen
      ensures Snap() == Put(old(Snap()), hasCx, hasTx, TextEmission(xoff, xlen, t)) && cTlen == 0
    {
      Emit(Emission(RawPut(CxChar, xoff, xlen, |t|, None), t));
      cTlen := 0;
    }

    /** `put_record_char` at the `</c>` event at XML byte `xoff` of
        `xcount` bytes: the record covers `<c>` through `</c>`, carries
        the `<c>`'s bounding box, and its text is the character data
        collected in the buffer, which is then emptied. */
    method PutRecordChar(xoff: int, xcount: nat)
      requires Valid()
      modifies this`cx, this`cxr, this`tx, this`cToffset, this`cTlen
      ensures cTlen == 0
      ensures Snap() == Put(old(Snap()), hasCx, hasTx,
                            Emission(RawPut(CxChar, cXoffset, xoff + xcount - cXoffset, old(cTlen), Some(cxAttrs)),
                                     cTbuf[..old(cTlen)]))
    {
      var cXlen := xoff + xcount - cXoffset;
      Emit(Emission(RawPut(CxChar, cXoffset, cXlen, cTlen, Some(cxAttrs)), cTbuf[..cTlen]));
      cTlen := 0;
    }

    /** `put_record_lb`: a line break stands for one newline. */
    method PutRecordLb(xoff: int, xcount: nat)
      modifies this`cx, this`cxr, this`tx, this`cToffset
      ensures Snap() == Put(old(Snap()), hasCx, hasTx, Emission(RawPut(CxLb, xoff, xcount, 1, None), "\n"))
    {
      Emit(Emission(RawPut(CxLb, xoff, xcount, 1, None), "\n"));
    }

    /** `put_record_pb`: a page break has no text; its slots are zeroed and
        carry the facsimile number when there is one. */
    method PutRecordPb(attrs: seq<seq<char>>, xoff: int, xcount: nat)
      requires |attrs| % 2 == 0
      modifies this`cx, this`cxr, this`tx, this`cToffset, this`cxAttrs
      ensures Snap() == Put(old(Snap()), hasCx, hasTx, Emission(RawPut(CxPb, xoff, xcount, 0, PbAttrs(attrs)), []))
      ensures cxAttrs == if PbAttrs(attrs).Some? then PbAttrs(attrs).value else ZeroAttrs
    {
      cxAttrs := ZeroAttrs;
      var a := PbFacs(attrs);
      if a.Some? {
        cxAttrs := a.value;
      }
      PutRecordRaw(RawPut(CxPb, xoff, xcount, 0, a));
    }

    /** `put_record_formula`: a formula covers no XML bytes and stands for
        the formula text. */
    method PutRecordFormula(xoff: int)
      modifies this`cx, this`cxr, this`tx, this`cToffset
      ensures Snap() == Put(old(Snap()), hasCx, hasTx,
                            Emission(RawPut(CxFormula, xoff, 0, |FORMULA_TEXT|, None), FORMULA_TEXT))
    {
      Emit(Emission(RawPut(CxFormula, xoff, 0, |FORMULA_TEXT|, None), FORMULA_TEXT));
    }
 

    /** How far the decoding loop has got: the records `done` are
        written, and what is still to come with `rest` gives the same
        records and the same last white space as the whole event. */
    ghost predicate Progress(acts0: seq<Act>, pend0: Option<Span>, snap0: Sink, span0: Span,
                             done: seq<Emission>, rest: seq<Act>)
      reads this
    {
      Collapse(acts0, pend0) == done + Collapse(rest, Pending())
      && Snap() == PutAll(snap0, hasCx, hasTx, done)
      && LastSpan(acts0, span0) == LastSpan(rest, Span(cXoffset, cXlen))
    }

    /** One pass of the decoding loop for the code point `u` from the XML
        range `x`, `l`: white space is remembered, anything else flushes
        the pending white space and is written. */
    method DecodeStep(u: nat, x: int, l: int, enc: Utf8Encoder, ghost acts: seq<Act>, ghost rest: seq<Act>,
                      ghost acts0: seq<Act>, ghost pend0: Option<Span>, ghost snap0: Sink, ghost span0: Span,
                      ghost done: seq<Emission>)
      returns (ghost done': seq<Emission>)
      requires Valid() && cDepth == 0
      requires acts == [ActOf(u, x, l, enc)] + rest
      requires Progress(acts0, pend0, snap0, span0, done, acts)
      modifies this`cx, this`cxr, this`tx, this`cToffset, this`cTlen, this`wsPending, this`cXoffset, this`cXlen
      ensures Valid() && cDepth == 0
      ensures Progress(acts0, pend0, snap0, span0, done', rest)
    {
      CollapseStep(ActOf(u, x, l, enc), rest, Pending());
      if u <= 0xff && IsSpace(u as char) {
        cXoffset := x;
        cXlen := l;
        wsPending := true;
        done' := done;
        assert Snap() == old(Snap());
      } else {
        done' := DecodeText(x, l, enc(u), rest, acts0, pend0, snap0, span0, done);
      }
    }

    /** One pass of the decoding loop at position `i`: decode, then act
        on the character. */
    method DecodeNext(ctx: seq<char>, len: int, xoff: int, i: nat, dec: Utf8Decoder, enc: Utf8Encoder,
                      ghost acts0: seq<Act>, ghost pend0: Option<Span>, ghost snap0: Sink, ghost span0: Span,
                      ghost done: seq<Emission>)
      returns (j: nat, ghost done': seq<Emission>)
      requires Valid() && cDepth == 0 && i < |ctx|
      requires Progress(acts0, pend0, snap0, span0, done, Acts(ctx, len, xoff, i, dec, enc))
      modifies this`cx, this`cxr, this`tx, this`cToffset, this`cTlen, this`wsPending, this`cXoffset, this`cXlen
      ensures Valid() && cDepth == 0 && j > i
      ensures Progress(acts0, pend0, snap0, span0, done', Acts(ctx, len, xoff, j, dec, enc))
    {
      var r := DecodeAt(ctx, len, i, dec);
      var u := r.0;
      j := r.1;
      ActsUnfold(ctx, len, xoff, i, dec, enc);
      done' := DecodeStep(u, xoff + i, j - i, enc, Acts(ctx, len, xoff, i, dec, enc), Acts(ctx, len, xoff, j, dec, enc),
                          acts0, pend0, snap0, span0, done);
    }

    /** The text branch of a pass: `flush_ws`, then `put_record_textchar`. */
    method DecodeText(x: int, l: int, t: seq<char>, ghost rest: seq<Act>,
                      ghost acts0: seq<Act>, ghost pend0: Option<Span>, ghost snap0: Sink, ghost span0: Span,
                      ghost done: seq<Emission>)
      returns (ghost done': seq<Emission>)
      requires Valid() && cDepth == 0
      requires Collapse(acts0, pend0) == done + (FlushOf(Pending()) + [TextEmission(x, l, t)] + Collapse(rest, None))
      requires Snap() == PutAll(snap0, hasCx, hasTx, done)
      requires LastSpan(acts0, span0) == LastSpan(rest, Span(cXoffset, cXlen))
      modifies this`cx, this`cxr, this`tx, this`cToffset, this`cTlen, this`wsPending
      ensures Valid() && cDepth == 0
      ensures Progress(acts0, pend0, snap0, span0, done', rest)
    {
      ghost var es := FlushOf(Pending()) + [TextEmission(x, l, t)];
      FlushWs();
      PutRecordTextchar(x, l, t);
      assert es[..|es| - 1] == FlushOf(old(Pending()));
      assert Snap() == PutAll(old(Snap()), hasCx, hasTx, es);
      PutAllAppend(snap0, hasCx, hasTx, done, es);
      PutAllAgrees(old(Snap()), hasCx, hasTx, es);
      done' := done + es;
      SeqAssoc(done, es, Collapse(rest, None));
    }

    /** The decoding loop of `cb_char` over the raw text `ctx` of an event
        at XML byte `xoff`, then its final `flush_ws`: the records are
        those of `Collapse` for the decoded characters, with the white
        space pending before the event in front of them. */
    method DecodeChars(ctx: seq<char>, len: int, xoff: int, dec: Utf8Decoder, enc: Utf8Encoder)
      requires Valid() && cDepth == 0
      modifies this`cx, this`cxr, this`tx, this`cToffset, this`cTlen, this`wsPending, this`cXoffset, this`cXlen
      ensures Valid() && !wsPending
      ensures Snap() == PutAll(old(Snap()), hasCx, hasTx, Collapse(Acts(ctx, len, xoff, 0, dec, enc), old(Pending())))
      ensures Span(cXoffset, cXlen) == LastSpan(Acts(ctx, len, xoff, 0, dec, enc), Span(old(cXoffset), old(cXlen)))
    {
      ghost var acts0 := Acts(ctx, len, xoff, 0, dec, enc);
      ghost var pend0 := Pending();
      ghost var snap0 := Snap();
      ghost var span0 := Span(cXoffset, cXlen);
      ghost var done: seq<Emission> := [];
      var i: nat := 0;
      while i < |ctx|
        invariant Valid() && cDepth == 0
        invariant Progress(acts0, pend0, snap0, span0, done, Acts(ctx, len, xoff, i, dec, enc))
        decreases |ctx| - i
      {
        var j;
        j, done := DecodeNext(ctx, len, xoff, i, dec, enc, acts0, pend0, snap0, span0, done);
        i := j;
      }
      assert Acts(ctx, len, xoff, i, dec, enc) == [];
      ghost var es := FlushOf(Pending());
      assert Collapse(acts0, pend0) == done + es;
      FlushWs();
      PutAllAppend(snap0, hasCx, hasTx, done, es);
      PutAllAgrees(old(Snap()), hasCx, hasTx, done + es);
    }
 

    /** `cb_char` for character data `s` whose raw text `ctx` starts at
        XML byte `xoff`. Inside `<c>` the data is appended to the
        character's buffer, which must keep a byte to spare. Inside
        `<text>`, data that is all white space becomes pending white space
        covering the whole event, and other data is decoded character by
        character. Elsewhere it goes to the structure index only. */
    method Chars(s: seq<char>, ctx: seq<char>, xoff: int, dec: Utf8Decoder, enc: Utf8Encoder) returns (st: Status)
      requires Valid()
      modifies this`cx, this`cxr, this`tx, this`cToffset, this`cTlen, this`wsPending, this`cXoffset, this`cXlen, cTbuf
      ensures Valid()
      ensures st == Continue || st == Exit(255)
      ensures st == Exit(255) <==> cDepth != 0 && old(cTlen) + |s| >= CTBUFSIZE
      ensures st == Exit(255) ==> Snap() == old(Snap()) && cTlen == old(cTlen) && cTbuf[..] == old(cTbuf[..])
      ensures cDepth != 0 && old(cTlen) + |s| < CTBUFSIZE
              ==> cTlen == old(cTlen) + |s| && cTbuf[..cTlen] == old(cTbuf[..cTlen]) + s
                  && Snap() == old(Snap()) && !wsPending
                  && cXoffset == old(cXoffset) && cXlen == old(cXlen)
      ensures cDepth == 0 ==> cTbuf[..] == old(cTbuf[..])
      ensures cDepth == 0 && textDepth > 0 && AllSpace(s)
              ==> Snap() == old(Snap()) && Pending() == Some(Span(xoff, |ctx|))
      ensures cDepth == 0 && textDepth > 0 && !AllSpace(s)
              ==> Snap() == PutAll(old(Snap()), hasCx, hasTx, Collapse(Acts(ctx, |s|, xoff, 0, dec, enc), old(Pending())))
                  && !wsPending
                  && Span(cXoffset, cXlen) == LastSpan(Acts(ctx, |s|, xoff, 0, dec, enc), Span(old(cXoffset), old(cXlen)))
      ensures cDepth == 0 && textDepth <= 0
              ==> Snap() == old(Snap()) && Pending() == old(Pending())
                  && cXoffset == old(cXoffset) && cXlen == old(cXlen)
    {
      if cDepth != 0 {
        if cTlen + |s| >= CTBUFSIZE {
          return Exit(255);
        }
        MemCpy(cTbuf, cTlen, s);
        cTlen := cTlen + |s|;
        wsPending := false;
        return Continue;
      } else if textDepth > 0 {
        var ws := IsWs(s);
        if ws {
          cXoffset := xoff;
          cXlen := |ctx|;
          wsPending := true;
        } else {
          DecodeChars(ctx, |s|, xoff, dec, enc);
        }
      }
      return Continue;
    }

    /** The `<c>` branch of `cb_start` inside `<text>`: a nested `<c>`
        ends the run with status 3; otherwise the bounding box is parsed,
        the character starts at the tag's XML byte with an empty buffer,
        and pending white space is dropped. */
    method StartChar(attrs: seq<seq<char>>, xoff: int) returns (st: Status)
      requires Valid() && |attrs| % 2 == 0
      modifies this`cTlen, this`wsPending, this`cXoffset, this`cxAttrs, this`nChrs, this`totalDepth, this`cDepth
      ensures Valid()
      ensures st == Continue || st == Exit(3)
      ensures st == Exit(3) <==> old(cDepth) != 0
      ensures st == Exit(3) ==> cDepth == old(cDepth) && nChrs == old(nChrs) && totalDepth == old(totalDepth)
                                && Pending() == old(Pending()) && cTlen == old(cTlen) && cxAttrs == old(cxAttrs)
      ensures st == Continue ==> cxAttrs == CAttrs(attrs) && cXoffset == xoff && cTlen == 0 && cDepth == 1
                                 && nChrs == old(nChrs) + 1 && totalDepth == old(totalDepth) + 1 && !wsPending
    {
      if cDepth != 0 {
        return Exit(3);
      }
      cxAttrs := ParseCAttrs(attrs);
      cXoffset := xoff;
      cTlen := 0;
      nChrs := nChrs + 1;
      totalDepth := totalDepth + 1;
      cDepth := 1;
      wsPending := false;
      return Continue;
    }

    /** The pseudo-character branches of `cb_start` inside `<text>`:
        `<lb>`, `<pb>` and `<formula>` write their records; `<lb>` and
        `<formula>` drop pending white space, `<pb>` keeps it. */
    method StartInText(name: seq<char>, attrs: seq<seq<char>>, xoff: int, xcount: nat)
      requires Valid() && |attrs| % 2 == 0
      modifies this`cx, this`cxr, this`tx, this`cToffset, this`wsPending, this`cxAttrs
      ensures Valid()
      ensures Snap() == PutAll(old(Snap()), hasCx, hasTx, PseudoRecords(name, attrs, xoff, xcount))
      ensures wsPending == (old(wsPending) && name != "lb" && name != "formula")
    {
      ghost var o := Snap();
      if name == "lb" {
        PutRecordLb(xoff, xcount);
        wsPending := false;
      } else if name == "pb" {
        PutRecordPb(attrs, xoff, xcount);
      } else if name == "formula" {
        PutRecordFormula(xoff);
        wsPending := false;
      }
      PutAllOne(o, hasCx, hasTx, PseudoRecords(name, attrs, xoff, xcount));
      PutAllAgrees(o, hasCx, hasTx, PseudoRecords(name, attrs, xoff, xcount));
    }

    /** `cb_start` for a start tag at XML byte `xoff` of `xcount` bytes.
        Inside `<text>`, `<c>` opens a character, and `<lb>`, `<pb>` and
        `<formula>` write their pseudo-character records; outside it,
        `<text>` opens the text. Every tag but a refused nested `<c>` adds
        one to the depth. */
    method Start(name: seq<char>, attrs: seq<seq<char>>, xoff: int, xcount: nat) returns (st: Status)
      requires Valid() && |attrs| % 2 == 0
      modifies this`cx, this`cxr, this`tx, this`cToffset, this`cTlen, this`wsPending, this`cXoffset, this`cxAttrs,
               this`nChrs, this`totalDepth, this`cDepth, this`textDepth
      ensures Valid()
      ensures st == Continue || st == Exit(3)
      ensures st == Exit(3) <==> old(textDepth) != 0 && name == "c" && old(cDepth) != 0
      ensures st == Continue ==> totalDepth == old(totalDepth) + 1
      ensures textDepth == old(textDepth) + if old(textDepth) == 0 && name == "text" then 1 else 0
      ensures !(old(textDepth) != 0 && name == "c") ==> cDepth == old(cDepth) && nChrs == old(nChrs) && cTlen == old(cTlen)
      ensures old(textDepth) != 0 && name == "c" ==> Snap() == old(Snap())
      ensures old(textDepth) != 0 && name == "c" && st == Continue
              ==> cxAttrs == CAttrs(attrs) && cXoffset == xoff && cTlen == 0
                  && cDepth == 1 && nChrs == old(nChrs) + 1 && !wsPending
      ensures old(textDepth) != 0 && name != "c"
              ==> Snap() == PutAll(old(Snap()), hasCx, hasTx, PseudoRecords(name, attrs, xoff, xcount))
                  && wsPending == (old(wsPending) && name != "lb" && name != "formula")
      ensures old(textDepth) == 0
              ==> Snap() == old(Snap()) && wsPending == (old(wsPending) && name != "text")
    {
      if textDepth != 0 {
        if name == "c" {
          st := StartChar(attrs, xoff);
          return;
        }
        StartInText(name, attrs, xoff, xcount);
      } else if name == "text" {
        textDepth := textDepth + 1;
        wsPending := false;
      }
      totalDepth := totalDepth + 1;
      return Continue;
    }

    /** `cb_end` for an end tag at XML byte `xoff` of `xcount` bytes.
        `</c>` writes the character's record and leaves the character;
        `</lb>` and `</text>` drop pending white space, and `</text>`
        closes a text. Every end tag takes one from the depth. */
    method End(name: seq<char>, xoff: int, xcount: nat)
      requires Valid()
      modifies this`cx, this`cxr, this`tx, this`cToffset, this`cTlen, this`wsPending, this`totalDepth, this`cDepth,
               this`textDepth
      ensures Valid()
      ensures totalDepth == old(totalDepth) - 1
      ensures textDepth == old(textDepth) - if name == "text" then 1 else 0
      ensures name == "c"
              ==> Snap() == Put(old(Snap()), hasCx, hasTx,
                                Emission(RawPut(CxChar, cXoffset, xoff + xcount - cXoffset, old(cTlen), Some(cxAttrs)),
                                         cTbuf[..old(cTlen)]))
                  && cDepth == 0 && cTlen == 0 && !wsPending
      ensures name != "c" ==> Snap() == old(Snap()) && cDepth == old(cDepth) && cTlen == old(cTlen)
      ensures name == "lb" || name == "text" ==> !wsPending
      ensures name != "c" && name != "lb" && name != "text" ==> wsPending == old(wsPending)
    {
      if name == "c" {
        PutRecordChar(xoff, xcount);
        totalDepth := totalDepth - 1;
        cDepth := 0;
        wsPending := false;
        return;
      } else if name == "lb" {
        totalDepth := totalDepth - 1;
        wsPending := false;
        return;
      } else if name == "text" {
        textDepth := textDepth - 1;
        wsPending := false;
      }
      totalDepth := totalDepth - 1;
    }
 

    /** One expat callback: what each handler stops on, and what it
        writes to the outputs. */
    method Handle(e: Event, dec: Utf8Decoder, enc: Utf8Encoder) returns (st: Status)
      requires Valid() && WellFormed(e)
      modifies this, cTbuf
      ensures Valid()
      ensures st == Continue || st == Exit(3) || st == Exit(255)
      ensures st == Exit(3) <==> e.StartTag? && e.name == "c" && old(textDepth) != 0 && old(cDepth) != 0
      ensures st == Exit(255) <==> e.CharData? && old(cDepth) != 0 && old(cTlen) + |e.s| >= CTBUFSIZE
      ensures e.StartTag? && old(textDepth) != 0 && e.name != "c"
              ==> Snap() == PutAll(old(Snap()), hasCx, hasTx, PseudoRecords(e.name, e.attrs, e.xoff, e.xcount))
      ensures e.StartTag? && (old(textDepth) == 0 || e.name == "c") ==> Snap() == old(Snap())
      ensures e.EndTag? && e.name == "c"
              ==> Snap() == Put(old(Snap()), hasCx, hasTx,
                                Emission(RawPut(CxChar, old(cXoffset), e.xoff + e.xcount - old(cXoffset), old(cTlen),
                                                Some(old(cxAttrs))),
                                         old(cTbuf[..cTlen])))
      ensures e.EndTag? && e.name != "c" ==> Snap() == old(Snap())
      ensures e.CharData? && old(cDepth) == 0 && old(textDepth) > 0 && !AllSpace(e.s)
              ==> Snap() == PutAll(old(Snap()), hasCx, hasTx,
                                   Collapse(Acts(e.ctx, |e.s|, e.xoff, 0, dec, enc), old(Pending())))
      ensures e.CharData? && old(cDepth) == 0 && old(textDepth) > 0 && AllSpace(e.s)
              ==> Snap() == old(Snap()) && Pending() == Some(Span(e.xoff, |e.ctx|))
      ensures e.CharData? && (old(cDepth) != 0 || old(textDepth) <= 0) ==> Snap() == old(Snap())
    {
      match e {
        case StartTag(name, attrs, xoff, xcount) =>
          st := Start(name, attrs, xoff, xcount);
        case EndTag(name, xoff, xcount) =>
          End(name, xoff, xcount);
          st := Continue;
        case CharData(s, ctx, xoff) =>
          st := Chars(s, ctx, xoff, dec, enc);
      }
    }

    /** The parse: the callbacks in document order, until one of them ends
        the run. The outputs keep agreeing with each other throughout. */
    method Run(events: seq<Event>, dec: Utf8Decoder, enc: Utf8Encoder) returns (st: Status)
      requires Valid() && forall e <- events :: WellFormed(e)
      modifies this, cTbuf
      ensures Valid()
      ensures st == Continue || st == Exit(3) || st == Exit(255)
    {
      var k := 0;
      while k < |events|
        invariant k <= |events| && Valid()
      {
        st := Handle(events[k], dec, enc);
        if st != Continue {
          return;
        }
        k := k + 1;
      }
      return Continue;
    }
  }
}
