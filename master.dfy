/** src/dtatw-txml2master.c: the sentence and token records read from the
    tokenizer's XML (`sdata`, `wdata`), the per-character claim flags
    (`cxaux`) that the `<s>` and `<w>` handlers OR in, and
    `mark_discontinuous_segments`, which walks the characters in
    tokenizer order and flags the places where a token or a sentence
    jumps in the source document. A character record is its index in
    `cxdata`; a slot of `txtb2cx` holds such an index or `NoCx`. */
module Master {
  import opened Wrappers
  import opened Decimal
  import opened IndexRecords
  import opened IndexLoad
  import opened CharLookup
  import opened GrowBuf

  /** Ids longer than this (with their NUL) overflow their record. */
  const TXML_ID_BUFLEN: nat := 16
  /** Bytes allowed between two `<c>` that still count as adjacent. */
  const CXML_ADJACENCY_TOLERANCE: int := 0
  /** `sdata` and `wdata` start with room for this many records. */
  const TXML_DEFAULT_SALLOC: nat := 8192
  const TXML_DEFAULT_WALLOC: nat := 8192

  /** The `cxaf*` flags of a character; the record's bit mask is the set
      of flags it holds. `WAny`/`SAny`: claimed by a token (sentence);
      `WBegin`/`WEnd`: first (last) character of that token, `SBegin`/`SEnd`
      likewise of the sentence; `WxBegin`/`WxEnd` and `SxBegin`/`SxEnd`:
      first (last) character of a contiguous segment of it. */
  datatype Flag = WAny | WBegin | WxBegin | WxEnd | WEnd | SAny | SBegin | SxBegin | SxEnd | SEnd

  /** `txmlSentence` and `txmlToken`: a token remembers the index of the
      sentence that was open when it was read. */
  datatype TxmlSentence = TxmlSentence(sId: seq<char>)
  datatype TxmlToken = TxmlToken(sI: nat, wId: seq<char>)

  /** `cxAuxRecord`: the token claiming a character and its flags. */
  datatype CxAux = CxAux(wi: nat, flags: set<Flag>)

  /** Every flag of `before` is still set in `after`. */
  predicate Keeps(before: set<Flag>, after: set<Flag>)
  {
    before <= after
  }

  /** The slot of `txtb2cx` for txt byte `b`; bytes past the end read as
      `NoCx`. */
  function Slot(tbl: seq<int>, b: int): (c: int)
    ensures c == NoCx || c in tbl
  {
    if 0 <= b < |tbl| then tbl[b] else NoCx
  }

  /** Every slot is `NoCx` or a record of a table of `n` records. */
  predicate SlotsIn(tbl: seq<int>, n: nat)
  {
    forall b :: 0 <= b < |tbl| ==> tbl[b] == NoCx || 0 <= tbl[b] < n
  }

  // ---------------------------------------------------------------------
  // Claiming the characters of a token

  /** The flags the claim loop ORs into the character at byte `i` of a
      token of `len` bytes, when `saw` says a sentence has just opened. */
  function ByteMask(i: nat, len: nat, saw: bool): set<Flag>
  {
    {WAny, SAny}
    + (if i == 0 then {WBegin} + (if saw then {SBegin} else {}) else {})
    + (if i + 1 == len then {WEnd} else {})
  }

  /** Some byte of `[off, off + n)` maps to character `c`. */
  predicate Claimed(tbl: seq<int>, off: nat, n: nat, c: int)
  {
    n > 0 && (Claimed(tbl, off, n - 1, c) || Slot(tbl, off + n - 1) == c)
  }

  /** The flags the first `n` bytes of the token give character `c`. */
  function ClaimMask(tbl: seq<int>, off: nat, n: nat, len: nat, saw: bool, c: int): set<Flag>
  {
    if n == 0 then {}
    else ClaimMask(tbl, off, n - 1, len, saw, c)
         + (if Slot(tbl, off + n - 1) == c then ByteMask(n - 1, len, saw) else {})
  }

  /** The last character met in `[off, off + n)`, or `prev` if none. */
  function LastClaimed(tbl: seq<int>, off: nat, n: nat, prev: int): (r: int)
    ensures r == prev || (r != NoCx && r in tbl)
  {
    if n == 0 then prev
    else if Slot(tbl, off + n - 1) != NoCx then Slot(tbl, off + n - 1)
    else LastClaimed(tbl, off, n - 1, prev)
  }

  /** What the claim flags of a token say: every character it claims is
      marked as claimed by a token and a sentence; `WBegin` marks exactly
      the character of its first byte, `SBegin` that one too when a
      sentence has just opened, `WEnd` exactly the character of its last
      byte; and no segment or sentence-end flag is set. */
  lemma {:induction false} ClaimMaskFlags(tbl: seq<int>, off: nat, n: nat, len: nat, saw: bool, c: int)
    requires n <= len
    ensures WAny in ClaimMask(tbl, off, n, len, saw, c) <==> Claimed(tbl, off, n, c)
    ensures SAny in ClaimMask(tbl, off, n, len, saw, c) <==> Claimed(tbl, off, n, c)
    ensures WBegin in ClaimMask(tbl, off, n, len, saw, c) <==> n > 0 && Slot(tbl, off) == c
    ensures SBegin in ClaimMask(tbl, off, n, len, saw, c) <==> saw && n > 0 && Slot(tbl, off) == c
    ensures WEnd in ClaimMask(tbl, off, n, len, saw, c)
            <==> n == len && len > 0 && Slot(tbl, off + len - 1) == c
    ensures ClaimMask(tbl, off, n, len, saw, c) <= {WAny, SAny, WBegin, SBegin, WEnd}
  {
    if n > 0 {
      ClaimMaskFlags(tbl, off, n - 1, len, saw, c);
    }
  }

  /** The attribute loop of `<w>`: it stops as soon as both `xml:id`
      and `b` are found; as names are distinct, each is the first (and
      only) of its name. */
  method TokenAttrs(attrs: seq<seq<char>>) returns (wId: Option<seq<char>>, wLoc: Option<seq<char>>)
    requires |attrs| % 2 == 0 && DistinctNames(attrs)
    ensures wId == AttrValue(attrs, "xml:id") && wLoc == AttrValue(attrs, "b")
  {
    ghost var ki := AttrIndexFrom(attrs, "xml:id", 0);
    ghost var kl := AttrIndexFrom(attrs, "b", 0);
    wId, wLoc := None, None;
    var i := 0;
    while i < |attrs| && (wId.None? || wLoc.None?)
      invariant i <= |attrs| && i % 2 == 0
      invariant wId == if ki < i then Some(attrs[ki + 1]) else None
      invariant wLoc == if kl < i then Some(attrs[kl + 1]) else None
    {
      if attrs[i] == "xml:id" {
        assert ki == i;
        wId := Some(attrs[i + 1]);
      } else if attrs[i] == "b" {
        assert kl == i;
        wLoc := Some(attrs[i + 1]);
      }
      i := i + 2;
    }
  }

  /** A character no byte of the span maps to gets no flags from it. */
  lemma {:induction false} ClaimMaskUnclaimed(tbl: seq<int>, off: nat, n: nat, len: nat, saw: bool, c: int)
    requires !Claimed(tbl, off, n, c)
    ensures ClaimMask(tbl, off, n, len, saw, c) == {}
  {
    if n > 0 {
      ClaimMaskUnclaimed(tbl, off, n - 1, len, saw, c);
    }
  }

  /** After the first `n` bytes of a token at index `wi` whose txt span is
      `[off, off + len)`, every character met carries the token's index
      and its old flags plus those its bytes give; the others are
      untouched. */
  ghost predicate ClaimedUpTo(aux0: seq<CxAux>, aux: seq<CxAux>, tbl: seq<int>, wi: nat, off: nat, n: nat, len: nat, saw0: bool)
  {
    |aux| == |aux0|
    && forall c :: 0 <= c < |aux| ==>
         aux[c] == if Claimed(tbl, off, n, c)
                   then CxAux(wi, aux0[c].flags + ClaimMask(tbl, off, n, len, saw0, c))
                   else aux0[c]
  }

  /** The table after byte `off + i` of the token is claimed. */
  function ClaimAux(aux: seq<CxAux>, tbl: seq<int>, wi: nat, off: nat, i: nat, len: nat, saw0: bool): (r: seq<CxAux>)
    ensures |r| == |aux|
  {
    var cx := Slot(tbl, off + i);
    if 0 <= cx < |aux| then aux[cx := CxAux(wi, aux[cx].flags + ByteMask(i, len, saw0))] else aux
  }

  lemma ClaimAuxStep(aux0: seq<CxAux>, aux: seq<CxAux>, tbl: seq<int>, wi: nat, off: nat, i: nat, len: nat, saw0: bool)
    requires ClaimedUpTo(aux0, aux, tbl, wi, off, i, len, saw0)
    ensures ClaimedUpTo(aux0, ClaimAux(aux, tbl, wi, off, i, len, saw0), tbl, wi, off, i + 1, len, saw0)
  {
    var cx := Slot(tbl, off + i);
    if 0 <= cx < |aux| && !Claimed(tbl, off, i, cx) {
      ClaimMaskUnclaimed(tbl, off, i, len, saw0, cx);
    }
  }

  /** One pass of the claim loop: byte `off + i`. */
  method ClaimByte(aux: array<CxAux>, ghost aux0: seq<CxAux>, tbl: seq<int>, wi: nat, off: nat, i: nat, len: nat,
                   saw0: bool, saw: bool, cxa0: int, cxa: int)
    returns (saw': bool, cxa': int)
    requires i < len && SlotsIn(tbl, aux.Length)
    requires ClaimedUpTo(aux0, aux[..], tbl, wi, off, i, len, saw0)
    requires saw == (saw0 && !(i > 0 && Slot(tbl, off) != NoCx))
    requires cxa == LastClaimed(tbl, off, i, cxa0)
    modifies aux
    ensures ClaimedUpTo(aux0, aux[..], tbl, wi, off, i + 1, len, saw0)
    ensures saw' == (saw0 && !(Slot(tbl, off) != NoCx))
    ensures cxa' == LastClaimed(tbl, off, i + 1, cxa0)
  {
    saw', cxa' := saw, cxa;
    var cx := if off + i < |tbl| then tbl[off + i] else NoCx;
    assert cx == Slot(tbl, off + i);
    if cx != NoCx {
      var flags := aux[cx].flags + {WAny, SAny};
      if i == 0 {
        flags := flags + {WBegin};
        if saw {
          flags := flags + {SBegin};
          saw' := false;
        }
      }
      if i == len - 1 {
        flags := flags + {WEnd};
      }
      assert flags == aux[cx].flags + ByteMask(i, len, saw0);
      aux[cx] := CxAux(wi, flags);
      cxa' := cx;
    }
    assert aux[..] == ClaimAux(old(aux[..]), tbl, wi, off, i, len, saw0);
    ClaimAuxStep(aux0, old(aux[..]), tbl, wi, off, i, len, saw0);
  }

  /** The claim loop of `txml_cb_start` for a `<w>` at index `wi` whose
      txt bytes are `[off, off + len)`: every character met gets the
      token's index and the flags of its byte; the first one met at byte 0
      consumes a pending sentence start; the last one met becomes the
      record that `</s>` will mark. */
  method ClaimBytes(aux: array<CxAux>, tbl: seq<int>, wi: nat, off: nat, len: nat, saw0: bool, cxa0: int)
    returns (saw: bool, cxa: int)
    requires SlotsIn(tbl, aux.Length)
    modifies aux
    ensures ClaimedUpTo(old(aux[..]), aux[..], tbl, wi, off, len, len, saw0)
    ensures saw == (saw0 && !(len > 0 && Slot(tbl, off) != NoCx))
    ensures cxa == LastClaimed(tbl, off, len, cxa0)
  {
    saw, cxa := saw0, cxa0;
    var i := 0;
    while i < len
      invariant i <= len
      invariant ClaimedUpTo(old(aux[..]), aux[..], tbl, wi, off, i, len, saw0)
      invariant saw == (saw0 && !(i > 0 && Slot(tbl, off) != NoCx))
      invariant cxa == LastClaimed(tbl, off, i, cxa0)
    {
      saw, cxa := ClaimByte(aux, old(aux[..]), tbl, wi, off, i, len, saw0, saw, cxa0, cxa);
      i := i + 1;
    }
  }

  /** An id attribute too long for its 16-byte buffer. */
  predicate TooLong(id: Option<seq<char>>)
  {
    id.Some? && |id.value| >= TXML_ID_BUFLEN
  }

  /** A missing attribute read as the empty string. */
  function OrEmpty(v: Option<seq<char>>): (r: seq<char>)
    ensures v.Some? ==> r == v.value
    ensures v.None? ==> r == []
  {
    match v
    case Some(x) => x
    case None => []
  }

  /** The txt offset and length that a `b` attribute "OFF LEN" names:
      the first `strtoul` reads the offset, the second goes on from where
      the first stopped. */
  function TokenSpan(loc: seq<char>): (nat, nat)
  {
    var off := StrToUL(loc, 0);
    (off.0, StrToUL(loc, off.1).0)
  }

  /** A location written as two runs of digits with one blank between
      them reads back as their values. */
  lemma SpanOfDigits(d1: seq<char>, d2: seq<char>)
    requires d1 != [] && AllDigits(d1) && d2 != [] && AllDigits(d2)
    ensures TokenSpan(d1 + " " + d2) == (DigitsValue(d1), DigitsValue(d2))
  {
    BlankJoin(d1, d2);
    SpanOfParts(d1 + " " + d2, d1, d2);
  }

  /** The same for a location given by where its parts lie. */
  lemma SpanOfParts(loc: seq<char>, d1: seq<char>, d2: seq<char>)
    requires d1 != [] && AllDigits(d1) && d2 != [] && AllDigits(d2)
    requires |loc| == |d1| + 1 + |d2| && loc[..|d1|] == d1 && loc[|d1|] == ' '
    requires loc[|d1| + 1..|d1| + 1 + |d2|] == d2
    ensures TokenSpan(loc) == (DigitsValue(d1), DigitsValue(d2))
  {
    StrToULDigits(loc, 0, d1);
    StrToULSpaceDigits(loc, |d1|, d2);
  }

  /** Where the parts of `d1 + " " + d2` lie. */
  lemma BlankJoin(d1: seq<char>, d2: seq<char>)
    ensures var loc := d1 + " " + d2;
            |loc| == |d1| + 1 + |d2| && loc[..|d1|] == d1 && loc[|d1|] == ' '
            && loc[|d1| + 1..|d1| + 1 + |d2|] == d2
  {
    var loc := d1 + " " + d2;
    assert loc[..|d1|] == d1;
    assert loc[|d1| + 1..] == d2;
  }

  /** A location written as `"%lu %lu"` reads back as the offset and
      length it was written from. */
  lemma SpanOfLocation(o: nat, l: nat)
    ensures TokenSpan(Dec(o) + " " + Dec(l)) == (o, l)
  {
    SpanOfDigits(Dec(o), Dec(l));
    DecValue(o);
    DecValue(l);
  }

  /** The two `strtoul` calls on a present location. */
  method ParseSpan(loc: seq<char>) returns (off: nat, len: nat)
    ensures (off, len) == TokenSpan(loc)
  {
    var o := StrToUL(loc, 0);
    off, len := o.0, StrToUL(loc, o.1).0;
  }

  /** Claiming for token `wi < wlen` keeps every claimed character's token
      index below `wlen`. */
  lemma ClaimedKeepsOwners(aux0: seq<CxAux>, aux: seq<CxAux>, tbl: seq<int>, wi: nat, off: nat, len: nat, saw0: bool, wlen: nat)
    requires ClaimedUpTo(aux0, aux, tbl, wi, off, len, len, saw0) && wi < wlen
    requires forall c :: 0 <= c < |aux0| && WAny in aux0[c].flags ==> aux0[c].wi < wlen
    ensures forall c :: 0 <= c < |aux| && WAny in aux[c].flags ==> aux[c].wi < wlen
  {
  }

  /** What the XML parser reports, in document order. */
  datatype Event = StartTag(name: seq<char>, attrs: seq<seq<char>>) | EndTag(name: seq<char>)

  /** The parser hands over attribute lists of name/value pairs with
      distinct names. */
  predicate WellFormed(e: Event)
  {
    e.StartTag? ==> |e.attrs| % 2 == 0 && DistinctNames(e.attrs)
  }

  /** `txmlParseData` with the tables it fills: the sentence and token
      vectors, the aux records (one per character record, zeroed before
      parsing) and the read-only txt-byte lookup `txtb2cx`. */
  class TxmlParser {
    const sdata: RecordBuffer<TxmlSentence>
    const wdata: RecordBuffer<TxmlToken>
    const cxaux: array<CxAux>
    const txtb2cx: seq<int>
    var wCur: TxmlToken
    var sCur: TxmlSentence
    var sawSStart: bool
    var cxa: int

    ghost predicate Valid()
      reads this, sdata, sdata.Repr, wdata, wdata.Repr, cxaux
    {
      sdata.Valid() && wdata.Valid() && sdata.Repr !! wdata.Repr
      && cxaux !in sdata.Repr && cxaux !in wdata.Repr
      && SlotsIn(txtb2cx, cxaux.Length)
      && (cxa == NoCx || 0 <= cxa < cxaux.Length)
      && forall c :: 0 <= c < cxaux.Length && WAny in cxaux[c].flags ==> cxaux[c].wi < wdata.len
    }

    /** `txmlDataInit` and the zeroed parse data, for `ncx` character
        records. */
    constructor (tbl: seq<int>, ncx: nat)
      requires SlotsIn(tbl, ncx)
      ensures Valid() && fresh(sdata.Repr) && fresh(wdata.Repr) && fresh(cxaux)
      ensures txtb2cx == tbl && cxaux.Length == ncx
      ensures sdata.Contents() == [] && wdata.Contents() == []
      ensures sdata.Capacity() == TXML_DEFAULT_SALLOC && wdata.Capacity() == TXML_DEFAULT_WALLOC
      ensures forall c :: 0 <= c < ncx ==> cxaux[c] == CxAux(0, {})
      ensures wCur == TxmlToken(0, []) && sCur == TxmlSentence([]) && !sawSStart && cxa == NoCx
    {
      sdata := new RecordBuffer(TXML_DEFAULT_SALLOC);
      wdata := new RecordBuffer(TXML_DEFAULT_WALLOC);
      cxaux := new CxAux[ncx](_ => CxAux(0, {}));
      txtb2cx := tbl;
      wCur, sCur, sawSStart, cxa := TxmlToken(0, []), TxmlSentence([]), false, NoCx;
    }

    /** `<s>`: its id (at most 15 bytes, else the assertion fails with
        status 255) is recorded, a sentence start is pending, tokens from
        now on belong to the index the sentence gets, and it is pushed. */
    method StartSentence(attrs: seq<seq<char>>) returns (st: Status)
      requires Valid() && |attrs| % 2 == 0
      modifies this, sdata.Repr
      ensures Valid() && fresh(sdata.Repr - old(sdata.Repr))
      ensures st == Exit(255) <==> TooLong(AttrValue(attrs, "xml:id"))
      ensures st == Exit(255) ==> sdata.Contents() == old(sdata.Contents()) && wCur == old(wCur)
                                  && sawSStart == old(sawSStart)
      ensures st != Exit(255) ==>
                st == Continue && sawSStart && wCur == old(wCur).(sI := old(sdata.len))
                && sCur == TxmlSentence(OrEmpty(AttrValue(attrs, "xml:id")))
                && sdata.Contents() == old(sdata.Contents()) + [sCur]
      ensures wdata.Contents() == old(wdata.Contents()) && cxa == old(cxa)
    {
      var id := GetAttr(attrs, "xml:id");
      if TooLong(id) {
        return Exit(255);
      }
      sCur := TxmlSentence(OrEmpty(id));
      sawSStart := true;
      wCur := wCur.(sI := sdata.len);
      var _ := sdata.Push(sCur);
      st := Continue;
    }

    /** Push the current token with id `id`, at index `wi`. */
    method PushToken(id: seq<char>) returns (wi: nat)
      requires Valid()
      modifies this`wCur, wdata.Repr
      ensures Valid() && fresh(wdata.Repr - old(wdata.Repr))
      ensures wi == old(wdata.len) && wCur == old(wCur).(wId := id)
      ensures wdata.Contents() == old(wdata.Contents()) + [wCur]
    {
      wCur := wCur.(wId := id);
      wi := wdata.Push(wCur);
    }

    /** The claim loop on the parse state, for pushed token `wi` located
        at `loc`. */
    method ClaimToken(wi: nat, loc: seq<char>)
      requires Valid() && wi < wdata.len
      modifies this`sawSStart, this`cxa, cxaux
      ensures Valid()
      ensures var span := TokenSpan(loc);
              ClaimedUpTo(old(cxaux[..]), cxaux[..], txtb2cx, wi, span.0, span.1, span.1, old(sawSStart))
              && sawSStart == (old(sawSStart) && !(span.1 > 0 && Slot(txtb2cx, span.0) != NoCx))
              && cxa == LastClaimed(txtb2cx, span.0, span.1, old(cxa))
    {
      var off, len := ParseSpan(loc);
      sawSStart, cxa := ClaimBytes(cxaux, txtb2cx, wi, off, len, sawSStart, cxa);
      ClaimedKeepsOwners(old(cxaux[..]), cxaux[..], txtb2cx, wi, off, len, old(sawSStart), wdata.len);
    }

    /** `<w>`: its id (at most 15 bytes, else status 255) goes into the
        token, which is pushed with the current sentence index; its
        location `b` gives the txt offset and length of the bytes whose
        characters it claims. Without a `b`, `strtoul` is handed a null
        pointer once the token is pushed: the model stops there. */
    method StartToken(wId: Option<seq<char>>, wLoc: Option<seq<char>>) returns (st: Status)
      requires Valid()
      modifies this`wCur, this`sawSStart, this`cxa, wdata.Repr, cxaux
      ensures Valid() && fresh(wdata.Repr - old(wdata.Repr))
      ensures st == Continue || st == Exit(255) || st == Fault
      ensures st == Exit(255) <==> TooLong(wId)
      ensures st == Fault <==> !TooLong(wId) && wLoc.None?
      ensures st == Exit(255) ==> wdata.Contents() == old(wdata.Contents()) && cxaux[..] == old(cxaux[..])
      ensures st == Fault ==>
                wCur == old(wCur).(wId := OrEmpty(wId))
                && wdata.Contents() == old(wdata.Contents()) + [wCur] && cxaux[..] == old(cxaux[..])
      ensures st == Continue ==>
                var span := TokenSpan(wLoc.value);
                wCur == old(wCur).(wId := OrEmpty(wId))
                && wdata.Contents() == old(wdata.Contents()) + [wCur]
                && ClaimedUpTo(old(cxaux[..]), cxaux[..], txtb2cx, old(wdata.len), span.0, span.1, span.1, old(sawSStart))
                && sawSStart == (old(sawSStart) && !(span.1 > 0 && Slot(txtb2cx, span.0) != NoCx))
                && cxa == LastClaimed(txtb2cx, span.0, span.1, old(cxa))
      ensures sdata.Contents() == old(sdata.Contents()) && sCur == old(sCur)
    {
      if TooLong(wId) {
        return Exit(255);
      }
      var wi := PushToken(OrEmpty(wId));
      if wLoc.None? {
        return Fault;
      }
      ClaimToken(wi, wLoc.value);
      st := Continue;
    }

    /** `txml_cb_start`: `<s>` and `<w>` are handled, every other element
        is ignored. */
    method Start(name: seq<char>, attrs: seq<seq<char>>) returns (st: Status)
      requires Valid() && |attrs| % 2 == 0 && DistinctNames(attrs)
      modifies this, sdata.Repr, wdata.Repr, cxaux
      ensures Valid() && fresh(sdata.Repr - old(sdata.Repr)) && fresh(wdata.Repr - old(wdata.Repr))
      ensures st == Continue || st == Exit(255) || st == Fault
      ensures forall c :: 0 <= c < cxaux.Length ==> Keeps(old(cxaux[c].flags), cxaux[c].flags)
      ensures old(sdata.Contents()) <= sdata.Contents() && old(wdata.Contents()) <= wdata.Contents()
      ensures name == "s" ==>
                var id := AttrValue(attrs, "xml:id");
                (st == Exit(255) <==> TooLong(id)) && st != Fault
                && wdata.Contents() == old(wdata.Contents()) && cxaux[..] == old(cxaux[..])
                && (st == Exit(255) ==> sdata.Contents() == old(sdata.Contents()))
                && (st == Continue ==>
                      sCur == TxmlSentence(OrEmpty(id)) && sdata.Contents() == old(sdata.Contents()) + [sCur]
                      && sawSStart && wCur == old(wCur).(sI := old(sdata.len)))
      ensures name == "w" ==>
                var wId, wLoc := AttrValue(attrs, "xml:id"), AttrValue(attrs, "b");
                (st == Exit(255) <==> TooLong(wId)) && (st == Fault <==> !TooLong(wId) && wLoc.None?)
                && sdata.Contents() == old(sdata.Contents())
                && (st == Exit(255) ==> wdata.Contents() == old(wdata.Contents()) && cxaux[..] == old(cxaux[..]))
                && (st != Exit(255) ==>
                      wCur == old(wCur).(wId := OrEmpty(wId)) && wdata.Contents() == old(wdata.Contents()) + [wCur])
                && (st == Fault ==> cxaux[..] == old(cxaux[..]))
                && (st == Continue ==>
                      var span := TokenSpan(wLoc.value);
                      ClaimedUpTo(old(cxaux[..]), cxaux[..], txtb2cx, old(wdata.len), span.0, span.1, span.1, old(sawSStart))
                      && sawSStart == (old(sawSStart) && !(span.1 > 0 && Slot(txtb2cx, span.0) != NoCx))
                      && cxa == LastClaimed(txtb2cx, span.0, span.1, old(cxa)))
      ensures name != "s" && name != "w" ==>
                st == Continue && sdata.Contents() == old(sdata.Contents())
                && wdata.Contents() == old(wdata.Contents()) && cxaux[..] == old(cxaux[..])
                && sawSStart == old(sawSStart) && cxa == old(cxa) && wCur == old(wCur)
    {
      if name == "s" {
        st := StartSentence(attrs);
      } else if name == "w" {
        var wId, wLoc := TokenAttrs(attrs);
        st := StartToken(wId, wLoc);
      } else {
        st := Continue;
      }
    }

    /** `txml_cb_end`: `</s>` marks the last character claimed so far as
        the end of a sentence; nothing else changes. */
    method End(name: seq<char>)
      requires Valid()
      modifies cxaux
      ensures Valid()
      ensures forall c :: 0 <= c < cxaux.Length ==>
                cxaux[c] == if name == "s" && c == cxa then old(cxaux[c]).(flags := old(cxaux[c].flags) + {SEnd})
                            else old(cxaux[c])
    {
      if name == "s" && cxa != NoCx {
        cxaux[cxa] := cxaux[cxa].(flags := cxaux[cxa].flags + {SEnd});
      }
    }

    /** `txmlDataLoad`: the parser's start and end events, in document
        order, each given to its handler; a failed id assertion or a token
        without location ends the run. Flags are only ever added. */
    method Load(events: seq<Event>) returns (st: Status)
      requires Valid() && forall k :: 0 <= k < |events| ==> WellFormed(events[k])
      modifies this, sdata.Repr, wdata.Repr, cxaux
      ensures Valid() && fresh(sdata.Repr - old(sdata.Repr)) && fresh(wdata.Repr - old(wdata.Repr))
      ensures st == Continue || st == Exit(255) || st == Fault
      ensures forall c :: 0 <= c < cxaux.Length ==> Keeps(old(cxaux[c].flags), cxaux[c].flags)
      ensures old(sdata.Contents()) <= sdata.Contents() && old(wdata.Contents()) <= wdata.Contents()
    {
      st := Continue;
      var k := 0;
      while k < |events|
        invariant k <= |events| && st == Continue
        invariant Valid() && fresh(sdata.Repr - old(sdata.Repr)) && fresh(wdata.Repr - old(wdata.Repr))
        invariant forall c :: 0 <= c < cxaux.Length ==> Keeps(old(cxaux[c].flags), cxaux[c].flags)
        invariant old(sdata.Contents()) <= sdata.Contents() && old(wdata.Contents()) <= wdata.Contents()
      {
        match events[k] {
          case StartTag(name, attrs) =>
            st := Start(name, attrs);
            if st != Continue {
              return;
            }
          case EndTag(name) =>
            End(name);
        }
        k := k + 1;
      }
    }
  }

  // ---------------------------------------------------------------------
  // Discontinuous segments

  /** A character as `mark_discontinuous_segments` sees it: claimed by
      token `w` of sentence `s`, or by no token. */
  datatype Claim = Unclaimed | ClaimedBy(w: nat, s: nat)

  /** The claims read off the aux records: `WAny` says whether a token
      claims the character, `w_i` which one, and that token's `s_i` the
      sentence. */
  function Claims(aux: seq<CxAux>, wdata: seq<TxmlToken>): (cl: seq<Claim>)
    ensures |cl| == |aux|
  {
    seq(|aux|, c requires 0 <= c < |aux| =>
      if WAny in aux[c].flags && aux[c].wi < |wdata|
      then ClaimedBy(aux[c].wi, wdata[aux[c].wi].sI) else Unclaimed)
  }

  /** The characters visited, in txt-byte order: `NoCx` slots are
      skipped, and so is a slot holding the character just visited (the
      later bytes of a multi-byte `<c>`). */
  function Visits(tbl: seq<int>): (v: seq<int>)
    ensures |v| <= |tbl|
    decreases |tbl|
  {
    if tbl == [] then []
    else
      var v := Visits(tbl[..|tbl| - 1]);
      var x := tbl[|tbl| - 1];
      if x == NoCx || (v != [] && x == v[|v| - 1]) then v else v + [x]
  }

  /** Every visited character is a record of `cxs`. */
  predicate Inside(v: seq<int>, n: nat)
  {
    forall k :: 0 <= k < |v| ==> 0 <= v[k] < n
  }

  /** Only characters are visited, each at most once in a row. */
  lemma {:induction false} VisitsInside(tbl: seq<int>, n: nat)
    requires SlotsIn(tbl, n)
    ensures Inside(Visits(tbl), n)
    ensures forall k :: 1 <= k < |Visits(tbl)| ==> Visits(tbl)[k - 1] != Visits(tbl)[k]
    decreases |tbl|
  {
    if tbl != [] {
      var u := tbl[..|tbl| - 1];
      assert SlotsIn(u, n);
      VisitsInside(u, n);
    }
  }

  /** The source bytes of `b` do not start right where those of `a` end. */
  predicate Gap(cxs: seq<CxRecord>, a: int, b: int)
  {
    0 <= a < |cxs| && 0 <= b < |cxs| &&
    cxs[b].xoff > cxs[a].xoff + cxs[a].xlen + CXML_ADJACENCY_TOLERANCE
  }

  /** Both claimed, by the same token. */
  predicate WSame(x: Claim, y: Claim)
  {
    x.ClaimedBy? && y.ClaimedBy? && x.w == y.w
  }

  /** Both claimed, by tokens of the same sentence. */
  predicate SSame(x: Claim, y: Claim)
  {
    x.ClaimedBy? && y.ClaimedBy? && x.s == y.s
  }

  /** A token discontinuity between consecutive visits `a` and `b`. */
  predicate WBreak(cxs: seq<CxRecord>, cl: seq<Claim>, a: int, b: int)
  {
    Gap(cxs, a, b) && 0 <= a < |cl| && 0 <= b < |cl| && WSame(cl[a], cl[b])
  }

  /** A sentence discontinuity between consecutive visits `a` and `b`. */
  predicate SBreak(cxs: seq<CxRecord>, cl: seq<Claim>, a: int, b: int)
  {
    Gap(cxs, a, b) && 0 <= a < |cl| && 0 <= b < |cl| && SSame(cl[a], cl[b])
  }

  function Score(cxs: seq<CxRecord>, cl: seq<Claim>, a: int, b: int): nat
  {
    (if WBreak(cxs, cl, a, b) then 1 else 0) + (if SBreak(cxs, cl, a, b) then 1 else 0)
  }

  /** The discontinuities counted between visits `v[k-1]` and `v[k]` for
      `k >= from` (and `k >= 1`). */
  function Count(v: seq<int>, from: nat, cxs: seq<CxRecord>, cl: seq<Claim>): nat
    decreases |v|
  {
    if |v| < 2 || |v| - 1 < from then 0
    else Count(v[..|v| - 1], from, cxs, cl) + Score(cxs, cl, v[|v| - 2], v[|v| - 1])
  }

  /** The flags one pair of visits adds to character `c`: the segment
      begin flags on the later, the segment end flags on the earlier. */
  function PairMarks(cxs: seq<CxRecord>, cl: seq<Claim>, a: int, b: int, c: int): set<Flag>
  {
    (if b == c && WBreak(cxs, cl, a, b) then {WxBegin} else {})
    + (if a == c && WBreak(cxs, cl, a, b) then {WxEnd} else {})
    + (if b == c && SBreak(cxs, cl, a, b) then {SxBegin} else {})
    + (if a == c && SBreak(cxs, cl, a, b) then {SxEnd} else {})
  }

  /** The flags all pairs `k >= from` add to character `c`. */
  function Marks(v: seq<int>, from: nat, cxs: seq<CxRecord>, cl: seq<Claim>, c: int): set<Flag>
    decreases |v|
  {
    if |v| < 2 || |v| - 1 < from then {}
    else Marks(v[..|v| - 1], from, cxs, cl, c) + PairMarks(cxs, cl, v[|v| - 2], v[|v| - 1], c)
  }

  /** The aux records with the marks of all pairs `k >= from` ORed in. */
  function Marked(aux: seq<CxAux>, v: seq<int>, from: nat, cxs: seq<CxRecord>, cl: seq<Claim>): (r: seq<CxAux>)
    ensures |r| == |aux|
  {
    seq(|aux|, c requires 0 <= c < |aux| => aux[c].(flags := aux[c].flags + Marks(v, from, cxs, cl, c)))
  }

  /** Marking sets segment flags only. */
  lemma {:induction false} MarksOnlySegments(v: seq<int>, from: nat, cxs: seq<CxRecord>, cl: seq<Claim>, c: int)
    ensures Marks(v, from, cxs, cl, c) <= {WxBegin, WxEnd, SxBegin, SxEnd}
  {
    if |v| >= 2 && |v| - 1 >= from {
      MarksOnlySegments(v[..|v| - 1], from, cxs, cl, c);
    }
  }

  /** Every token discontinuity counted is flagged on both sides: the
      later character gets `WxBegin`, the earlier `WxEnd`; likewise for
      sentences. */
  lemma {:induction false} MarksCoverBreaks(v: seq<int>, from: nat, cxs: seq<CxRecord>, cl: seq<Claim>, k: nat)
    requires 1 <= k < |v| && from <= k
    ensures WBreak(cxs, cl, v[k - 1], v[k]) ==> WxBegin in Marks(v, from, cxs, cl, v[k])
    ensures WBreak(cxs, cl, v[k - 1], v[k]) ==> WxEnd in Marks(v, from, cxs, cl, v[k - 1])
    ensures SBreak(cxs, cl, v[k - 1], v[k]) ==> SxBegin in Marks(v, from, cxs, cl, v[k])
    ensures SBreak(cxs, cl, v[k - 1], v[k]) ==> SxEnd in Marks(v, from, cxs, cl, v[k - 1])
    decreases |v|
  {
    var u := v[..|v| - 1];
    if k < |v| - 1 {
      assert u[k] == v[k] && u[k - 1] == v[k - 1];
      MarksCoverBreaks(u, from, cxs, cl, k);
    }
  }

  /** The discontinuity segment flag `f` of character `c` stands for,
      between consecutive visits `a` and `b`: `WxBegin` (`SxBegin`) a
      token (sentence) break with `c` after it, `WxEnd` (`SxEnd`) one with
      `c` before it. Other flags stand for no break. */
  predicate FlagBreak(f: Flag, cxs: seq<CxRecord>, cl: seq<Claim>, a: int, b: int, c: int)
  {
    match f
    case WxBegin => b == c && WBreak(cxs, cl, a, b)
    case WxEnd => a == c && WBreak(cxs, cl, a, b)
    case SxBegin => b == c && SBreak(cxs, cl, a, b)
    case SxEnd => a == c && SBreak(cxs, cl, a, b)
    case _ => false
  }

  /** One pair of visits sets a flag only where its discontinuity is. */
  lemma PairMarksBreak(cxs: seq<CxRecord>, cl: seq<Claim>, a: int, b: int, c: int, f: Flag)
    requires f in PairMarks(cxs, cl, a, b, c)
    ensures FlagBreak(f, cxs, cl, a, b, c)
  {
  }

  /** Marking sets a flag on a character only where its discontinuity is
      (`WxBegin`, `WxEnd`, `SxBegin` and `SxEnd` alike). With
      `MarksCoverBreaks`, each of them is set iff its break is there. */
  lemma {:induction false} MarksOnlyBreaks(v: seq<int>, from: nat, cxs: seq<CxRecord>, cl: seq<Claim>, c: int, f: Flag)
    requires f in Marks(v, from, cxs, cl, c)
    ensures exists k :: from <= k < |v| && 1 <= k && FlagBreak(f, cxs, cl, v[k - 1], v[k], c)
    decreases |v|
  {
    var u := v[..|v| - 1];
    var n := |v| - 1;
    if f in PairMarks(cxs, cl, v[n - 1], v[n], c) {
      PairMarksBreak(cxs, cl, v[n - 1], v[n], c, f);
    } else {
      MarksOnlyBreaks(u, from, cxs, cl, c, f);
      var j :| from <= j < |u| && 1 <= j && FlagBreak(f, cxs, cl, u[j - 1], u[j], c);
      assert v[j] == u[j] && v[j - 1] == u[j - 1];
      assert from <= j < |v| && 1 <= j && FlagBreak(f, cxs, cl, v[j - 1], v[j], c);
    }
  }

  /** Marking leaves every claim as it was: it reads only `WAny`, `w_i`
      and the tokens, and writes only segment flags. */
  lemma MarkedClaims(aux: seq<CxAux>, wdata: seq<TxmlToken>, v: seq<int>, from: nat, cxs: seq<CxRecord>, cl: seq<Claim>)
    ensures Claims(Marked(aux, v, from, cxs, cl), wdata) == Claims(aux, wdata)
  {
    var m := Marked(aux, v, from, cxs, cl);
    forall c | 0 <= c < |aux| ensures Claims(m, wdata)[c] == Claims(aux, wdata)[c] {
      MarksOnlySegments(v, from, cxs, cl, c);
    }
  }

  /** A second run over the marked records finds the same count and
      changes no flag. */
  lemma MarkTwice(tbl: seq<int>, cxs: seq<CxRecord>, wdata: seq<TxmlToken>, aux: seq<CxAux>, from: nat)
    ensures var v := Visits(tbl);
            var cl := Claims(aux, wdata);
            var aux1 := Marked(aux, v, from, cxs, cl);
            var cl1 := Claims(aux1, wdata);
            Count(v, from, cxs, cl1) == Count(v, from, cxs, cl)
            && Marked(aux1, v, from, cxs, cl1) == aux1
  {
    var v := Visits(tbl);
    var cl := Claims(aux, wdata);
    MarkedClaims(aux, wdata, v, from, cxs, cl);
  }

  /** Starting the count at the second pair rather than the first drops
      exactly the first pair's discontinuities. */
  lemma {:induction false} CountFirstPair(v: seq<int>, cxs: seq<CxRecord>, cl: seq<Claim>)
    ensures Count(v, 1, cxs, cl) == Count(v, 2, cxs, cl) + (if |v| >= 2 then Score(cxs, cl, v[0], v[1]) else 0)
    decreases |v|
  {
    if |v| > 2 {
      var u := v[..|v| - 1];
      assert u[0] == v[0] && u[1] == v[1];
      CountFirstPair(u, cxs, cl);
    }
  }

  /** Two characters of one token in one sentence, with a byte between
      them in the source: the break lies between the first and the second
      character visited, and starting at the second pair misses it. */
  lemma FirstPairMissed()
    ensures var cxs := [CxRecord("a", 0, 1, 0, 1), CxRecord("b", 2, 1, 1, 1)];
            var cl := [ClaimedBy(0, 0), ClaimedBy(0, 0)];
            Visits([0, 1]) == [0, 1]
            && Count([0, 1], 2, cxs, cl) == 0 && Count([0, 1], 1, cxs, cl) == 2
  {
    assert [0, 1][..1] == [0];
    assert [0] [..0] == [];
    var cxs := [CxRecord("a", 0, 1, 0, 1), CxRecord("b", 2, 1, 1, 1)];
    var cl := [ClaimedBy(0, 0), ClaimedBy(0, 0)];
    assert [0, 1][..|[0, 1]| - 1] == [0];
    assert Count([0], 1, cxs, cl) == 0;
  }

  /** The first loop: the first slot holding a character, and the index
      after it; `NoCx` and the table length when there is none. */
  method FirstVisit(tbl: seq<int>) returns (prev: int, i: nat)
    ensures i <= |tbl|
    ensures prev == NoCx ==> i == |tbl| && Visits(tbl) == []
    ensures prev != NoCx ==> i >= 1 && prev == tbl[i - 1] && Visits(tbl[..i]) == [prev]
  {
    prev, i := NoCx, 0;
    while prev == NoCx && i < |tbl|
      invariant i <= |tbl|
      invariant prev == NoCx ==> Visits(tbl[..i]) == []
      invariant prev != NoCx ==> i >= 1 && prev == tbl[i - 1] && Visits(tbl[..i]) == [prev]
    {
      assert tbl[..i + 1][..i] == tbl[..i];
      prev := tbl[i];
      i := i + 1;
    }
    if prev == NoCx {
      assert tbl[..i] == tbl;
    }
  }

  /** The claim of character `c` read off its aux record. */
  method Who(aux: array<CxAux>, wdata: seq<TxmlToken>, c: nat) returns (cl: Claim)
    requires c < aux.Length
    requires WAny in aux[c].flags ==> aux[c].wi < |wdata|
    ensures cl == Claims(aux[..], wdata)[c]
  {
    if WAny in aux[c].flags {
      cl := ClaimedBy(aux[c].wi, wdata[aux[c].wi].sI);
    } else {
      cl := Unclaimed;
    }
  }

  /** The records after one pair `a`, `b` is flagged: `b` gets the
      segment begin flags and `a` the segment end flags of the breaks
      found. */
  function PairStep(aux: seq<CxAux>, a: nat, b: nat, wb: bool, sb: bool): (r: seq<CxAux>)
    requires a < |aux| && b < |aux|
    ensures |r| == |aux|
  {
    var aux1 := if wb then aux[b := aux[b].(flags := aux[b].flags + {WxBegin})]
                              [a := aux[a].(flags := aux[a].flags + {WxEnd})]
                else aux;
    if sb then aux1[b := aux1[b].(flags := aux1[b].flags + {SxBegin})]
                   [a := aux1[a].(flags := aux1[a].flags + {SxEnd})]
    else aux1
  }

  /** One more visit adds the score of its pair. */
  lemma CountStep(v: seq<int>, x: int, from: nat, cxs: seq<CxRecord>, cl: seq<Claim>)
    requires v != []
    ensures Count(v + [x], from, cxs, cl)
            == Count(v, from, cxs, cl) + (if |v| >= from then Score(cxs, cl, v[|v| - 1], x) else 0)
  {
    assert (v + [x])[..|v|] == v;
  }

  /** One more visit adds the flags of its pair to each character. */
  lemma MarksStep(v: seq<int>, x: int, from: nat, cxs: seq<CxRecord>, cl: seq<Claim>, c: int)
    requires v != []
    ensures Marks(v + [x], from, cxs, cl, c)
            == Marks(v, from, cxs, cl, c) + (if |v| >= from then PairMarks(cxs, cl, v[|v| - 1], x, c) else {})
  {
    assert (v + [x])[..|v|] == v;
  }

  /** One more visit adds the flags of its pair. */
  lemma MarkStep(aux0: seq<CxAux>, v: seq<int>, x: int, from: nat, cxs: seq<CxRecord>, cl: seq<Claim>)
    requires v != [] && 0 <= v[|v| - 1] < |aux0| && 0 <= x < |aux0| && v[|v| - 1] != x
    ensures var p := v[|v| - 1];
            Marked(aux0, v + [x], from, cxs, cl)
            == if |v| >= from
               then PairStep(Marked(aux0, v, from, cxs, cl), p, x, WBreak(cxs, cl, p, x), SBreak(cxs, cl, p, x))
               else Marked(aux0, v, from, cxs, cl)
  {
    var p := v[|v| - 1];
    var w := v + [x];
    var m, m1 := Marked(aux0, v, from, cxs, cl), Marked(aux0, w, from, cxs, cl);
    if |v| >= from {
      var r := PairStep(m, p, x, WBreak(cxs, cl, p, x), SBreak(cxs, cl, p, x));
      forall c | 0 <= c < |aux0| ensures m1[c] == r[c] {
        MarksStep(v, x, from, cxs, cl, c);
      }
    } else {
      forall c | 0 <= c < |aux0| ensures m1[c] == m[c] {
        MarksStep(v, x, from, cxs, cl, c);
      }
    }
  }

  /** With a single visit nothing is marked yet. */
  lemma MarkedNone(aux0: seq<CxAux>, v: seq<int>, from: nat, cxs: seq<CxRecord>, cl: seq<Claim>)
    requires |v| <= 1
    ensures Marked(aux0, v, from, cxs, cl) == aux0
  {
    forall c | 0 <= c < |aux0| ensures Marked(aux0, v, from, cxs, cl)[c] == aux0[c] {
      assert Marks(v, from, cxs, cl, c) == {};
    }
  }

  /** The visits of one more slot. */
  lemma VisitsNext(tbl: seq<int>, i: nat, n: nat)
    requires i < |tbl| && SlotsIn(tbl, n)
    ensures var v := Visits(tbl[..i]);
            Visits(tbl[..i + 1])
            == if tbl[i] == NoCx || (v != [] && tbl[i] == v[|v| - 1]) then v else v + [tbl[i]]
    ensures tbl[i] == NoCx || 0 <= tbl[i] < n
  {
    assert tbl[..i + 1][..i] == tbl[..i];
  }

  /** Marking keeps the owner of a character and whether it is claimed. */
  lemma MarkedKeepsOwner(aux0: seq<CxAux>, v: seq<int>, from: nat, cxs: seq<CxRecord>, cl: seq<Claim>, c: nat)
    requires c < |aux0|
    ensures Marked(aux0, v, from, cxs, cl)[c].wi == aux0[c].wi
    ensures WAny in Marked(aux0, v, from, cxs, cl)[c].flags <==> WAny in aux0[c].flags
  {
    MarksOnlySegments(v, from, cxs, cl, c);
  }

  /** The body of the main loop for a new character `cx`: its pair with
      the previous one is counted and flagged. */
  method Visit(cxs: seq<CxRecord>, wdata: seq<TxmlToken>, aux: array<CxAux>, ghost aux0: seq<CxAux>,
               from: nat, ghost v: seq<int>, prev: nat, cx: nat, seen: Claim, n: nat)
    returns (n': nat, seen': Claim)
    requires aux.Length == |cxs| == |aux0| && (from == 1 || from == 2)
    requires forall c :: 0 <= c < |aux0| && WAny in aux0[c].flags ==> aux0[c].wi < |wdata|
    requires v != [] && prev == v[|v| - 1] && prev < |cxs| && cx < |cxs| && cx != prev
    requires seen == if |v| >= from then Claims(aux0, wdata)[prev] else Unclaimed
    requires n == Count(v, from, cxs, Claims(aux0, wdata))
    requires aux[..] == Marked(aux0, v, from, cxs, Claims(aux0, wdata))
    modifies aux
    ensures seen' == Claims(aux0, wdata)[cx]
    ensures n' == Count(v + [cx], from, cxs, Claims(aux0, wdata))
    ensures aux[..] == Marked(aux0, v + [cx], from, cxs, Claims(aux0, wdata))
  {
    ghost var cl := Claims(aux0, wdata);
    CountStep(v, cx, from, cxs, cl);
    MarkStep(aux0, v, cx, from, cxs, cl);
    MarkedClaims(aux0, wdata, v, from, cxs, cl);
    MarkedKeepsOwner(aux0, v, from, cxs, cl, cx);
    n', seen' := VisitPair(cxs, wdata, aux, prev, cx, seen, n);
  }

  /** The state of the main loop after the slots before `i`: `v` are the
      visits so far, `prev` the last of them, `seen` the claim it was seen
      with, and the count and the flags are those of the pairs so far. */
  ghost predicate Scanned(tbl: seq<int>, cxs: seq<CxRecord>, wdata: seq<TxmlToken>, aux0: seq<CxAux>,
                          aux: seq<CxAux>, from: nat, v: seq<int>, i: nat, prev: int, seen: Claim, n: nat)
  {
    i <= |tbl| && v == Visits(tbl[..i]) && v != [] && prev == v[|v| - 1] && 0 <= prev < |cxs| == |aux0|
    && seen == (if |v| >= from then Claims(aux0, wdata)[prev] else Unclaimed)
    && n == Count(v, from, cxs, Claims(aux0, wdata))
    && aux == Marked(aux0, v, from, cxs, Claims(aux0, wdata))
  }

  /** One slot of the main loop: a `NoCx` slot or a repeat of the
      previous character is skipped, any other character is visited. */
  method ScanSlot(tbl: seq<int>, cxs: seq<CxRecord>, wdata: seq<TxmlToken>, aux: array<CxAux>, ghost aux0: seq<CxAux>,
                  from: nat, ghost v: seq<int>, i: nat, prev: int, seen: Claim, n: nat)
    returns (ghost v': seq<int>, prev': int, seen': Claim, n': nat)
    requires aux.Length == |cxs| == |aux0| && SlotsIn(tbl, |cxs|) && (from == 1 || from == 2)
    requires forall c :: 0 <= c < |aux0| && WAny in aux0[c].flags ==> aux0[c].wi < |wdata|
    requires i < |tbl| && Scanned(tbl, cxs, wdata, aux0, aux[..], from, v, i, prev, seen, n)
    modifies aux
    ensures Scanned(tbl, cxs, wdata, aux0, aux[..], from, v', i + 1, prev', seen', n')
  {
    var cx := tbl[i];
    VisitsNext(tbl, i, |cxs|);
    v', prev', seen', n' := v, prev, seen, n;
    if cx != NoCx && cx != prev {
      n', seen' := Visit(cxs, wdata, aux, aux0, from, v, prev, cx, seen, n);
      prev' := cx;
      v' := v + [cx];
      ScannedVisit(tbl, cxs, wdata, aux0, aux[..], from, v, i, seen', n');
    } else {
      ScannedSkip(tbl, cxs, wdata, aux0, aux[..], from, v, i, prev, seen, n);
    }
  }

  /** A skipped slot leaves the loop state as it was. */
  lemma ScannedSkip(tbl: seq<int>, cxs: seq<CxRecord>, wdata: seq<TxmlToken>, aux0: seq<CxAux>,
                    aux: seq<CxAux>, from: nat, v: seq<int>, i: nat, prev: int, seen: Claim, n: nat)
    requires i < |tbl| && SlotsIn(tbl, |cxs|) && Scanned(tbl, cxs, wdata, aux0, aux, from, v, i, prev, seen, n)
    requires tbl[i] == NoCx || tbl[i] == prev
    ensures Scanned(tbl, cxs, wdata, aux0, aux, from, v, i + 1, prev, seen, n)
  {
    VisitsNext(tbl, i, |cxs|);
  }

  /** A visited slot extends the visits by its character. */
  lemma ScannedVisit(tbl: seq<int>, cxs: seq<CxRecord>, wdata: seq<TxmlToken>, aux0: seq<CxAux>,
                     aux: seq<CxAux>, from: nat, v: seq<int>, i: nat, seen: Claim, n: nat)
    requires i < |tbl| && SlotsIn(tbl, |cxs|) && |cxs| == |aux0| && (from == 1 || from == 2)
    requires v == Visits(tbl[..i]) && v != [] && tbl[i] != NoCx && tbl[i] != v[|v| - 1]
    requires seen == Claims(aux0, wdata)[tbl[i]]
    requires n == Count(v + [tbl[i]], from, cxs, Claims(aux0, wdata))
    requires aux == Marked(aux0, v + [tbl[i]], from, cxs, Claims(aux0, wdata))
    ensures Scanned(tbl, cxs, wdata, aux0, aux, from, v + [tbl[i]], i + 1, tbl[i], seen, n)
  {
    VisitsNext(tbl, i, |cxs|);
  }

  /** The main loop, from the first visit on; `seen` is the claim the
      previous character was seen with, `Unclaimed` for the first one when
      the loop starts at the second pair. */
  method MarkLoop(tbl: seq<int>, cxs: seq<CxRecord>, wdata: seq<TxmlToken>, aux: array<CxAux>,
                  i0: nat, prev0: int, seen0: Claim, from: nat) returns (n: nat)
    requires aux.Length == |cxs| && SlotsIn(tbl, |cxs|)
    requires forall c :: 0 <= c < aux.Length && WAny in aux[c].flags ==> aux[c].wi < |wdata|
    requires from == 1 || from == 2
    requires i0 <= |tbl|
    requires prev0 == NoCx ==> i0 == |tbl| && Visits(tbl) == []
    requires prev0 != NoCx ==> Visits(tbl[..i0]) == [prev0]
    requires prev0 != NoCx ==> 0 <= prev0 < |cxs|
    requires seen0 == if from == 1 && prev0 != NoCx then Claims(aux[..], wdata)[prev0] else Unclaimed
    modifies aux
    ensures n == Count(Visits(tbl), from, cxs, Claims(old(aux[..]), wdata))
    ensures aux[..] == Marked(old(aux[..]), Visits(tbl), from, cxs, Claims(old(aux[..]), wdata))
  {
    ghost var aux0 := aux[..];
    ghost var cl := Claims(aux0, wdata);
    var i, prev, seen := i0, prev0, seen0;
    n := 0;
    if prev == NoCx {
      MarkedNone(aux0, [], from, cxs, cl);
      return;
    }
    MarkedNone(aux0, [prev], from, cxs, cl);
    ghost var v := [prev];
    while i < |tbl|
      invariant i0 <= i <= |tbl|
      invariant Scanned(tbl, cxs, wdata, aux0, aux[..], from, v, i, prev, seen, n)
    {
      v, prev, seen, n := ScanSlot(tbl, cxs, wdata, aux, aux0, from, v, i, prev, seen, n);
      i := i + 1;
    }
    assert tbl[..i] == tbl;
  }

  /** `mark_discontinuous_segments` as written: the token and sentence of
      the first character are never looked up, so the pair of the first
      and second characters is never checked. */
  method MarkDiscontinuousSegments(tbl: seq<int>, cxs: seq<CxRecord>, wdata: seq<TxmlToken>, aux: array<CxAux>)
    returns (n: nat)
    requires aux.Length == |cxs| && SlotsIn(tbl, |cxs|)
    requires forall c :: 0 <= c < aux.Length && WAny in aux[c].flags ==> aux[c].wi < |wdata|
    modifies aux
    ensures n == Count(Visits(tbl), 2, cxs, Claims(old(aux[..]), wdata))
    ensures aux[..] == Marked(old(aux[..]), Visits(tbl), 2, cxs, Claims(old(aux[..]), wdata))
  {
    var prev, i := FirstVisit(tbl);
    n := MarkLoop(tbl, cxs, wdata, aux, i, prev, Unclaimed, 2);
  }

  /** The same walk with the first character's token and sentence looked
      up before the loop, so that every consecutive pair is checked. */
  method MarkDiscontinuousSegmentsFixed(tbl: seq<int>, cxs: seq<CxRecord>, wdata: seq<TxmlToken>, aux: array<CxAux>)
    returns (n: nat)
    requires aux.Length == |cxs| && SlotsIn(tbl, |cxs|)
    requires forall c :: 0 <= c < aux.Length && WAny in aux[c].flags ==> aux[c].wi < |wdata|
    modifies aux
    ensures n == Count(Visits(tbl), 1, cxs, Claims(old(aux[..]), wdata))
    ensures aux[..] == Marked(old(aux[..]), Visits(tbl), 1, cxs, Claims(old(aux[..]), wdata))
  {
    var prev, i := FirstVisit(tbl);
    var seen := Unclaimed;
    if prev != NoCx {
      seen := Who(aux, wdata, prev);
    }
    n := MarkLoop(tbl, cxs, wdata, aux, i, prev, seen, 1);
  }

  /** One visit of the main loop: the pair (`prev`, `cx`) is checked and
      flagged, `seen` being the claim `prev` was seen with. */
  method VisitPair(cxs: seq<CxRecord>, wdata: seq<TxmlToken>, aux: array<CxAux>, prev: nat, cx: nat,
                   seen: Claim, n: nat) returns (n': nat, cur: Claim)
    requires aux.Length == |cxs| && prev < |cxs| && cx < |cxs| && prev != cx
    requires WAny in aux[cx].flags ==> aux[cx].wi < |wdata|
    modifies aux
    ensures cur == Claims(old(aux[..]), wdata)[cx]
    ensures var wb := Gap(cxs, prev, cx) && WSame(seen, cur);
            var sb := Gap(cxs, prev, cx) && SSame(seen, cur);
            n' == n + (if wb then 1 else 0) + (if sb then 1 else 0)
            && aux[..] == PairStep(old(aux[..]), prev, cx, wb, sb)
  {
    cur := Who(aux, wdata, cx);
    n' := n;
    ghost var aux0 := aux[..];
    if cxs[cx].xoff > cxs[prev].xoff + cxs[prev].xlen + CXML_ADJACENCY_TOLERANCE {
      if cur.ClaimedBy? && seen.ClaimedBy? && cur.w == seen.w {
        n' := n' + 1;
        aux[cx] := aux[cx].(flags := aux[cx].flags + {WxBegin});
        aux[prev] := aux[prev].(flags := aux[prev].flags + {WxEnd});
      }
      if cur.ClaimedBy? && seen.ClaimedBy? && cur.s == seen.s {
        n' := n' + 1;
        aux[cx] := aux[cx].(flags := aux[cx].flags + {SxBegin});
        aux[prev] := aux[prev].(flags := aux[prev].flags + {SxEnd});
      }
    }
  }
}
