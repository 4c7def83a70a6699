/** mkindex-c/dta-tokwrap-textindex.c: the expat handlers that write one
    six-field record per start tag, attribute, end tag and `<c>`, and the
    raw text stream. */
module TextIndex {
  import opened Wrappers
  import opened CStr
  import opened IndexEscape
  import opened IndexRecords

  /** The records of a start tag: `$START$` with the element name, then
      one `$ATTR$` per entry of the flat attribute list, names and values
      alike, all with the tag's XML range and text offset `toff`. */
  function StartLines(name: seq<char>, attrs: seq<seq<char>>, xoff: nat, xlen: nat, toff: nat): seq<seq<char>>
  {
    [Line6(START_ID, xoff, xlen, toff, -1, name)] + AttrLines(attrs, xoff, xlen, toff)
  }

  function AttrLines(attrs: seq<seq<char>>, xoff: nat, xlen: nat, toff: nat): seq<seq<char>>
  {
    seq(|attrs|, i requires 0 <= i < |attrs| => Line6(ATTR_ID, xoff, xlen, toff, -1, attrs[i]))
  }

  /** One more attribute adds its `$ATTR$` record at the end. */
  lemma AttrLinesSnoc(attrs: seq<seq<char>>, i: nat, xoff: nat, xlen: nat, toff: nat)
    requires i < |attrs|
    ensures AttrLines(attrs[..i + 1], xoff, xlen, toff)
            == AttrLines(attrs[..i], xoff, xlen, toff) + [Line6(ATTR_ID, xoff, xlen, toff, -1, attrs[i])]
  {
  }

  /** The `$ATTR$` records of `put_record_start`'s attribute loop. */
  method AttrRecords(attrs: seq<seq<char>>, xoff: nat, xlen: nat, toff: nat) returns (lines: seq<seq<char>>)
    ensures lines == AttrLines(attrs, xoff, xlen, toff)
  {
    lines := [];
    var ai := 0;
    while ai < |attrs|
      invariant 0 <= ai <= |attrs|
      invariant lines == AttrLines(attrs[..ai], xoff, xlen, toff)
    {
      AttrLinesSnoc(attrs, ai, xoff, xlen, toff);
      lines := lines + [Line6(ATTR_ID, xoff, xlen, toff, -1, attrs[ai])];
      ai := ai + 1;
    }
    assert attrs[..ai] == attrs;
  }

  /** The parser state `TokWrapData`, zeroed before parsing starts. The
      output files are the sequences `ix` (index lines) and `tx` (text);
      `hasIx` and `hasTx` say whether each file is open. */
  class TokWrapData {
    const hasIx: bool
    const hasTx: bool
    var ix: seq<seq<char>>
    var tx: seq<char>
    var textDepth: int
    var nChrs: nat
    var isC: bool
    const cTbuf: array<char>
    var cTlen: nat
    var cId: seq<char>
    var cXoffset: nat
    var cToffset: nat

    predicate Valid()
      reads this
    {
      cTbuf.Length == CTBUFSIZE && cTlen < CTBUFSIZE && |cId| < CIDBUFSIZE
    }

    constructor(hasIx: bool, hasTx: bool)
      ensures Valid() && fresh(cTbuf)
      ensures this.hasIx == hasIx && this.hasTx == hasTx
      ensures ix == [] && tx == [] && textDepth == 0 && nChrs == 0
      ensures !isC && cTlen == 0 && cId == [] && cXoffset == 0 && cToffset == 0
    {
      this.hasIx, this.hasTx := hasIx, hasTx;
      ix, tx := [], [];
      textDepth, nChrs := 0, 0;
      isC := false;
      cTbuf := new char[CTBUFSIZE];
      cTlen, cId, cXoffset, cToffset := 0, [], 0, 0;
    }

    /** `put_raw_text`: the text goes to the text file, if open; the text
        offset advances in either case. */
    method PutRawText(txt: seq<char>)
      modifies this
      ensures tx == old(tx) + (if hasTx then txt else [])
      ensures cToffset == old(cToffset) + |txt|
      ensures ix == old(ix) && textDepth == old(textDepth) && nChrs == old(nChrs)
      ensures isC == old(isC) && cTlen == old(cTlen) && cId == old(cId) && cXoffset == old(cXoffset)
    {
      if hasTx {
        tx := tx + txt;
      }
      cToffset := cToffset + |txt|;
    }

    /** `put_record_start`. */
    method PutRecordStart(name: seq<char>, attrs: seq<seq<char>>, xoff: nat, xcount: nat)
      modifies this
      ensures ix == old(ix) + (if hasIx then StartLines(name, attrs, xoff, xcount, cToffset) else [])
      ensures tx == old(tx) && cToffset == old(cToffset) && textDepth == old(textDepth)
      ensures nChrs == old(nChrs) && isC == old(isC) && cTlen == old(cTlen)
      ensures cId == old(cId) && cXoffset == old(cXoffset)
    {
      var lines := AttrRecords(attrs, xoff, xcount, cToffset);
      if hasIx {
        ix := ix + ([Line6(START_ID, xoff, xcount, cToffset, -1, name)] + lines);
      }
    }

    /** `put_record_end`: one `$END$` record; `</lb>` also adds a newline
        to the text. */
    method PutRecordEnd(name: seq<char>, xoff: nat, xcount: nat)
      modifies this
      ensures ix == old(ix) + (if hasIx then [Line6(END_ID, xoff, xcount, old(cToffset), -1, name)] else [])
      ensures tx == old(tx) + (if hasTx && name == "lb" then "\n" else [])
      ensures cToffset == old(cToffset) + (if name == "lb" then 1 else 0)
      ensures textDepth == old(textDepth) && nChrs == old(nChrs) && isC == old(isC)
      ensures cTlen == old(cTlen) && cId == old(cId) && cXoffset == old(cXoffset)
    {
      if hasIx {
        ix := ix + [Line6(END_ID, xoff, xcount, cToffset, -1, name)];
      }
      if name == "lb" {
        PutRawText("\n");
      }
    }

    /** `cb_start` for a start tag at XML byte `xoff` spanning `xcount`
        bytes. A `<c>` inside `<text>` opens a character and writes
        nothing; a nested one ends the run with status 3, an over-long id
        with the assertion status 255. Every other start tag writes its
        `$START$` and `$ATTR$` records. */
    method Start(name: seq<char>, attrs: seq<seq<char>>, xoff: nat, xcount: nat) returns (st: Status)
      requires Valid() && |attrs| % 2 == 0
      modifies this
      ensures Valid()
      ensures tx == old(tx) && cToffset == old(cToffset)
      ensures old(textDepth) != 0 && name == "c" && old(isC) ==> st == Exit(3)
      ensures old(textDepth) != 0 && name == "c" && !old(isC) && |CIdOf(attrs)| >= CIDBUFSIZE
              ==> st == Exit(255)
      ensures old(textDepth) != 0 && name == "c" && !old(isC) && |CIdOf(attrs)| < CIDBUFSIZE
              ==> st == Continue && ix == old(ix) && isC && cId == CIdOf(attrs) && cXoffset == xoff
                  && cTlen == 0 && nChrs == old(nChrs) + 1 && textDepth == old(textDepth)
      ensures !(old(textDepth) != 0 && name == "c")
              ==> st == Continue
                  && ix == old(ix) + (if hasIx then StartLines(name, attrs, xoff, xcount, cToffset) else [])
                  && textDepth == old(textDepth) + (if name == "text" then 1 else 0)
                  && isC == old(isC) && cTlen == old(cTlen) && cId == old(cId)
                  && cXoffset == old(cXoffset) && nChrs == old(nChrs)
    {
      if textDepth != 0 && name == "c" {
        if isC {
          return Exit(3);
        }
        var id := GetAttr(attrs, "xml:id");
        var cid := if id.Some? then id.value else NIL_ID;
        if |cid| >= CIDBUFSIZE {
          return Exit(255);
        }
        cId := cid;
        cXoffset := xoff;
        cTlen := 0;
        isC := true;
        nChrs := nChrs + 1;
        return Continue;
      }
      if name == "text" {
        textDepth := textDepth + 1;
      }
      PutRecordStart(name, attrs, xoff, xcount);
      return Continue;
    }

    /** `cb_end` for an end tag at XML byte `xoff` spanning `xcount`
        bytes. Every `</c>` writes the character's record and appends its
        text; every other end tag writes an `$END$` record. */
    method End(name: seq<char>, xoff: nat, xcount: nat)
      requires Valid()
      modifies this
      ensures Valid()
      ensures nChrs == old(nChrs) && cTlen == old(cTlen) && cId == old(cId)
      ensures cXoffset == old(cXoffset)
      ensures name == "c"
              ==> ix == old(ix) + (if hasIx then [Line6(cId, cXoffset, xoff + xcount - cXoffset,
                                                        old(cToffset), cTlen, cTbuf[..])] else [])
                  && tx == old(tx) + (if hasTx then cTbuf[..cTlen] else [])
                  && cToffset == old(cToffset) + cTlen
                  && !isC && textDepth == old(textDepth)
      ensures name != "c"
              ==> ix == old(ix) + (if hasIx then [Line6(END_ID, xoff, xcount, old(cToffset), -1, name)] else [])
                  && isC == old(isC)
                  && textDepth == old(textDepth) - (if name == "text" then 1 else 0)
                  && tx == old(tx) + (if hasTx && name == "lb" then "\n" else [])
                  && cToffset == old(cToffset) + (if name == "lb" then 1 else 0)
    {
      if name == "c" {
        // put_record_char
        if hasIx {
          ix := ix + [Line6(cId, cXoffset, xoff + xcount - cXoffset, cToffset, cTlen, cTbuf[..])];
        }
        PutRawText(cTbuf[..cTlen]);
        isC := false;
        return;
      }
      if name == "text" {
        textDepth := textDepth - 1;
      }
      PutRecordEnd(name, xoff, xcount);
    }

    /** `cb_char`: character data inside `<c>` is appended to the
        character's text buffer, which must keep a byte to spare; all
        other character data is ignored. */
    method Chars(s: seq<char>) returns (st: Status)
      requires Valid()
      modifies this, cTbuf
      ensures Valid()
      ensures old(isC) && old(cTlen) + |s| >= CTBUFSIZE ==> st == Exit(255)
      ensures old(isC) && old(cTlen) + |s| < CTBUFSIZE
              ==> st == Continue && cTlen == old(cTlen) + |s|
                  && cTbuf[..cTlen] == old(cTbuf[..cTlen]) + s
      ensures !(old(isC) && old(cTlen) + |s| < CTBUFSIZE) ==> cTlen == old(cTlen) && cTbuf[..] == old(cTbuf[..])
      ensures !old(isC) ==> st == Continue
      ensures ix == old(ix) && tx == old(tx) && textDepth == old(textDepth)
      ensures nChrs == old(nChrs) && isC == old(isC)
      ensures cId == old(cId) && cXoffset == old(cXoffset) && cToffset == old(cToffset)
    {
      if isC {
        if cTlen + |s| >= CTBUFSIZE {
          return Exit(255);
        }
        MemCpy(cTbuf, cTlen, s);
        cTlen := cTlen + |s|;
      }
      return Continue;
    }
  }
}
