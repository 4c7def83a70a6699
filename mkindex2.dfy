/** mkindex-c/dta-tokwrap-mkindex2.c: the expat handlers that write the
    character index (one six-field record per `<c>` inside `<text>`) and
    the raw text stream. */
module Mkindex2 {
  import opened Wrappers
  import opened CStr
  import opened IndexEscape
  import opened IndexRecords

  /** The parser state `TokWrapData`, zeroed before parsing starts. The
      output files are the sequences `cx` (index lines) and `tx` (text);
      `hasCx` and `hasTx` say whether each file is open. */
  class TokWrapData {
    const hasCx: bool
    const hasTx: bool
    var cx: seq<seq<char>>
    var tx: seq<char>
    var textDepth: int
    var totalDepth: int
    var nChrs: nat
    var isC: bool
    const cTbuf: array<char>
    var cTlen: nat
    var cId: seq<char>
    var cXoffset: nat
    var cToffset: nat

    predicate Valid()
      reads this
    {
      cTbuf.Length == CTBUFSIZE && cTlen < CTBUFSIZE && |cId| < CIDBUFSIZE
    }

    constructor(hasCx: bool, hasTx: bool)
      ensures Valid() && fresh(cTbuf)
      ensures this.hasCx == hasCx && this.hasTx == hasTx
      ensures cx == [] && tx == [] && textDepth == 0 && totalDepth == 0 && nChrs == 0
      ensures !isC && cTlen == 0 && cId == [] && cXoffset == 0 && cToffset == 0
    {
      this.hasCx, this.hasTx := hasCx, hasTx;
      cx, tx := [], [];
      textDepth, totalDepth, nChrs := 0, 0, 0;
      isC := false;
      cTbuf := new char[CTBUFSIZE];
      cTlen, cId, cXoffset, cToffset := 0, [], 0, 0;
    }

    /** `put_raw_text`: the text goes to the text file, if open; the text
        offset advances in either case. */
    method PutRawText(txt: seq<char>)
      modifies this
      ensures tx == old(tx) + (if hasTx then txt else [])
      ensures cToffset == old(cToffset) + |txt|
      ensures cx == old(cx) && textDepth == old(textDepth) && totalDepth == old(totalDepth)
      ensures nChrs == old(nChrs) && isC == old(isC) && cTlen == old(cTlen)
      ensures cId == old(cId) && cXoffset == old(cXoffset)
    {
      if hasTx {
        tx := tx + txt;
      }
      cToffset := cToffset + |txt|;
    }

    /** `cb_start` for a start tag at XML byte `xoff`. A `<c>` inside
        `<text>` opens a character; a nested one ends the run with status
        3, an over-long id with the assertion status 255. */
    method Start(name: seq<char>, attrs: seq<seq<char>>, xoff: nat) returns (st: Status)
      requires Valid() && |attrs| % 2 == 0
      modifies this
      ensures Valid()
      ensures totalDepth == old(totalDepth) + 1
      ensures cx == old(cx) && tx == old(tx) && cToffset == old(cToffset)
      ensures old(textDepth) != 0 && name == "c" && old(isC) ==> st == Exit(3)
      ensures old(textDepth) != 0 && name == "c" && !old(isC) && |CIdOf(attrs)| >= CIDBUFSIZE
              ==> st == Exit(255)
      ensures old(textDepth) != 0 && name == "c" && !old(isC) && |CIdOf(attrs)| < CIDBUFSIZE
              ==> st == Continue && isC && cId == CIdOf(attrs) && cXoffset == xoff
                  && cTlen == 0 && nChrs == old(nChrs) + 1 && textDepth == old(textDepth)
      ensures !(old(textDepth) != 0 && name == "c")
              ==> st == Continue
                  && textDepth == old(textDepth) + (if name == "text" then 1 else 0)
                  && isC == old(isC) && cTlen == old(cTlen) && cId == old(cId)
                  && cXoffset == old(cXoffset) && nChrs == old(nChrs)
    {
      totalDepth := totalDepth + 1;
      if textDepth != 0 && name == "c" {
        if isC {
          return Exit(3);
        }
        var id := GetAttr(attrs, "xml:id");
        var cid := if id.Some? then id.value else NIL_ID;
        if |cid| >= CIDBUFSIZE {
          return Exit(255);
        }
        cId := cid;
        cXoffset := xoff;
        cTlen := 0;
        isC := true;
        nChrs := nChrs + 1;
        return Continue;
      }
      if name == "text" {
        textDepth := textDepth + 1;
      }
      return Continue;
    }

    /** `cb_end` for an end tag at XML byte `xoff` spanning `xcount`
        bytes. Every `</c>` writes the character's record: its XML range
        runs from the start of `<c>` to the end of `</c>`, its text offset
        is the one held before its own text is added. `</lb>` adds a
        newline to the text without a record. */
    method End(name: seq<char>, xoff: nat, xcount: nat)
      requires Valid()
      modifies this
      ensures Valid()
      ensures totalDepth == old(totalDepth) - 1
      ensures nChrs == old(nChrs) && cTlen == old(cTlen) && cId == old(cId)
      ensures cXoffset == old(cXoffset)
      ensures name == "c"
              ==> cx == old(cx) + (if hasCx then [Line6(cId, cXoffset, xoff + xcount - cXoffset,
                                                        old(cToffset), cTlen, cTbuf[..])] else [])
                  && tx == old(tx) + (if hasTx then cTbuf[..cTlen] else [])
                  && cToffset == old(cToffset) + cTlen
                  && !isC && textDepth == old(textDepth)
      ensures name != "c"
              ==> cx == old(cx) && isC == old(isC)
                  && textDepth == old(textDepth) - (if name == "text" then 1 else 0)
                  && tx == old(tx) + (if hasTx && name == "lb" then "\n" else [])
                  && cToffset == old(cToffset) + (if name == "lb" then 1 else 0)
    {
      totalDepth := totalDepth - 1;
      if name == "c" {
        // put_record_char
        if hasCx {
          cx := cx + [Line6(cId, cXoffset, xoff + xcount - cXoffset, cToffset, cTlen, cTbuf[..])];
        }
        PutRawText(cTbuf[..cTlen]);
        isC := false;
        return;
      }
      if name == "text" {
        textDepth := textDepth - 1;
      } else if name == "lb" {
        PutRawText("\n");
      }
    }

    /** `cb_char`: character data inside `<c>` is appended to the
        character's text buffer, which must keep a byte to spare. */
    method Chars(s: seq<char>) returns (st: Status)
      requires Valid()
      modifies this, cTbuf
      ensures Valid()
      ensures old(isC) && old(cTlen) + |s| >= CTBUFSIZE ==> st == Exit(255)
      ensures old(isC) && old(cTlen) + |s| < CTBUFSIZE
              ==> st == Continue && cTlen == old(cTlen) + |s|
                  && cTbuf[..cTlen] == old(cTbuf[..cTlen]) + s
      ensures !(old(isC) && old(cTlen) + |s| < CTBUFSIZE) ==> cTlen == old(cTlen) && cTbuf[..] == old(cTbuf[..])
      ensures !old(isC) ==> st == Continue
      ensures cx == old(cx) && tx == old(tx) && textDepth == old(textDepth)
      ensures totalDepth == old(totalDepth) && nChrs == old(nChrs) && isC == old(isC)
      ensures cId == old(cId) && cXoffset == old(cXoffset) && cToffset == old(cToffset)
    {
      if isC {
        if cTlen + |s| >= CTBUFSIZE {
          return Exit(255);
        }
        MemCpy(cTbuf, cTlen, s);
        cTlen := cTlen + |s|;
      }
      return Continue;
    }
  }
}
