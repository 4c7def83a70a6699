/** mkindex-c/dta-tokwrap-lschars.c: the expat handlers that list every
    start tag, attribute, end tag and `<c>` as a four-field record. */
module LsChars {
  import opened Wrappers
  import opened CStr
  import opened IndexEscape
  import opened IndexRecords

  /** The parser state `TokWrapData`, zeroed before parsing starts; `out`
      is the output file. */
  class TokWrapData {
    var out: seq<seq<char>>
    var textDepth: int
    var nChrs: nat
    var isC: bool
    const cTbuf: array<char>
    var cTlen: nat
    var cId: seq<char>
    var cXoffset: nat

    predicate Valid()
      reads this
    {
      cTbuf.Length == CTBUFSIZE && cTlen < CTBUFSIZE && |cId| < CIDBUFSIZE
    }

    constructor()
      ensures Valid() && fresh(cTbuf)
      ensures out == [] && textDepth == 0 && nChrs == 0
      ensures !isC && cTlen == 0 && cId == [] && cXoffset == 0
    {
      out := [];
      textDepth, nChrs := 0, 0;
      isC := false;
      cTbuf := new char[CTBUFSIZE];
      cTlen, cId, cXoffset := 0, [], 0;
    }

    /** `put_record_start`. */
    method PutRecordStart(name: seq<char>, attrs: seq<seq<char>>, xoff: nat, xcount: nat)
      modifies this
      ensures out == old(out) + StartLines4(name, attrs, xoff, xcount)
      ensures textDepth == old(textDepth) && nChrs == old(nChrs) && isC == old(isC)
      ensures cTlen == old(cTlen) && cId == old(cId) && cXoffset == old(cXoffset)
    {
      var lines := AttrRecords4(attrs, xoff, xcount);
      out := out + ([Line4(START_ID, xoff, xcount, -1, name)] + lines);
    }

    /** `cb_start` for a start tag at XML byte `xoff` spanning `xcount`
        bytes. A `<c>` inside `<text>` opens a character and writes
        nothing; a nested one ends the run with status 3, an over-long id
        with the assertion status 255. Every other start tag writes its
        `$START$` and `$ATTR$` records. */
    method Start(name: seq<char>, attrs: seq<seq<char>>, xoff: nat, xcount: nat) returns (st: Status)
      requires Valid() && |attrs| % 2 == 0
      modifies this
      ensures Valid()
      ensures old(textDepth) != 0 && name == "c" && old(isC) ==> st == Exit(3)
      ensures old(textDepth) != 0 && name == "c" && !old(isC) && |CIdOf(attrs)| >= CIDBUFSIZE
              ==> st == Exit(255)
      ensures old(textDepth) != 0 && name == "c" && !old(isC) && |CIdOf(attrs)| < CIDBUFSIZE
              ==> st == Continue && out == old(out) && isC && cId == CIdOf(attrs) && cXoffset == xoff
                  && cTlen == 0 && nChrs == old(nChrs) + 1 && textDepth == old(textDepth)
      ensures !(old(textDepth) != 0 && name == "c")
              ==> st == Continue
                  && out == old(out) + StartLines4(name, attrs, xoff, xcount)
                  && textDepth == old(textDepth) + (if name == "text" then 1 else 0)
                  && isC == old(isC) && cTlen == old(cTlen) && cId == old(cId)
                  && cXoffset == old(cXoffset) && nChrs == old(nChrs)
    {
      if textDepth != 0 && name == "c" {
        if isC {
          return Exit(3);
        }
        var id := GetAttr(attrs, "xml:id");
        var cid := if id.Some? then id.value else NIL_ID;
        if |cid| >= CIDBUFSIZE {
          return Exit(255);
        }
        cId := cid;
        cXoffset := xoff;
        cTlen := 0;
        isC := true;
        nChrs := nChrs + 1;
        return Continue;
      }
      if name == "text" {
        textDepth := textDepth + 1;
      }
      PutRecordStart(name, attrs, xoff, xcount);
      return Continue;
    }

    /** `cb_end` for an end tag at XML byte `xoff` spanning `xcount`
        bytes. Every `</c>` writes the character's record, whose XML range
        runs from the start of `<c>` to the end of `</c>` and whose text
        is the character data collected since; every other end tag writes
        an `$END$` record. */
    method End(name: seq<char>, xoff: nat, xcount: nat)
      requires Valid()
      modifies this
      ensures Valid()
      ensures nChrs == old(nChrs) && cTlen == old(cTlen) && cId == old(cId)
      ensures cXoffset == old(cXoffset)
      ensures name == "c"
              ==> out == old(out) + [Line4(cId, cXoffset, xoff + xcount - cXoffset, cTlen, cTbuf[..])]
                  && !isC && textDepth == old(textDepth)
      ensures name != "c"
              ==> out == old(out) + [Line4(END_ID, xoff, xcount, -1, name)]
                  && isC == old(isC)
                  && textDepth == old(textDepth) - (if name == "text" then 1 else 0)
    {
      if name == "c" {
        // put_record_char
        out := out + [Line4(cId, cXoffset, xoff + xcount - cXoffset, cTlen, cTbuf[..])];
        isC := false;
        return;
      }
      if name == "text" {
        textDepth := textDepth - 1;
      }
      // put_record_end
      out := out + [Line4(END_ID, xoff, xcount, -1, name)];
    }

    /** `cb_char`: character data inside `<c>` is appended to the
        character's text buffer, which must keep a byte to spare; all
        other character data is ignored. */
    method Chars(s: seq<char>) returns (st: Status)
      requires Valid()
      modifies this, cTbuf
      ensures Valid()
      ensures old(isC) && old(cTlen) + |s| >= CTBUFSIZE ==> st == Exit(255)
      ensures old(isC) && old(cTlen) + |s| < CTBUFSIZE
              ==> st == Continue && cTlen == old(cTlen) + |s|
                  && cTbuf[..cTlen] == old(cTbuf[..cTlen]) + s
      ensures !(old(isC) && old(cTlen) + |s| < CTBUFSIZE) ==> cTlen == old(cTlen) && cTbuf[..] == old(cTbuf[..])
      ensures !old(isC) ==> st == Continue
      ensures out == old(out) && textDepth == old(textDepth)
      ensures nChrs == old(nChrs) && isC == old(isC)
      ensures cId == old(cId) && cXoffset == old(cXoffset)
    {
      if isC {
        if cTlen + |s| >= CTBUFSIZE {
          return Exit(255);
        }
        MemCpy(cTbuf, cTlen, s);
        cTlen := cTlen + |s|;
      }
      return Continue;
    }
  }
}
