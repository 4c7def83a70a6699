/** mkindex-c/dta-tokwrap-mkindex.c: the expat handlers that write one
    four-field record per `<c>` inside `<text>` and pseudo-records for the
    start and end tags of a fixed list of watched elements. */
module WatchIndex {
  import opened Wrappers
  import opened CStr
  import opened IndexEscape
  import opened IndexRecords

  /** `WATCH_ELTS`: the elements that get `START`/`ATTR`/`END` records. */
  const WATCH_ELTS: seq<seq<char>> :=
    ["lb", "hi", "p", "pb", "table", "row", "cell", "item", "note", "list",
     "div", "head", "ref", "fw", "g", "figure", "front", "body", "back"]

  /** `cb_start` copies the id of a `<c>` opened in `<text>` with an
      unchecked `strcpy`: the write runs past the 256-byte id buffer iff
      the id and its terminating NUL do not fit. */
  predicate CIdOverruns(textDepth: int, isC: bool, name: seq<char>, attrs: seq<seq<char>>)
    requires |attrs| % 2 == 0
  {
    textDepth != 0 && name == "c" && !isC && |CIdOf(attrs)| + 1 > CIDBUFSIZE
  }

  /** `cb_char` appends character data inside `<c>` with an unchecked
      `memcpy`: the write runs past the 256-byte text buffer iff the text
      collected so far and the new data do not fit. */
  predicate CTextOverruns(isC: bool, cTlen: nat, s: seq<char>)
  {
    isC && cTlen + |s| > CTBUFSIZE
  }

  /** A `<c>` in `<text>` whose `xml:id` is 256 bytes long: 257 bytes are
      copied into the 256-byte buffer. */
  lemma CIdOverrunInput()
    ensures CIdOverruns(1, false, "c", ["xml:id", seq(CIDBUFSIZE, _ => 'x')])
  {
    var attrs := ["xml:id", seq(CIDBUFSIZE, _ => 'x')];
    assert AttrValue(attrs, "xml:id") == Some(attrs[1]);
  }

  /** Two runs of character data inside one `<c>`: the first (200 bytes)
      fits, the second (100 bytes) lands past the end of the buffer. */
  lemma CTextOverrunInput()
    ensures !CTextOverruns(true, 0, seq(200, _ => 'x'))
    ensures CTextOverruns(true, 200, seq(100, _ => 'x'))
  {
  }

  /** The parser state `TokWrapData`, zeroed before parsing starts; `idx`
      is the output index file. */
  class TokWrapData {
    var idx: seq<seq<char>>
    var textDepth: int
    var nChrs: nat
    var isC: bool
    const cTbuf: array<char>
    var cTlen: nat
    var cId: seq<char>
    var cXoffset: nat

    /** The text may fill the whole buffer: this copy has no bound
        checks, and a write that would not fit is where the model stops. */
    predicate Valid()
      reads this
    {
      cTbuf.Length == CTBUFSIZE && cTlen <= CTBUFSIZE && |cId| < CIDBUFSIZE
    }

    constructor()
      ensures Valid() && fresh(cTbuf)
      ensures idx == [] && textDepth == 0 && nChrs == 0
      ensures !isC && cTlen == 0 && cId == [] && cXoffset == 0
    {
      idx := [];
      textDepth, nChrs := 0, 0;
      isC := false;
      cTbuf := new char[CTBUFSIZE];
      cTlen, cId, cXoffset := 0, [], 0;
    }

    /** `put_record_watch`: with attributes (`Some`), a `START` record and
        one `ATTR` record per entry; without (`None`), an `END` record. */
    method PutRecordWatch(name: seq<char>, attrs: Option<seq<seq<char>>>, xoff: nat, xcount: nat)
      modifies this
      ensures attrs.Some? ==> idx == old(idx) + StartLines4(name, attrs.value, xoff, xcount)
      ensures attrs.None? ==> idx == old(idx) + [Line4(END_ID, xoff, xcount, -1, name)]
      ensures textDepth == old(textDepth) && nChrs == old(nChrs) && isC == old(isC)
      ensures cTlen == old(cTlen) && cId == old(cId) && cXoffset == old(cXoffset)
    {
      if attrs.Some? {
        var a := attrs.value;
        var lines := AttrRecords4(a, xoff, xcount);
        idx := idx + ([Line4(START_ID, xoff, xcount, -1, name)] + lines);
      } else {
        idx := idx + [Line4(END_ID, xoff, xcount, -1, name)];
      }
    }

    /** `check_watch`: writes the pseudo-record(s) and reports true iff
        `name` is watched; writes nothing otherwise. */
    method CheckWatch(name: seq<char>, attrs: Option<seq<seq<char>>>, xoff: nat, xcount: nat)
      returns (watched: bool)
      modifies this
      ensures watched <==> name in WATCH_ELTS
      ensures watched && attrs.Some? ==> idx == old(idx) + StartLines4(name, attrs.value, xoff, xcount)
      ensures watched && attrs.None? ==> idx == old(idx) + [Line4(END_ID, xoff, xcount, -1, name)]
      ensures !watched ==> idx == old(idx)
      ensures textDepth == old(textDepth) && nChrs == old(nChrs) && isC == old(isC)
      ensures cTlen == old(cTlen) && cId == old(cId) && cXoffset == old(cXoffset)
    {
      var i := 0;
      while i < |WATCH_ELTS|
        invariant 0 <= i <= |WATCH_ELTS|
        invariant name !in WATCH_ELTS[..i]
      {
        if name == WATCH_ELTS[i] {
          PutRecordWatch(name, attrs, xoff, xcount);
          return true;
        }
        assert WATCH_ELTS[..i + 1] == WATCH_ELTS[..i] + [WATCH_ELTS[i]];
        i := i + 1;
      }
      assert WATCH_ELTS[..i] == WATCH_ELTS;
      return false;
    }

    /** `cb_start` for a start tag at XML byte `xoff` spanning `xcount`
        bytes, as written. A `<c>` inside `<text>` opens a character and
        writes nothing; a nested one ends the run with status 3. The id is
        copied with no bound check: when it does not fit, the write lands
        past the end of the buffer and the model stops with `Fault`.
        Every other start tag goes to `check_watch`. */
    method Start(name: seq<char>, attrs: seq<seq<char>>, xoff: nat, xcount: nat) returns (st: Status)
      requires Valid() && |attrs| % 2 == 0
      modifies this
      ensures Valid()
      ensures st == Fault <==> CIdOverruns(old(textDepth), old(isC), name, attrs)
      ensures st == Fault
              ==> idx == old(idx) && textDepth == old(textDepth) && nChrs == old(nChrs) && isC == old(isC)
                  && cTlen == old(cTlen) && cId == old(cId) && cXoffset == old(cXoffset)
      ensures old(textDepth) != 0 && name == "c" && old(isC) ==> st == Exit(3)
      ensures old(textDepth) != 0 && name == "c" && !old(isC) && |CIdOf(attrs)| < CIDBUFSIZE
              ==> st == Continue && idx == old(idx) && isC && cId == CIdOf(attrs) && cXoffset == xoff
                  && cTlen == 0 && nChrs == old(nChrs) + 1 && textDepth == old(textDepth)
      ensures !(old(textDepth) != 0 && name == "c")
              ==> st == Continue
                  && idx == old(idx) + (if name in WATCH_ELTS then StartLines4(name, attrs, xoff, xcount) else [])
                  && textDepth == old(textDepth) + (if name == "text" then 1 else 0)
                  && isC == old(isC) && cTlen == old(cTlen) && cId == old(cId)
                  && cXoffset == old(cXoffset) && nChrs == old(nChrs)
    {
      if textDepth != 0 && name == "c" {
        if isC {
          return Exit(3);
        }
        var id := GetAttr(attrs, "xml:id");
        var cid := if id.Some? then id.value else NIL_ID;
        if |cid| + 1 > CIDBUFSIZE {
          // strcpy past the end of c_id
          return Fault;
        }
        cId := cid;
        cXoffset := xoff;
        cTlen := 0;
        isC := true;
        nChrs := nChrs + 1;
        return Continue;
      } else if name == "text" {
        textDepth := textDepth + 1;
      }
      var _ := CheckWatch(name, Some(attrs), xoff, xcount);
      return Continue;
    }

    /** `cb_start` with the bound check the sibling tools make before the
        copy: an over-long id ends the run with the assertion status 255,
        so the id buffer is never overrun. Otherwise it is `Start`. */
    method StartChecked(name: seq<char>, attrs: seq<seq<char>>, xoff: nat, xcount: nat) returns (st: Status)
      requires Valid() && |attrs| % 2 == 0
      modifies this
      ensures Valid()
      ensures st != Fault
      ensures st == Exit(255) <==> CIdOverruns(old(textDepth), old(isC), name, attrs)
      ensures st == Exit(255)
              ==> idx == old(idx) && textDepth == old(textDepth) && nChrs == old(nChrs) && isC == old(isC)
                  && cTlen == old(cTlen) && cId == old(cId) && cXoffset == old(cXoffset)
      ensures old(textDepth) != 0 && name == "c" && old(isC) ==> st == Exit(3)
      ensures old(textDepth) != 0 && name == "c" && !old(isC) && |CIdOf(attrs)| < CIDBUFSIZE
              ==> st == Continue && idx == old(idx) && isC && cId == CIdOf(attrs) && cXoffset == xoff
                  && cTlen == 0 && nChrs == old(nChrs) + 1 && textDepth == old(textDepth)
      ensures !(old(textDepth) != 0 && name == "c")
              ==> st == Continue
                  && idx == old(idx) + (if name in WATCH_ELTS then StartLines4(name, attrs, xoff, xcount) else [])
                  && textDepth == old(textDepth) + (if name == "text" then 1 else 0)
                  && isC == old(isC) && cTlen == old(cTlen) && cId == old(cId)
                  && cXoffset == old(cXoffset) && nChrs == old(nChrs)
    {
      if CIdOverruns(textDepth, isC, name, attrs) {
        return Exit(255);
      }
      st := Start(name, attrs, xoff, xcount);
    }

    /** `cb_end` for an end tag at XML byte `xoff` spanning `xcount`
        bytes. Every `</c>` writes the character's record, whose XML range
        runs from the start of `<c>` to the end of `</c>`; every other end
        tag goes to `check_watch` without attributes. */
    method End(name: seq<char>, xoff: nat, xcount: nat)
      requires Valid()
      modifies this
      ensures Valid()
      ensures nChrs == old(nChrs) && cTlen == old(cTlen) && cId == old(cId)
      ensures cXoffset == old(cXoffset)
      ensures name == "c"
              ==> idx == old(idx) + [Line4(cId, cXoffset, xoff + xcount - cXoffset, cTlen, cTbuf[..])]
                  && !isC && textDepth == old(textDepth)
      ensures name != "c"
              ==> idx == old(idx) + (if name in WATCH_ELTS then [Line4(END_ID, xoff, xcount, -1, name)] else [])
                  && isC == old(isC)
                  && textDepth == old(textDepth) - (if name == "text" then 1 else 0)
    {
      if name == "c" {
        // put_record_char
        idx := idx + [Line4(cId, cXoffset, xoff + xcount - cXoffset, cTlen, cTbuf[..])];
        isC := false;
        return;
      }
      if name == "text" {
        textDepth := textDepth - 1;
      }
      var _ := CheckWatch(name, None, xoff, xcount);
    }

    /** `cb_char`, as written: character data inside `<c>` is copied
        with no bound check; when it does not fit, the write lands past
        the end of the buffer and the model stops with `Fault`. All other
        character data is ignored. */
    method Chars(s: seq<char>) returns (st: Status)
      requires Valid()
      modifies this, cTbuf
      ensures Valid()
      ensures st == Fault <==> CTextOverruns(old(isC), old(cTlen), s)
      ensures st != Fault ==> st == Continue
      ensures old(isC) && st == Continue
              ==> cTlen == old(cTlen) + |s| && cTbuf[..cTlen] == old(cTbuf[..cTlen]) + s
      ensures !(old(isC) && st == Continue) ==> cTlen == old(cTlen) && cTbuf[..] == old(cTbuf[..])
      ensures idx == old(idx) && textDepth == old(textDepth)
      ensures nChrs == old(nChrs) && isC == old(isC)
      ensures cId == old(cId) && cXoffset == old(cXoffset)
    {
      if isC {
        if cTlen + |s| > CTBUFSIZE {
          // memcpy past the end of c_tbuf
          return Fault;
        }
        MemCpy(cTbuf, cTlen, s);
        cTlen := cTlen + |s|;
      }
      return Continue;
    }

    /** `cb_char` with the bound check the sibling tools make before the
        copy, which keeps a byte to spare: data that would reach the end
        of the buffer ends the run with the assertion status 255, so the
        buffer is never overrun. Otherwise it is `Chars`. */
    method CharsChecked(s: seq<char>) returns (st: Status)
      requires Valid()
      modifies this, cTbuf
      ensures Valid()
      ensures st != Fault
      ensures st == Exit(255) <==> old(isC) && old(cTlen) + |s| >= CTBUFSIZE
      ensures st != Exit(255) ==> st == Continue
      ensures old(isC) && st == Continue
              ==> cTlen == old(cTlen) + |s| && cTlen < CTBUFSIZE && cTbuf[..cTlen] == old(cTbuf[..cTlen]) + s
      ensures !(old(isC) && st == Continue) ==> cTlen == old(cTlen) && cTbuf[..] == old(cTbuf[..])
      ensures idx == old(idx) && textDepth == old(textDepth)
      ensures nChrs == old(nChrs) && isC == old(isC)
      ensures cId == old(cId) && cXoffset == old(cXoffset)
    {
      if isC && cTlen + |s| >= CTBUFSIZE {
        return Exit(255);
      }
      st := Chars(s);
    }
  }
}
