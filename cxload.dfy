/** Loading of the character index (`.cx`) and block index (`.bx`) in
    src/dtatw-tok2xml.c: `loadCxFile`, `loadBxFile` and the record
    pushes. */
module IndexLoad {
  import opened CStr
  import opened TabScan
  import opened Decimal
  import opened GrowBuf
  import opened IndexEscape
  import opened IndexRecords

  /** `cxRecord`: one `<c>` of the source document. */
  datatype CxRecord = CxRecord(id: seq<char>, xoff: nat, xlen: int, toff: nat, tlen: int)

  /** `bxRecord`: one block of the text stream. */
  datatype BxRecord = BxRecord(key: seq<char>, elt: seq<char>, xoff: nat, xlen: nat,
                               toff: nat, tlen: nat, otoff: nat, otlen: nat)

  /** `cxdata` and `bxdata` start with room for this many records. */
  const CXDATA_INITIAL_ALLOC: nat := 8192
  const BXDATA_INITIAL_ALLOC: nat := 1024

  /** A comment line: it starts with `%%`. */
  predicate IsComment(line: seq<char>)
  {
    At(line, 0) == '%' && At(line, 1) == '%'
  }

  /** `count` repetitions of the step `s0 = s1+1; s1 = next_tab(s0);
      v = strtoul(s0, ...)`, starting from the end `e` of a field: the
      numbers read, in order. */
  function Numbers(line: seq<char>, e: nat, count: nat): (ns: seq<nat>)
    ensures |ns| == count
    decreases count
  {
    if count == 0 then []
    else [StrToUL(line, e + 1).0] + Numbers(line, NextTab(line, e + 1), count - 1)
  }

  /** The record `loadCxFile` builds from one line: the id up to the first
      field end, then XML offset, XML length, text offset and text length.
      The text field is not read. */
  function ParseCxLine(line: seq<char>): (cx: CxRecord)
    ensures |cx.id| <= |line| && cx.id == line[..|cx.id|] && IsFieldEnd(At(line, |cx.id|))
    ensures forall m :: 0 <= m < |cx.id| ==> !IsFieldEnd(At(line, m))
  {
    var e0 := NextTab(line, 0);
    var ns := Numbers(line, e0, 4);
    CxRecord(line[..e0], ns[0], ns[1], ns[2], ns[3])
  }

  /** The record `loadBxFile` builds from one line: sort key, element
      name, then six numbers. */
  function ParseBxLine(line: seq<char>): (bx: BxRecord)
    ensures |bx.key| <= |line| && bx.key == line[..|bx.key|] && IsFieldEnd(At(line, |bx.key|))
  {
    var e0 := NextTab(line, 0);
    var e1 := NextTab(line, e0 + 1);
    var ns := Numbers(line, e1, 6);
    BxRecord(line[..e0], if e1 <= |line| then line[e0 + 1..e1] else [],
             ns[0], ns[1], ns[2], ns[3], ns[4], ns[5])
  }

  /** The records a `.cx` or `.bx` file yields: one per line that is
      not a comment, in file order. */
  function Records<R>(parse: seq<char> -> R, lines: seq<seq<char>>): seq<R>
  {
    if lines == [] then []
    else Records(parse, lines[..|lines| - 1])
         + (if IsComment(lines[|lines| - 1]) then [] else [parse(lines[|lines| - 1])])
  }

  /** The number of lines that are not comments. */
  function RecordLineCount(lines: seq<seq<char>>): nat
  {
    if lines == [] then 0
    else RecordLineCount(lines[..|lines| - 1]) + (if IsComment(lines[|lines| - 1]) then 0 else 1)
  }

  /** Exactly one record per non-comment line. */
  lemma {:induction false} RecordsCount<R>(parse: seq<char> -> R, lines: seq<seq<char>>)
    ensures |Records(parse, lines)| == RecordLineCount(lines)
    decreases |lines|
  {
    if lines != [] {
      RecordsCount(parse, lines[..|lines| - 1]);
    }
  }

  lemma RecordsStep<R>(parse: seq<char> -> R, lines: seq<seq<char>>, i: nat)
    requires i < |lines|
    ensures Records(parse, lines[..i + 1])
            == Records(parse, lines[..i]) + (if IsComment(lines[i]) then [] else [parse(lines[i])])
  {
    assert lines[..i + 1][..i] == lines[..i];
  }

  /** The body of the loop below: a comment line is skipped, any other
      line is parsed and its record pushed. */
  method LoadLine<R(0)>(buf: RecordBuffer<R>, line: seq<char>, parse: seq<char> -> R)
    requires buf.Valid()
    modifies buf.Repr
    ensures buf.Valid() && fresh(buf.Repr - old(buf.Repr))
    ensures buf.Contents() == old(buf.Contents()) + (if IsComment(line) then [] else [parse(line)])
  {
    if !IsComment(line) {
      var _ := buf.Push(parse(line));
    }
  }

  /** The loop shared by `loadCxFile` and `loadBxFile`: reads the lines
      in order and pushes one parsed record per non-comment line. */
  method LoadLines<R(0)>(buf: RecordBuffer<R>, lines: seq<seq<char>>, parse: seq<char> -> R)
    requires buf.Valid()
    modifies buf.Repr
    ensures buf.Valid() && fresh(buf.Repr - old(buf.Repr))
    ensures buf.Contents() == old(buf.Contents()) + Records(parse, lines)
  {
    ghost var c0 := buf.Contents();
    var i := 0;
    while i < |lines|
      invariant 0 <= i <= |lines|
      invariant buf.Valid() && fresh(buf.Repr - old(buf.Repr))
      invariant buf.Contents() == c0 + Records(parse, lines[..i])
    {
      RecordsStep(parse, lines, i);
      LoadLine(buf, lines[i], parse);
      i := i + 1;
    }
    assert lines[..i] == lines;
  }

  /** `loadCxFile`. */
  method LoadCxFile(cxdata: RecordBuffer<CxRecord>, lines: seq<seq<char>>)
    requires cxdata.Valid()
    modifies cxdata.Repr
    ensures cxdata.Valid() && fresh(cxdata.Repr - old(cxdata.Repr))
    ensures cxdata.Contents() == old(cxdata.Contents()) + Records(ParseCxLine, lines)
  {
    LoadLines(cxdata, lines, ParseCxLine);
  }

  /** `loadBxFile`. */
  method LoadBxFile(bxdata: RecordBuffer<BxRecord>, lines: seq<seq<char>>)
    requires bxdata.Valid()
    modifies bxdata.Repr
    ensures bxdata.Valid() && fresh(bxdata.Repr - old(bxdata.Repr))
    ensures bxdata.Contents() == old(bxdata.Contents()) + Records(ParseBxLine, lines)
  {
    LoadLines(bxdata, lines, ParseBxLine);
  }

  /** A numeral at position `p` of a line, followed by a TAB: reading
      there gives the number back and the field ends at the TAB. */
  lemma NumberFieldAt(line: seq<char>, p: nat, n: nat)
    requires p + |Dec(n)| < |line| && line[p..p + |Dec(n)|] == Dec(n) && line[p + |Dec(n)|] == '\t'
    ensures StrToUL(line, p).0 == n && NextTab(line, p) == p + |Dec(n)|
  {
    var d := Dec(n);
    var q := p + |d|;
    StrToULDec(line, p, n);
    forall m | p <= m < q ensures !IsFieldEnd(line[m]) {
      assert line[m] == d[m - p];
    }
    NextTabField(line, p, q);
  }

  /** Fields, each after a TAB, then `tail`. */
  function TabFields(fs: seq<seq<char>>, tail: seq<char>): (r: seq<char>)
    ensures tail != [] && tail[0] == '\t' ==> r != [] && r[0] == '\t'
  {
    if fs == [] then tail else "\t" + fs[0] + TabFields(fs[1..], tail)
  }

  /** After the field end at `e`, `line` holds the fields `fs`, each
      followed by a TAB. */
  predicate FieldsAt(line: seq<char>, e: nat, fs: seq<seq<char>>)
    decreases |fs|
  {
    fs == [] ||
    (var q := e + 1 + |fs[0]|;
     q < |line| && line[e + 1..q] == fs[0] && line[q] == '\t' && FieldsAt(line, q, fs[1..]))
  }

  lemma SplitField(line: seq<char>, e: nat, f: seq<char>, after: seq<char>)
    requires e <= |line| && line[e..] == "\t" + f + after
    ensures e + 1 + |f| <= |line| && line[e + 1..e + 1 + |f|] == f && line[e + 1 + |f|..] == after
  {
    assert line[e + 1..e + 1 + |f|] == line[e..][1..1 + |f|];
    assert line[e + 1 + |f|..] == line[e..][1 + |f|..];
  }

  /** The fields written by `TabFields` are found where they were
      written, when a TAB follows the last one. */
  lemma {:induction false} TabFieldsAt(line: seq<char>, e: nat, fs: seq<seq<char>>, tail: seq<char>)
    requires tail != [] && tail[0] == '\t'
    requires e <= |line| && line[e..] == TabFields(fs, tail)
    ensures FieldsAt(line, e, fs)
    decreases |fs|
  {
    if fs != [] {
      var q := e + 1 + |fs[0]|;
      var after := TabFields(fs[1..], tail);
      assert line[e..] == "\t" + fs[0] + after;
      SplitField(line, e, fs[0], after);
      assert line[q] == after[0] == '\t' by {
        assert line[q] == line[q..][0];
      }
      TabFieldsAt(line, q, fs[1..], tail);
    }
  }

  lemma TabFieldsCons(f: seq<char>, fs: seq<seq<char>>, tail: seq<char>)
    ensures TabFields([f] + fs, tail) == "\t" + f + TabFields(fs, tail)
  {
    assert ([f] + fs)[1..] == fs;
  }

  lemma TabFieldsFour(a: seq<char>, b: seq<char>, c: seq<char>, d: seq<char>, tail: seq<char>)
    ensures TabFields([a, b, c, d], tail) == "\t" + a + ("\t" + b + ("\t" + c + ("\t" + d + tail)))
  {
    TabFieldsCons(d, [], tail);
    assert [d] == [d] + [];
    TabFieldsCons(c, [d], tail);
    assert [c, d] == [c] + [d];
    TabFieldsCons(b, [c, d], tail);
    assert [b, c, d] == [b] + [c, d];
    TabFieldsCons(a, [b, c, d], tail);
    assert [a, b, c, d] == [a] + [b, c, d];
  }

  lemma TabStep(f: seq<char>, s: seq<char>, t: seq<char>)
    requires "\t" + s + "\n" == t
    ensures "\t" + (f + "\t" + s) + "\n" == "\t" + f + t
  {
  }

  /** A six-field line as `put_record_raw` writes it: the id, then the
      other fields each after a TAB. */
  lemma Line6Tabs(f0: seq<char>, f1: seq<char>, f2: seq<char>, f3: seq<char>, f4: seq<char>,
                  f5: seq<char>)
    ensures Join([f0, f1, f2, f3, f4, f5]) + "\n" == f0 + TabFields([f1, f2, f3, f4], "\t" + f5 + "\n")
  {
    JoinSix(f0, f1, f2, f3, f4, f5);
    TabFieldsFour(f1, f2, f3, f4, "\t" + f5 + "\n");
    var s4 := f4 + "\t" + f5;
    var t4 := "\t" + f4 + ("\t" + f5 + "\n");
    TabStep(f4, f5, "\t" + f5 + "\n");
    var s3 := f3 + "\t" + s4;
    var t3 := "\t" + f3 + t4;
    TabStep(f3, s4, t4);
    var s2 := f2 + "\t" + s3;
    var t2 := "\t" + f2 + t3;
    TabStep(f2, s3, t3);
    var s1 := f1 + "\t" + s2;
    var t1 := "\t" + f1 + t2;
    TabStep(f1, s2, t2);
    assert f0 + "\t" + s1 + "\n" == f0 + ("\t" + s1 + "\n");
  }

  /** The numerals of `ns`, in order. */
  function Decs(ns: seq<nat>): (fs: seq<seq<char>>)
    ensures |fs| == |ns| && forall i :: 0 <= i < |ns| ==> fs[i] == Dec(ns[i])
  {
    seq(|ns|, i requires 0 <= i < |ns| => Dec(ns[i]))
  }

  lemma NumbersStep(line: seq<char>, e: nat, count: nat, v: nat, k: nat)
    requires count > 0 && StrToUL(line, e + 1).0 == v && NextTab(line, e + 1) == k
    ensures Numbers(line, e, count) == [v] + Numbers(line, k, count - 1)
  {
  }

  /** Reading numbers field by field from `e` recovers the numerals
      written there. */
  lemma {:induction false} NumbersAtRead(line: seq<char>, e: nat, ns: seq<nat>)
    requires FieldsAt(line, e, Decs(ns))
    ensures Numbers(line, e, |ns|) == ns
    decreases |ns|
  {
    if ns != [] {
      var fs := Decs(ns);
      var tl := ns[1..];
      var q := e + 1 + |Dec(ns[0])|;
      assert fs[0] == Dec(ns[0]) && fs[1..] == Decs(tl);
      assert FieldsAt(line, q, Decs(tl));
      assert StrToUL(line, e + 1).0 == ns[0] && NextTab(line, e + 1) == q by {
        NumberFieldAt(line, e + 1, ns[0]);
      }
      NumbersStep(line, e, |ns|, ns[0], q);
      NumbersAtRead(line, q, tl);
      assert ns == [ns[0]] + tl;
    }
  }

  /** The character index written by mkindex2 loads back into the records
      it was written from: `loadCxFile` reading a `put_record_raw` line
      gets the id, the offsets and the lengths (a negative text length
      having been written as 0). */
  lemma {:induction false} ParseCxLineRecord(id: seq<char>, xoff: nat, xlen: nat, toff: nat, tlen: int,
                                             txt: seq<char>)
    requires forall m :: 0 <= m < |id| ==> !IsFieldEnd(id[m])
    ensures ParseCxLine(Line6(id, xoff, xlen, toff, tlen, txt))
            == CxRecord(id, xoff, xlen, toff, if tlen < 0 then 0 else tlen)
  {
    var t: nat := if tlen < 0 then 0 else tlen;
    var ns := [xoff, xlen, toff, t];
    var fs := [Dec(xoff), SDec(xlen), Dec(toff), SDec(t)];
    var tail := "\t" + IndexEscaped(CPrefix(txt, tlen)) + "\n";
    var line := Line6(id, xoff, xlen, toff, tlen, txt);
    assert line == id + TabFields(fs, tail) by {
      Line6Tabs(id, Dec(xoff), SDec(xlen), Dec(toff), SDec(t), IndexEscaped(CPrefix(txt, tlen)));
    }
    CxLineParts(line, id, fs, ns, tail);
  }

  /** A line made of an id and four numerals, each after a TAB, parses to
      the record of those numbers. */
  lemma CxLineParts(line: seq<char>, id: seq<char>, fs: seq<seq<char>>, ns: seq<nat>, tail: seq<char>)
    requires forall m :: 0 <= m < |id| ==> !IsFieldEnd(id[m])
    requires |ns| == 4 && fs == Decs(ns) && tail != [] && tail[0] == '\t'
    requires line == id + TabFields(fs, tail)
    ensures ParseCxLine(line) == CxRecord(id, ns[0], ns[1], ns[2], ns[3])
  {
    var rest := TabFields(fs, tail);
    assert line[..|id|] == id && line[|id|..] == rest;
    assert NextTab(line, 0) == |id| by {
      forall m | 0 <= m < |id| ensures !IsFieldEnd(line[m]) {
        assert line[m] == id[m];
      }
      assert line[|id|] == rest[0];
      NextTabField(line, 0, |id|);
    }
    assert Numbers(line, |id|, 4) == ns by {
      TabFieldsAt(line, |id|, fs, tail);
      NumbersAtRead(line, |id|, ns);
    }
  }
}
