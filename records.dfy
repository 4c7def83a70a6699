/** The TAB-separated index records written by the tools under
    mkindex-c/, and the attribute lookup they share. */
module IndexRecords {
  import opened Wrappers
  import opened CStr
  import opened Decimal
  import opened IndexEscape

  /** Id written for a `<c>` without `xml:id`. */
  const NIL_ID: seq<char> := "-"
  /** Pseudo-ids of the start-tag, attribute and end-tag records. */
  const START_ID: seq<char> := "$START$"
  const ATTR_ID: seq<char> := "$ATTR$"
  const END_ID: seq<char> := "$END$"
  /** Size of the `c_id` buffer that holds the id of the open `<c>`. */
  const CIDBUFSIZE: nat := 256

  /** expat's attribute list: names at even positions, each followed by
      its value. The position of the first name `aname` from `i` on, or
      the length of the list when there is none. */
  function AttrIndexFrom(attrs: seq<seq<char>>, aname: seq<char>, i: nat): (k: nat)
    requires |attrs| % 2 == 0 && i % 2 == 0 && i <= |attrs|
    ensures i <= k <= |attrs| && k % 2 == 0
    ensures k < |attrs| ==> attrs[k] == aname
    ensures forall j :: i <= j < k && j % 2 == 0 ==> attrs[j] != aname
    decreases |attrs| - i
  {
    if i == |attrs| || attrs[i] == aname then i else AttrIndexFrom(attrs, aname, i + 2)
  }

  /** The value of the first attribute called `aname`, if any. */
  function AttrValue(attrs: seq<seq<char>>, aname: seq<char>): (v: Option<seq<char>>)
    requires |attrs| % 2 == 0
    ensures v.None? <==> forall k :: 0 <= k < |attrs| && k % 2 == 0 ==> attrs[k] != aname
    ensures v.Some? ==> var k := AttrIndexFrom(attrs, aname, 0);
                        k + 1 < |attrs| && attrs[k] == aname && v.value == attrs[k + 1]
  {
    var k := AttrIndexFrom(attrs, aname, 0);
    if k < |attrs| then Some(attrs[k + 1]) else None
  }

  /** expat reports each attribute of a tag once: the names of the flat
      list are pairwise distinct. */
  predicate DistinctNames(attrs: seq<seq<char>>)
  {
    forall j, k :: 0 <= j < k < |attrs| && j % 2 == 0 && k % 2 == 0 ==> attrs[j] != attrs[k]
  }

  /** `get_attr(aname, attrs)`: scans the names pairwise. */
  method GetAttr(attrs: seq<seq<char>>, aname: seq<char>) returns (v: Option<seq<char>>)
    requires |attrs| % 2 == 0
    ensures v == AttrValue(attrs, aname)
  {
    var i := 0;
    while i < |attrs|
      invariant 0 <= i <= |attrs| && i % 2 == 0
      invariant AttrIndexFrom(attrs, aname, i) == AttrIndexFrom(attrs, aname, 0)
    {
      if attrs[i] == aname {
        return Some(attrs[i + 1]);
      }
      i := i + 2;
    }
    return None;
  }

  /** The position of the first TAB, or the length when there is none. */
  function TabIndex(s: seq<char>): (k: nat)
    ensures k <= |s| && (k < |s| ==> s[k] == '\t')
    ensures forall m :: 0 <= m < k ==> s[m] != '\t'
  {
    if s == [] || s[0] == '\t' then 0 else 1 + TabIndex(s[1..])
  }

  /** The TAB-separated fields of a line. */
  function Fields(s: seq<char>): (fs: seq<seq<char>>)
    ensures |fs| >= 1
    decreases |s|
  {
    var k := TabIndex(s);
    if k == |s| then [s] else [s[..k]] + Fields(s[k + 1..])
  }

  lemma FieldsCons(a: seq<char>, b: seq<char>)
    requires NoTabNewline(a)
    ensures Fields(a + "\t" + b) == [a] + Fields(b)
  {
    var s := a + "\t" + b;
    assert s[|a|] == '\t';
    assert forall m :: 0 <= m < |a| ==> s[m] == a[m];
    assert TabIndex(s) == |a| by {
      TabIndexAt(s, |a|);
    }
    assert s[..|a|] == a && s[|a| + 1..] == b;
  }

  lemma {:induction false} TabIndexAt(s: seq<char>, k: nat)
    requires k < |s| && s[k] == '\t'
    requires forall m :: 0 <= m < k ==> s[m] != '\t'
    ensures TabIndex(s) == k
    decreases k
  {
    if k > 0 {
      TabIndexAt(s[1..], k - 1);
    }
  }

  /** Fields joined with one TAB between neighbours. */
  function Join(fs: seq<seq<char>>): seq<char>
    requires |fs| >= 1
  {
    if |fs| == 1 then fs[0] else fs[0] + "\t" + Join(fs[1..])
  }

  /** Splitting at TABs undoes joining, when no field holds a TAB. */
  lemma {:induction false} FieldsJoin(fs: seq<seq<char>>)
    requires |fs| >= 1
    requires forall i :: 0 <= i < |fs| ==> NoTabNewline(fs[i])
    ensures Fields(Join(fs)) == fs
    decreases |fs|
  {
    if |fs| > 1 {
      FieldsJoin(fs[1..]);
      FieldsCons(fs[0], Join(fs[1..]));
      assert [fs[0]] + fs[1..] == fs;
    }
  }

  predicate NoNewline(s: seq<char>)
  {
    forall k :: 0 <= k < |s| ==> s[k] != '\n'
  }

  /** Joined fields without LF make a text without LF. */
  lemma {:induction false} JoinNoNewline(fs: seq<seq<char>>)
    requires |fs| >= 1
    requires forall i :: 0 <= i < |fs| ==> NoTabNewline(fs[i])
    ensures NoNewline(Join(fs))
    decreases |fs|
  {
    if |fs| > 1 {
      JoinNoNewline(fs[1..]);
      var a, b := fs[0], Join(fs[1..]);
      assert NoTabNewline(a);
      forall k | 0 <= k < |a + "\t" + b| ensures (a + "\t" + b)[k] != '\n' {
        if k < |a| { assert (a + "\t" + b)[k] == a[k]; }
        else if k > |a| { assert (a + "\t" + b)[k] == b[k - |a| - 1]; }
      }
    }
  }

  lemma JoinCons(f: seq<char>, fs: seq<seq<char>>)
    requires |fs| >= 1
    ensures Join([f] + fs) == f + "\t" + Join(fs)
  {
    assert ([f] + fs)[1..] == fs;
  }

  lemma JoinSix(f0: seq<char>, f1: seq<char>, f2: seq<char>, f3: seq<char>, f4: seq<char>, f5: seq<char>)
    ensures Join([f0, f1, f2, f3, f4, f5])
            == f0 + "\t" + (f1 + "\t" + (f2 + "\t" + (f3 + "\t" + (f4 + "\t" + f5))))
  {
    JoinCons(f4, [f5]);
    assert [f4, f5] == [f4] + [f5];
    JoinCons(f3, [f4, f5]);
    assert [f3, f4, f5] == [f3] + [f4, f5];
    JoinCons(f2, [f3, f4, f5]);
    assert [f2, f3, f4, f5] == [f2] + [f3, f4, f5];
    JoinCons(f1, [f2, f3, f4, f5]);
    assert [f1, f2, f3, f4, f5] == [f1] + [f2, f3, f4, f5];
    JoinCons(f0, [f1, f2, f3, f4, f5]);
    assert [f0, f1, f2, f3, f4, f5] == [f0] + [f1, f2, f3, f4, f5];
  }

  /** The six-field record of mkindex2 and textindex:
      id, XML offset, XML length, text offset, text length, escaped text. */
  function Line6(id: seq<char>, xoff: nat, xlen: int, toff: nat, tlen: int, txt: seq<char>): seq<char>
  {
    Join([id, Dec(xoff), SDec(xlen), Dec(toff), SDec(if tlen < 0 then 0 else tlen),
          IndexEscaped(CPrefix(txt, tlen))]) + "\n"
  }

  /** The four-field record of lschars and mkindex:
      id, XML offset, XML length, escaped text. */
  function Line4(id: seq<char>, xoff: nat, xlen: int, tlen: int, txt: seq<char>): seq<char>
  {
    Join([id, Dec(xoff), SDec(xlen), IndexEscaped(CPrefix(txt, tlen))]) + "\n"
  }

  /** A four-field record is one line of exactly four fields, the text
      field holding the text escaped. */
  lemma Line4Fields(id: seq<char>, xoff: nat, xlen: int, tlen: int, txt: seq<char>)
    requires NoTabNewline(id)
    ensures var line := Line4(id, xoff, xlen, tlen, txt);
            |line| >= 1 && line[|line| - 1] == '\n'
            && (forall k :: 0 <= k < |line| - 1 ==> line[k] != '\n')
            && Fields(line[..|line| - 1])
               == [id, Dec(xoff), SDec(xlen), IndexEscaped(CPrefix(txt, tlen))]
  {
    var fs := [id, Dec(xoff), SDec(xlen), IndexEscaped(CPrefix(txt, tlen))];
    IndexEscapedShape(CPrefix(txt, tlen));
    FieldsJoin(fs);
    JoinNoNewline(fs);
    var line := Line4(id, xoff, xlen, tlen, txt);
    assert line[..|line| - 1] == Join(fs);
  }

  /** A six-field record is one line of exactly six fields; a negative
      text length is written as 0. */
  lemma Line6Fields(id: seq<char>, xoff: nat, xlen: int, toff: nat, tlen: int, txt: seq<char>)
    requires NoTabNewline(id)
    ensures var line := Line6(id, xoff, xlen, toff, tlen, txt);
            |line| >= 1 && line[|line| - 1] == '\n'
            && (forall k :: 0 <= k < |line| - 1 ==> line[k] != '\n')
            && Fields(line[..|line| - 1])
               == [id, Dec(xoff), SDec(xlen), Dec(toff), Dec(if tlen < 0 then 0 else tlen),
                   IndexEscaped(CPrefix(txt, tlen))]
  {
    var fs := [id, Dec(xoff), SDec(xlen), Dec(toff), SDec(if tlen < 0 then 0 else tlen),
               IndexEscaped(CPrefix(txt, tlen))];
    IndexEscapedShape(CPrefix(txt, tlen));
    FieldsJoin(fs);
    JoinNoNewline(fs);
    var line := Line6(id, xoff, xlen, toff, tlen, txt);
    assert line[..|line| - 1] == Join(fs);
  }

  /** The id recorded for a `<c>`: its `xml:id`, or `NIL_ID` without one. */
  function CIdOf(attrs: seq<seq<char>>): seq<char>
    requires |attrs| % 2 == 0
  {
    match AttrValue(attrs, "xml:id")
    case Some(v) => v
    case None => NIL_ID
  }

  /** The four-field records of a start tag (lschars, mkindex):
      `$START$` with the element name, then one `$ATTR$` per entry of the
      flat attribute list, names and values alike, all with the tag's XML
      range. */
  function StartLines4(name: seq<char>, attrs: seq<seq<char>>, xoff: nat, xlen: nat): seq<seq<char>>
  {
    [Line4(START_ID, xoff, xlen, -1, name)] + AttrLines4(attrs, xoff, xlen)
  }

  function AttrLines4(attrs: seq<seq<char>>, xoff: nat, xlen: nat): seq<seq<char>>
  {
    seq(|attrs|, i requires 0 <= i < |attrs| => Line4(ATTR_ID, xoff, xlen, -1, attrs[i]))
  }

  /** One more attribute adds its `$ATTR$` record at the end. */
  lemma AttrLines4Snoc(attrs: seq<seq<char>>, i: nat, xoff: nat, xlen: nat)
    requires i < |attrs|
    ensures AttrLines4(attrs[..i + 1], xoff, xlen)
            == AttrLines4(attrs[..i], xoff, xlen) + [Line4(ATTR_ID, xoff, xlen, -1, attrs[i])]
  {
  }

  /** The `$ATTR$` records of the attribute loop in `put_record_start`
      (lschars) and `put_record_watch` (mkindex). */
  method AttrRecords4(attrs: seq<seq<char>>, xoff: nat, xlen: nat) returns (lines: seq<seq<char>>)
    ensures lines == AttrLines4(attrs, xoff, xlen)
  {
    lines := [];
    var ai := 0;
    while ai < |attrs|
      invariant 0 <= ai <= |attrs|
      invariant lines == AttrLines4(attrs[..ai], xoff, xlen)
    {
      AttrLines4Snoc(attrs, ai, xoff, xlen);
      lines := lines + [Line4(ATTR_ID, xoff, xlen, -1, attrs[ai])];
      ai := ai + 1;
    }
    assert attrs[..ai] == attrs;
  }
}
