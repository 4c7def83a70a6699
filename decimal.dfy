/** Decimal numerals as the index files carry them: written with `%lu` /
    `%d` and read back with `strtoul` / `strtol`. */
module Decimal {
  import opened CStr

  predicate IsDigit(c: char)
  {
    '0' <= c <= '9'
  }

  predicate AllDigits(s: seq<char>)
  {
    forall k :: 0 <= k < |s| ==> IsDigit(s[k])
  }

  function DigitChar(d: nat): (c: char)
    requires d < 10
    ensures IsDigit(c) && c as int - '0' as int == d
  {
    ('0' as int + d) as char
  }

  /** `printf("%lu", n)`: the shortest decimal numeral for `n`. */
  function Dec(n: nat): (s: seq<char>)
    ensures |s| >= 1 && AllDigits(s)
    ensures s[0] == '0' ==> n == 0
  {
    if n < 10 then [DigitChar(n)] else Dec(n / 10) + [DigitChar(n % 10)]
  }

  /** `printf("%d", x)`: a minus sign for negative values. */
  function SDec(x: int): (s: seq<char>)
    ensures |s| >= 1 && NoTabNewline(s)
    ensures x >= 0 ==> s == Dec(x)
    ensures x < 0 ==> s[0] == '-' && s[1..] == Dec(-x)
  {
    if x >= 0 then Dec(x) else "-" + Dec(-x)
  }

  /** The value of a numeral, most significant digit first. */
  function DigitsValue(s: seq<char>): nat
    requires AllDigits(s)
  {
    if s == [] then 0
    else DigitsValue(s[..|s| - 1]) * 10 + (s[|s| - 1] as int - '0' as int)
  }

  /** Reading a written numeral gives the number back. */
  lemma {:induction false} DecValue(n: nat)
    ensures DigitsValue(Dec(n)) == n
  {
    if n >= 10 {
      var s := Dec(n);
      assert s[..|s| - 1] == Dec(n / 10);
      DecValue(n / 10);
    }
  }

  /** The end of the run of digits starting at `i`. */
  function DigitRunEnd(s: seq<char>, i: nat): (j: nat)
    ensures i <= j && (j <= |s| || j == i)
    ensures !IsDigit(At(s, j))
    ensures forall m :: i <= m < j ==> IsDigit(At(s, m))
    decreases |s| - i
  {
    if i >= |s| || !IsDigit(s[i]) then i else DigitRunEnd(s, i + 1)
  }

  /** The end of the run of `isspace` bytes starting at `i`. */
  function SpaceRunEnd(s: seq<char>, i: nat): (j: nat)
    ensures i <= j && (j <= |s| || j == i)
    ensures !IsSpace(At(s, j))
    decreases |s| - i
  {
    if i >= |s| || !IsSpace(s[i]) then i else SpaceRunEnd(s, i + 1)
  }

  /** `strtoul(s + i, &tail, 0)` on decimal input: leading white space is
      skipped and the following digits are read. The result is the value
      and the tail position; with no digits, the value is 0 and the tail is
      `i` itself, as the C library specifies. */
  function StrToUL(s: seq<char>, i: nat): (r: (nat, nat))
    ensures r.1 == i || r.1 > i
    ensures r.1 == i ==> r.0 == 0
    ensures r.1 > i ==> IsDigit(At(s, r.1 - 1)) && !IsDigit(At(s, r.1))
  {
    var b := SpaceRunEnd(s, i);
    var e := DigitRunEnd(s, b);
    if e == b then (0, i)
    else
      DigitSlice(s, b, e);
      (DigitsValue(s[b..e]), e)
  }

  lemma DigitSlice(s: seq<char>, b: nat, e: nat)
    requires b < e && (e <= |s| || e == b)
    requires forall m :: b <= m < e ==> IsDigit(At(s, m))
    ensures e <= |s| && AllDigits(s[b..e])
  {
    forall k | 0 <= k < e - b ensures IsDigit(s[b..e][k]) {
      assert IsDigit(At(s, b + k));
    }
  }

  /** A numeral written with `%lu` at position `i` and followed by a
      byte that is not a digit reads back as the number it was written
      from. */
  lemma StrToULDec(s: seq<char>, i: nat, n: nat)
    requires i + |Dec(n)| <= |s| && s[i..i + |Dec(n)|] == Dec(n)
    requires i + |Dec(n)| == |s| || !IsDigit(s[i + |Dec(n)|])
    ensures StrToUL(s, i) == (n, i + |Dec(n)|)
  {
    var d := Dec(n);
    var e := i + |d|;
    forall m | i <= m < e ensures IsDigit(s[m]) {
      assert s[m] == d[m - i];
    }
    assert SpaceRunEnd(s, i) == i;
    DigitRunField(s, i, e);
    DecValue(n);
  }

  /** A run of digits at position `i`, followed by a byte that is not
      a digit, reads back as its value. */
  lemma StrToULDigits(s: seq<char>, i: nat, d: seq<char>)
    requires d != [] && AllDigits(d)
    requires i + |d| <= |s| && s[i..i + |d|] == d
    requires i + |d| == |s| || !IsDigit(s[i + |d|])
    ensures StrToUL(s, i) == (DigitsValue(d), i + |d|)
  {
    assert s[i] == d[0];
    assert SpaceRunEnd(s, i) == i;
    forall m | i <= m < i + |d| ensures IsDigit(s[m]) {
      assert s[m] == d[m - i];
    }
    DigitRunField(s, i, i + |d|);
  }

  /** The same behind one blank: `strtoul` skips it. */
  lemma StrToULSpaceDigits(s: seq<char>, i: nat, d: seq<char>)
    requires d != [] && AllDigits(d)
    requires i < |s| && s[i] == ' '
    requires i + 1 + |d| <= |s| && s[i + 1..i + 1 + |d|] == d
    requires i + 1 + |d| == |s| || !IsDigit(s[i + 1 + |d|])
    ensures StrToUL(s, i) == (DigitsValue(d), i + 1 + |d|)
  {
    assert s[i + 1] == d[0];
    assert SpaceRunEnd(s, i + 1) == i + 1;
    assert SpaceRunEnd(s, i) == i + 1;
    forall m | i + 1 <= m < i + 1 + |d| ensures IsDigit(s[m]) {
      assert s[m] == d[m - i - 1];
    }
    DigitRunField(s, i + 1, i + 1 + |d|);
  }

  lemma {:induction false} DigitRunField(s: seq<char>, i: nat, e: nat)
    requires i <= e <= |s|
    requires forall m :: i <= m < e ==> IsDigit(s[m])
    requires e == |s| || !IsDigit(s[e])
    ensures DigitRunEnd(s, i) == e
    decreases e - i
  {
    if i < e {
      DigitRunField(s, i + 1, e);
    }
  }
}
