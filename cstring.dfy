/** C strings as sequences of bytes. Each `char` stands for one byte. A
    buffer is a `seq<char>`; reading at or past its end reads the NUL
    terminator, as reading a C string's terminator does. */
module CStr {
  const NUL: char := '\0'

  /** The byte at position `i` of a NUL-terminated buffer. */
  function At(s: seq<char>, i: int): (c: char)
    ensures 0 <= i < |s| ==> c == s[i]
    ensures (i < 0 || i >= |s|) ==> c == NUL
  {
    if 0 <= i < |s| then s[i] else NUL
  }

  /** `isspace` in the C locale: space, TAB, LF, VT, FF, CR. */
  predicate IsSpace(c: char)
  {
    c == ' ' || 9 <= c as int <= 13
  }

  /** The position at which a loop `for (i=0; s[i] && (len < 0 || i < len); i++)`
      that starts at `i` stops. */
  function CEndFrom(s: seq<char>, len: int, i: nat): (n: nat)
    requires i <= |s|
    requires len >= 0 ==> i <= len
    ensures i <= n <= |s|
    ensures forall k :: i <= k < n ==> s[k] != NUL
    ensures n == |s| || s[n] == NUL || n == len
    ensures len >= 0 ==> n <= len
    decreases |s| - i
  {
    if i == |s| || s[i] == NUL || (len >= 0 && i == len) then i
    else CEndFrom(s, len, i + 1)
  }

  /** The number of bytes such a loop visits from the start of `s`. */
  function CEnd(s: seq<char>, len: int): (n: nat)
    ensures n <= |s|
    ensures forall k :: 0 <= k < n ==> s[k] != NUL
    ensures n == |s| || s[n] == NUL || n == len
    ensures len >= 0 ==> n <= len
  {
    CEndFrom(s, if len >= 0 && len < |s| then len else -1, 0)
  }

  /** The bytes such a loop visits: up to the first NUL, and no more than
      `len` of them when `len >= 0`. */
  function CPrefix(s: seq<char>, len: int): (p: seq<char>)
    ensures |p| <= |s| && p == s[..|p|]
    ensures forall k :: 0 <= k < |p| ==> p[k] != NUL
    ensures len >= 0 ==> |p| <= len
  {
    s[..CEnd(s, len)]
  }

  /** A buffer free of NUL is visited whole when no limit applies. */
  lemma CPrefixWhole(s: seq<char>, len: int)
    requires forall k :: 0 <= k < |s| ==> s[k] != NUL
    requires len < 0 || len >= |s|
    ensures CPrefix(s, len) == s
  {
  }

  /** Holds no TAB and no LF: stays inside one field of one index line. */
  predicate NoTabNewline(s: seq<char>)
  {
    forall k :: 0 <= k < |s| ==> s[k] != '\t' && s[k] != '\n'
  }

  /** `memcpy(buf + at, s, |s|)`. */
  method MemCpy(buf: array<char>, at: nat, s: seq<char>)
    requires at + |s| <= buf.Length
    modifies buf
    ensures buf[..at] == old(buf[..at]) && buf[at..at + |s|] == s
    ensures buf[at + |s|..] == old(buf[at + |s|..])
  {
    var i := 0;
    while i < |s|
      invariant 0 <= i <= |s|
      invariant buf[..at] == old(buf[..at]) && buf[at..at + i] == s[..i]
      invariant buf[at + |s|..] == old(buf[at + |s|..])
    {
      buf[at + i] := s[i];
      i := i + 1;
    }
  }
}
