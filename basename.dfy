/** `file_basename` (src/dtatwCommon.c): the part of a path after its last
    directory separator, with a suffix removed. */
module PathBase {
  import opened CStr

  predicate IsSep(c: char)
  {
    c == '/' || c == '\\'
  }

  /** The effective length of `src`: `srclen`, or the whole string when
      `srclen` is negative. */
  function SrcLen(src: seq<char>, srclen: int): (n: nat)
    requires srclen <= |src|
    ensures n <= |src|
    ensures srclen >= 0 ==> n == srclen
  {
    if srclen < 0 then |src| else srclen
  }

  /** Whether the suffix is removed: it fits in front of the effective end
      and `strcmp` finds it equal to the rest of the string from there on. */
  predicate SuffixMatches(src: seq<char>, srclen: int, suff: seq<char>)
    requires srclen <= |src|
  {
    SrcLen(src, srclen) >= |suff| && src[SrcLen(src, srclen) - |suff|..] == suff
  }

  /** `base1`: the end of the name, in front of the removed suffix. */
  function StrippedEnd(src: seq<char>, srclen: int, suff: seq<char>): (e: nat)
    requires srclen <= |src|
    ensures e <= SrcLen(src, srclen)
    ensures SuffixMatches(src, srclen, suff) ==> e == SrcLen(src, srclen) - |suff|
    ensures !SuffixMatches(src, srclen, suff) ==> e == SrcLen(src, srclen)
  {
    if SuffixMatches(src, srclen, suff) then SrcLen(src, srclen) - |suff|
    else SrcLen(src, srclen)
  }

  /** `base0`: the last separator at or before `p`, or the start of the
      string when there is none. */
  function SepAtOrBefore(src: seq<char>, p: nat): (q: nat)
    ensures q <= p
    ensures q > 0 ==> IsSep(At(src, q))
    ensures forall m :: q < m <= p ==> !IsSep(At(src, m))
  {
    if IsSep(At(src, p)) || p == 0 then p else SepAtOrBefore(src, p - 1)
  }

  /** What the function leaves behind: an aborted process (the caller's
      buffer is too small), or the buffer holding the name and its NUL,
      with the buffer's capacity. */
  datatype Basename = Overflow | Copied(buffer: seq<char>, capacity: int)

  /** `file_basename(dst, src, suff, srclen, dstlen)`. `dstGiven` tells
      whether the caller passed a buffer (of `dstlen` bytes) or NULL. */
  method FileBasename(src: seq<char>, suff: seq<char>, srclen: int, dstGiven: bool, dstlen: int)
    returns (r: Basename)
    requires forall k :: 0 <= k < |src| ==> src[k] != NUL
    requires srclen <= |src|
    ensures var e := StrippedEnd(src, srclen, suff);
            var b := SepAtOrBefore(src, e);
            && (r.Overflow? <==> dstGiven && dstlen <= e - b)
            && (r.Copied? ==> r.buffer == src[b..e] + [NUL])
            && (r.Copied? && !dstGiven ==>
                 r.capacity == (if dstlen <= 0 then e - b + 1 else dstlen + e - b + 1))
            && (r.Copied? && dstGiven ==> r.capacity == dstlen)
  {
    var len: nat := if srclen < 0 then |src| else srclen;
    var base1: nat := len;
    if len >= |suff| && src[len - |suff|..] == suff {
      base1 := base1 - |suff|;
    }
    var base0: nat := base1;
    while !IsSep(At(src, base0))
      invariant base0 <= base1
      invariant forall m :: base0 < m <= base1 ==> !IsSep(At(src, m))
      decreases base0
    {
      if base0 == 0 {
        break;
      }
      base0 := base0 - 1;
    }
    SepAtOrBeforeIs(src, base1, base0);
    var cap := dstlen;
    if !dstGiven {
      cap := if dstlen <= 0 then base1 - base0 + 1 else dstlen + base1 - base0 + 1;
    }
    if cap <= base1 - base0 {
      return Overflow;
    }
    r := Copied(src[base0..base1] + [NUL], cap);
  }

  /** The backward scan stops exactly where `SepAtOrBefore` says. */
  lemma {:induction false} SepAtOrBeforeIs(src: seq<char>, p: nat, q: nat)
    requires q <= p
    requires IsSep(At(src, q)) || q == 0
    requires forall m :: q < m <= p ==> !IsSep(At(src, m))
    ensures SepAtOrBefore(src, p) == q
    decreases p - q
  {
    if q < p {
      SepAtOrBeforeIs(src, p - 1, q);
    }
  }

  /** The name holds no separator after its first byte, and it starts with
      a separator exactly when the path has one at or before the name's end;
      without one, the name is the whole stripped path. */
  lemma BasenameShape(src: seq<char>, srclen: int, suff: seq<char>)
    requires srclen <= |src|
    ensures var e := StrippedEnd(src, srclen, suff);
            var b := SepAtOrBefore(src, e);
            var name := src[b..e];
            && (forall k :: 1 <= k < |name| ==> !IsSep(name[k]))
            && ((exists m :: 0 <= m <= e && IsSep(At(src, m))) <==> IsSep(At(src, b)))
            && (!IsSep(At(src, b)) ==> name == src[..e])
  {
    var e := StrippedEnd(src, srclen, suff);
    var b := SepAtOrBefore(src, e);
    var name := src[b..e];
    forall k | 1 <= k < |name| ensures !IsSep(name[k]) {
      assert name[k] == At(src, b + k);
    }
    if exists m :: 0 <= m <= e && IsSep(At(src, m)) {
      var m :| 0 <= m <= e && IsSep(At(src, m));
      assert m <= b;
      assert b > 0 || m == 0;
    }
  }
}
