/** Field scanning of `next_tab`, `next_tab_z` and `next_char_z`
    (src/dtatwCommon.h; the static copies in src/dtatw-tok2xml.c are the
    same code). */
module TabScan {
  import opened CStr

  /** A byte that ends a TAB-separated field. */
  predicate IsFieldEnd(c: char)
  {
    c == '\t' || c == '\n' || c == NUL
  }

  /** `next_tab(s + i)`: the first position at or after `i` holding TAB,
      LF or NUL. The scan never passes the terminator, so a start past
      the end of the buffer is returned as it is. */
  function NextTab(s: seq<char>, i: nat): (k: nat)
    ensures i <= k
    ensures IsFieldEnd(At(s, k))
    ensures forall m :: i <= m < k ==> !IsFieldEnd(At(s, m))
    ensures k <= |s| || k == i
    decreases |s| - i
  {
    if i >= |s| || IsFieldEnd(s[i]) then i else NextTab(s, i + 1)
  }

  /** The first position at or after `i` holding `c` or NUL. */
  function NextChar(s: seq<char>, i: nat, c: char): (k: nat)
    ensures i <= k
    ensures At(s, k) == c || At(s, k) == NUL
    ensures forall m :: i <= m < k ==> At(s, m) != c && At(s, m) != NUL
    ensures k <= |s| || k == i
    decreases |s| - i
  {
    if i >= |s| || s[i] == c || s[i] == NUL then i else NextChar(s, i + 1, c)
  }

  /** A buffer holding a C string from position `i` on: a NUL follows. */
  predicate Terminated(buf: array<char>, i: nat)
    reads buf
  {
    exists k :: i <= k < buf.Length && buf[k] == NUL
  }

  /** `next_tab_z(buf + i)`: finds the end of the field starting at `i`,
      overwrites it with NUL, and changes nothing else. */
  method NextTabZ(buf: array<char>, i: nat) returns (k: nat)
    requires Terminated(buf, i)
    modifies buf
    ensures k < buf.Length && k == NextTab(old(buf[..]), i)
    ensures buf[..] == old(buf[..])[k := NUL]
  {
    k := i;
    while buf[k] != NUL && buf[k] != '\t' && buf[k] != '\n'
      invariant i <= k < buf.Length
      invariant Terminated(buf, k)
      invariant forall m :: i <= m < k ==> !IsFieldEnd(buf[m])
      decreases buf.Length - k
    {
      k := k + 1;
    }
    NextTabFrom(buf[..], i, k);
    buf[k] := NUL;
  }

  /** `next_char_z(buf + i, c)`: finds the first `c` or NUL at or after `i`,
      overwrites it with NUL, and changes nothing else. */
  method NextCharZ(buf: array<char>, i: nat, c: char) returns (k: nat)
    requires Terminated(buf, i)
    modifies buf
    ensures k < buf.Length && k == NextChar(old(buf[..]), i, c)
    ensures buf[..] == old(buf[..])[k := NUL]
  {
    k := i;
    while buf[k] != NUL && buf[k] != c
      invariant i <= k < buf.Length
      invariant Terminated(buf, k)
      invariant forall m :: i <= m < k ==> buf[m] != c && buf[m] != NUL
      decreases buf.Length - k
    {
      k := k + 1;
    }
    NextCharFrom(buf[..], i, c, k);
    buf[k] := NUL;
  }

  /** The scan result is characterised by its contract: a stop byte at `k`
      and none before it. */
  lemma {:induction false} NextTabFrom(s: seq<char>, i: nat, k: nat)
    requires i <= k < |s|
    requires IsFieldEnd(s[k])
    requires forall m :: i <= m < k ==> !IsFieldEnd(s[m])
    ensures NextTab(s, i) == k
    decreases k - i
  {
    if i < k {
      NextTabFrom(s, i + 1, k);
    }
  }

  lemma {:induction false} NextCharFrom(s: seq<char>, i: nat, c: char, k: nat)
    requires i <= k < |s|
    requires s[k] == c || s[k] == NUL
    requires forall m :: i <= m < k ==> s[m] != c && s[m] != NUL
    ensures NextChar(s, i, c) == k
    decreases k - i
  {
    if i < k {
      NextCharFrom(s, i + 1, c, k);
    }
  }

  /** A field from `i` to `e` followed by TAB, LF or the end of the line:
      the scan from its start stops right behind it. This is how the
      loaders find the end of each field. */
  lemma NextTabField(s: seq<char>, i: nat, e: nat)
    requires i <= e <= |s|
    requires forall m :: i <= m < e ==> !IsFieldEnd(s[m])
    requires e == |s| || IsFieldEnd(s[e])
    ensures NextTab(s, i) == e
  {
    if e < |s| {
      NextTabFrom(s, i, e);
    } else {
      NextTabToEnd(s, i);
    }
  }

  lemma {:induction false} NextTabToEnd(s: seq<char>, i: nat)
    requires i <= |s|
    requires forall m :: i <= m < |s| ==> !IsFieldEnd(s[m])
    ensures NextTab(s, i) == |s|
    decreases |s| - i
  {
    if i < |s| {
      NextTabToEnd(s, i + 1);
    }
  }
}
