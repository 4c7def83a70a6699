/** Byte-by-byte rewriting, as the emitting loops of this code base do it:
    each input byte is replaced by a short string. */
module FlatMaps {
  /** The concatenation of `f(s[0])`, `f(s[1])`, ..., left to right. */
  function FlatMap<T>(f: T -> seq<T>, s: seq<T>): seq<T>
  {
    if s == [] then [] else FlatMap(f, s[..|s| - 1]) + f(s[|s| - 1])
  }

  /** Rewriting a concatenation gives the concatenation of the rewrites. */
  lemma {:induction false} FlatMapAppend<T>(f: T -> seq<T>, a: seq<T>, b: seq<T>)
    ensures FlatMap(f, a + b) == FlatMap(f, a) + FlatMap(f, b)
    decreases |b|
  {
    if b == [] {
      assert a + b == a;
    } else {
      var b' := b[..|b| - 1];
      assert (a + b)[..|a + b| - 1] == a + b';
      assert (a + b)[|a + b| - 1] == b[|b| - 1];
      FlatMapAppend(f, a, b');
    }
  }

  /** One more byte adds its own rewrite at the end. */
  lemma FlatMapSnoc<T>(f: T -> seq<T>, a: seq<T>, x: T)
    ensures FlatMap(f, a + [x]) == FlatMap(f, a) + f(x)
  {
    assert (a + [x])[..|a + [x]| - 1] == a;
  }

  /** A rewrite whose every image avoids a property avoids it throughout. */
  lemma {:induction false} FlatMapAvoids<T>(f: T -> seq<T>, s: seq<T>, bad: T -> bool)
    requires forall x, k :: 0 <= k < |f(x)| ==> !bad(f(x)[k])
    ensures forall k :: 0 <= k < |FlatMap(f, s)| ==> !bad(FlatMap(f, s)[k])
    decreases |s|
  {
    if s != [] {
      FlatMapAvoids(f, s[..|s| - 1], bad);
    }
  }
}
