/** src/dtatw-check-depth.c: reports the greatest element nesting depth
    of an XML document. The two counters are `unsigned`: they wrap
    modulo 2^32. */
module CheckDepth {

  /** The range of a C `unsigned`. */
  const U32: int := 0x1_0000_0000

  /** A start tag or an end tag; the handlers look at nothing else. */
  datatype Event = StartTag | EndTag

  /** `d_cur` after a run of events: `++` and `--` on an `unsigned`. */
  function Cur(events: seq<Event>): (d: nat)
    ensures d < U32
  {
    if events == [] then 0
    else
      var c := Cur(events[..|events| - 1]);
      if events[|events| - 1].StartTag? then (c + 1) % U32 else (c - 1) % U32
  }

  /** `d_max` after a run of events: raised on a start tag whenever the
      new depth exceeds it. */
  function Max(events: seq<Event>): (d: nat)
    ensures d < U32
  {
    if events == [] then 0
    else
      var m := Max(events[..|events| - 1]);
      if events[|events| - 1].StartTag? && Cur(events) > m then Cur(events) else m
  }

  /** The nesting depth after a run of events: start tags minus end tags. */
  function Depth(events: seq<Event>): int
  {
    if events == [] then 0
    else Depth(events[..|events| - 1]) + (if events[|events| - 1].StartTag? then 1 else -1)
  }

  /** The greatest depth reached after any prefix of the run. */
  function Peak(events: seq<Event>): int
  {
    if events == [] then 0
    else var p := Peak(events[..|events| - 1]); if Depth(events) > p then Depth(events) else p
  }

  /** Every prefix of the run closes no more elements than it opened, and
      the depth stays below 2^32: what expat's well-formedness check and
      a document that fits in memory give. */
  predicate Nested(events: seq<Event>)
  {
    forall i :: 0 <= i <= |events| ==> 0 <= Depth(events[..i]) < U32
  }

  lemma NestedPrefix(events: seq<Event>, n: nat)
    requires Nested(events) && n <= |events|
    ensures Nested(events[..n])
  {
    forall i | 0 <= i <= n
      ensures 0 <= Depth(events[..n][..i]) < U32
    {
      assert events[..n][..i] == events[..i];
    }
  }

  /** On a nested run, the counters do not wrap: `d_cur` is the depth and
      `d_max` the greatest depth reached so far, so `d_max >= d_cur`. */
  lemma {:induction false} CountersAreDepths(events: seq<Event>)
    requires Nested(events)
    ensures Cur(events) == Depth(events)
    ensures Max(events) == Peak(events)
    ensures Max(events) >= Cur(events)
  {
    if events != [] {
      var pre := events[..|events| - 1];
      NestedPrefix(events, |events| - 1);
      CountersAreDepths(pre);
      assert events[..|events|] == events;
      assert 0 <= Depth(events) < U32;
      assert Peak(pre) >= Depth(pre) by {
        PeakAtLeastDepth(pre);
      }
    }
  }

  lemma {:induction false} PeakAtLeastDepth(events: seq<Event>)
    ensures Peak(events) >= Depth(events) && Peak(events) >= 0
  {
    if events != [] {
      PeakAtLeastDepth(events[..|events| - 1]);
    }
  }

  /** `d_max` never decreases: a longer run has at least the peak of any
      of its prefixes. */
  lemma {:induction false} MaxMonotone(events: seq<Event>, n: nat)
    requires n <= |events|
    ensures Max(events[..n]) <= Max(events)
    decreases |events| - n
  {
    if n < |events| {
      var pre := events[..|events| - 1];
      assert pre[..n] == events[..n];
      MaxMonotone(pre, n);
    } else {
      assert events[..n] == events;
    }
  }

  /** A balanced nested run ends with `d_cur` back at 0. */
  lemma Balanced(events: seq<Event>)
    requires Nested(events) && Depth(events) == 0
    ensures Cur(events) == 0
  {
    CountersAreDepths(events);
  }

  /** The handler state (`ParseData` without the parser). */
  class DepthData {
    var dCur: nat
    var dMax: nat

    /** `memset` and the two explicit zero assignments. */
    constructor()
      ensures dCur == 0 && dMax == 0
    {
      dCur, dMax := 0, 0;
    }

    /** `cb_start`. */
    method Start()
      requires dCur < U32 && dMax < U32
      modifies this
      ensures dCur == (old(dCur) + 1) % U32
      ensures dMax == if dCur > old(dMax) then dCur else old(dMax)
    {
      dCur := (dCur + 1) % U32;
      if dCur > dMax {
        dMax := dCur;
      }
    }

    /** `cb_end`. */
    method End()
      requires dCur < U32
      modifies this
      ensures dCur == (old(dCur) - 1) % U32 && dMax == old(dMax)
    {
      dCur := (dCur - 1) % U32;
    }
  }

  /** The parse: zeroed counters, then each event to its handler; the
      result is the `d_max` the program prints. */
  method MaxDepth(events: seq<Event>) returns (dCur: nat, dMax: nat)
    ensures dCur == Cur(events) && dMax == Max(events)
  {
    var data := new DepthData();
    var i := 0;
    while i < |events|
      invariant i <= |events|
      invariant data.dCur == Cur(events[..i]) && data.dMax == Max(events[..i])
    {
      assert events[..i + 1][..i] == events[..i];
      if events[i].StartTag? {
        data.Start();
      } else {
        data.End();
      }
      i := i + 1;
    }
    assert events[..i] == events;
    dCur, dMax := data.dCur, data.dMax;
  }
}
