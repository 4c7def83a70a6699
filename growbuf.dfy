/** The growable record arrays of the realigner: `cxdata` / `bxdata` with
    `pushCxRecord` / `pushBxRecord` (src/dtatw-tok2xml.c) and `sdata` /
    `wdata` with `txmlDataPushSentence` / `txmlDataPushToken`
    (src/dtatw-txml2master.c). All four pushes are the same algorithm over
    a different record type. */
module GrowBuf {
  class RecordBuffer<T(0)> {
    var data: array<T>
    var len: nat
    ghost var Repr: set<object>

    ghost predicate Valid()
      reads this, Repr
    {
      Repr == {this, data} && len < data.Length
    }

    /** The records pushed so far, in order. */
    function Contents(): seq<T>
      reads this, data
      requires len <= data.Length
    {
      data[..len]
    }

    function Capacity(): nat
      reads this
    {
      data.Length
    }

    /** An empty buffer with room for `alloc` records (8192 for `cxdata`,
        1024 for `bxdata`, 8192 for `sdata` and `wdata`). */
    constructor (alloc: nat)
      requires alloc > 0
      ensures Valid() && fresh(Repr)
      ensures Contents() == [] && Capacity() == alloc
    {
      data := new T[alloc];
      len := 0;
      Repr := {this, data};
    }

    /** Appends `x` at index `len` and returns that index. Before writing,
        the capacity doubles when `len + 1 >= alloc`, copying the records
        held so far. */
    method Push(x: T) returns (i: nat)
      requires Valid()
      modifies Repr
      ensures Valid() && fresh(Repr - old(Repr))
      ensures i == old(len) && Contents() == old(Contents()) + [x]
      ensures Capacity() == if old(len) + 1 >= old(Capacity()) then 2 * old(Capacity())
                            else old(Capacity())
    {
      if len + 1 >= data.Length {
        var grown := new T[2 * data.Length];
        var k := 0;
        while k < len
          modifies grown
          invariant k <= len
          invariant grown[..k] == data[..k]
        {
          grown[k] := data[k];
          k := k + 1;
        }
        data := grown;
        Repr := {this, data};
      }
      data[len] := x;
      i := len;
      len := len + 1;
    }
  }
}
