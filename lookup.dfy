/** The reverse lookup vectors of src/dtatw-tok2xml.c: `txb2cx` maps each
    byte of the tx stream to the character record that produced it and
    `txtb2cx` maps each byte of the normalised txt stream to a character
    record, or to none for hint blocks. A record pointer is modelled as
    the record's index in `cxdata`, and NULL as `NoCx`. */
module CharLookup {
  import opened Wrappers
  import opened IndexLoad

  const NoCx: int := -1

  /** Record `cx` produced tx byte `b`. */
  predicate CxCovers(cx: CxRecord, b: int)
  {
    cx.toff <= b < cx.toff + cx.tlen
  }

  /** The last of the first `n` records that covers tx byte `b`, or
      `NoCx`: later records overwrite earlier ones. */
  function CxOwner(cxs: seq<CxRecord>, n: nat, b: int): (r: int)
    requires n <= |cxs|
    ensures r == NoCx || (0 <= r < n && CxCovers(cxs[r], b))
  {
    if n == 0 then NoCx
    else if CxCovers(cxs[n - 1], b) then n - 1
    else CxOwner(cxs, n - 1, b)
  }

  /** No record after the owner covers the byte, and no record at all
      when there is no owner. */
  lemma {:induction false} CxOwnerLast(cxs: seq<CxRecord>, n: nat, b: int, j: nat)
    requires j < n <= |cxs| && CxCovers(cxs[j], b)
    ensures CxOwner(cxs, n, b) != NoCx && j <= CxOwner(cxs, n, b)
  {
    if j < n - 1 && !CxCovers(cxs[n - 1], b) {
      CxOwnerLast(cxs, n - 1, b, j);
    }
  }

  /** `ntxb`: one past the last byte of the last record. */
  function TxBytes(cxs: seq<CxRecord>): int
    requires cxs != []
  {
    cxs[|cxs| - 1].toff + cxs[|cxs| - 1].tlen
  }

  /** The records stay inside the vector: the writes of `init_txb2ci`
      are in bounds. A consistent index has this shape;
      on any other the loop writes past the end of the vector. */
  predicate CxInside(cxs: seq<CxRecord>)
    requires cxs != []
  {
    forall i :: 0 <= i < |cxs| ==> cxs[i].tlen <= 0 || cxs[i].toff + cxs[i].tlen <= TxBytes(cxs)
  }

  /** The inner loop of both builders: `tbl[lo..hi)` gets `v`. */
  method Mark(tbl: array<int>, lo: nat, hi: int, v: int)
    requires hi <= lo || hi <= tbl.Length
    modifies tbl
    ensures forall b :: 0 <= b < tbl.Length ==> tbl[b] == (if lo <= b < hi then v else old(tbl[b]))
  {
    var k := lo;
    while k < hi
      invariant lo <= k && (k <= hi || k == lo)
      invariant forall b :: 0 <= b < tbl.Length ==> tbl[b] == (if lo <= b < k then v else old(tbl[b]))
    {
      tbl[k] := v;
      k := k + 1;
    }
  }

  /** `init_txb2ci`: the vector has one slot per tx byte; each slot holds
      the last record covering that byte, or none. An empty index fails
      its assertion (exit status 255), and so does a vector size that
      wraps below zero, which no allocation can satisfy. A record that
      reaches past the last record's end is written past the end of the
      vector: the model stops there with `Fault`. */
  method InitTxb2Cx(cxs: seq<CxRecord>) returns (st: Status, txb2cx: array<int>)
    ensures st == Exit(255) <==> cxs == [] || TxBytes(cxs) < 0
    ensures st == Fault <==> cxs != [] && TxBytes(cxs) >= 0 && !CxInside(cxs)
    ensures st == Continue <==> cxs != [] && TxBytes(cxs) >= 0 && CxInside(cxs)
    ensures st == Continue ==> txb2cx.Length == TxBytes(cxs)
    ensures st == Continue ==> forall b :: 0 <= b < txb2cx.Length ==> txb2cx[b] == CxOwner(cxs, |cxs|, b)
  {
    if cxs == [] || TxBytes(cxs) < 0 {
      st := Exit(255);
      txb2cx := new int[0];
      return;
    }
    st := Continue;
    txb2cx := new int[TxBytes(cxs)](_ => NoCx);
    var cxi := 0;
    while cxi < |cxs|
      invariant cxi <= |cxs|
      invariant forall i :: 0 <= i < cxi ==> cxs[i].tlen <= 0 || cxs[i].toff + cxs[i].tlen <= TxBytes(cxs)
      invariant forall b :: 0 <= b < txb2cx.Length ==> txb2cx[b] == CxOwner(cxs, cxi, b)
    {
      var cx := cxs[cxi];
      if cx.tlen > 0 && cx.toff + cx.tlen > txb2cx.Length {
        // txb2cx[txi] past ntxb
        st := Fault;
        return;
      }
      Mark(txb2cx, cx.toff, cx.toff + cx.tlen, cxi);
      cxi := cxi + 1;
    }
  }

  /** Txt byte `b` lies in block `bx`, which is real text (not a hint). */
  predicate BxCovers(bx: BxRecord, b: int)
  {
    bx.tlen > 0 && bx.otoff <= b < bx.otoff + bx.otlen
  }

  /** The slot `init_txtb2ci` leaves for txt byte `b` after the first `n`
      blocks: the tx-byte lookup of the corresponding byte of the last
      text block covering `b`, or `NoCx`. */
  function TxtOwner(bxs: seq<BxRecord>, n: nat, txb: seq<int>, b: int): (r: int)
    requires n <= |bxs|
    requires forall i :: 0 <= i < n && BxCovers(bxs[i], b) ==> bxs[i].toff + bxs[i].otlen <= |txb|
  {
    if n == 0 then NoCx
    else if BxCovers(bxs[n - 1], b) then txb[bxs[n - 1].toff + (b - bxs[n - 1].otoff)]
    else TxtOwner(bxs, n - 1, txb, b)
  }

  /** A byte in no text block (only in hints, or in nothing) stays NULL. */
  lemma {:induction false} TxtOwnerNone(bxs: seq<BxRecord>, n: nat, txb: seq<int>, b: int)
    requires n <= |bxs|
    requires forall i :: 0 <= i < n ==> !BxCovers(bxs[i], b)
    ensures TxtOwner(bxs, n, txb, b) == NoCx
  {
    if n > 0 {
      TxtOwnerNone(bxs, n - 1, txb, b);
    }
  }

  /** A byte of a text block that no later text block covers maps through
      `txb2cx` at the same distance from the block start. */
  lemma {:induction false} TxtOwnerLast(bxs: seq<BxRecord>, n: nat, txb: seq<int>, b: int, i: nat)
    requires i < n <= |bxs|
    requires forall k :: 0 <= k < n && BxCovers(bxs[k], b) ==> bxs[k].toff + bxs[k].otlen <= |txb|
    requires BxCovers(bxs[i], b) && forall k :: i < k < n ==> !BxCovers(bxs[k], b)
    ensures TxtOwner(bxs, n, txb, b) == txb[bxs[i].toff + (b - bxs[i].otoff)]
  {
    if i < n - 1 {
      TxtOwnerLast(bxs, n - 1, txb, b, i);
    }
  }

  /** `ntxtb`: one past the last byte of the last block. */
  function TxtBytes(bxs: seq<BxRecord>): nat
    requires bxs != []
  {
    bxs[|bxs| - 1].otoff + bxs[|bxs| - 1].otlen
  }

  /** Non-empty text blocks stay inside both vectors: the reads and
      writes of `init_txtb2ci` are in bounds. A consistent index has
      this shape; on any other the loop reads and writes past the ends of
      the vectors. */
  predicate BxInside(bxs: seq<BxRecord>, ntxb: nat)
    requires bxs != []
  {
    forall i :: 0 <= i < |bxs| && bxs[i].tlen > 0 && bxs[i].otlen > 0 ==>
      bxs[i].otoff + bxs[i].otlen <= TxtBytes(bxs) && bxs[i].toff + bxs[i].otlen <= ntxb
  }

  /** The inner loop of `init_txtb2ci`: `dst[dlo + i] = src[slo + i]` for
      `i < n`. */
  method CopyRange(dst: array<int>, dlo: nat, src: array<int>, slo: nat, n: nat)
    requires dst != src && dlo + n <= dst.Length && slo + n <= src.Length
    modifies dst
    ensures forall b :: 0 <= b < dst.Length ==>
              dst[b] == (if dlo <= b < dlo + n then src[slo + (b - dlo)] else old(dst[b]))
  {
    var i := 0;
    while i < n
      invariant i <= n
      invariant forall b :: 0 <= b < dst.Length ==>
                  dst[b] == (if dlo <= b < dlo + i then src[slo + (b - dlo)] else old(dst[b]))
    {
      dst[dlo + i] := src[slo + i];
      i := i + 1;
    }
  }

  /** `init_txtb2ci`: one slot per txt byte; text blocks copy their
      tx-byte lookups across, hint blocks (`tlen == 0`) leave their range
      NULL. An empty block index fails its assertion (exit status 255). A
      text block that reaches past either vector is read or written past
      its end: the model stops there with `Fault`. */
  method InitTxtb2Cx(bxs: seq<BxRecord>, txb2cx: array<int>) returns (st: Status, txtb2cx: array<int>)
    ensures st == Exit(255) <==> bxs == []
    ensures st == Fault <==> bxs != [] && !BxInside(bxs, txb2cx.Length)
    ensures st == Continue <==> bxs != [] && BxInside(bxs, txb2cx.Length)
    ensures st == Continue ==> txtb2cx.Length == TxtBytes(bxs) && fresh(txtb2cx)
    ensures st == Continue ==> forall b :: 0 <= b < txtb2cx.Length ==>
              txtb2cx[b] == TxtOwner(bxs, |bxs|, txb2cx[..], b)
  {
    if bxs == [] {
      st := Exit(255);
      txtb2cx := new int[0];
      return;
    }
    st := Continue;
    txtb2cx := new int[TxtBytes(bxs)](_ => NoCx);
    var bxi := 0;
    while bxi < |bxs|
      invariant bxi <= |bxs|
      invariant forall i :: 0 <= i < bxi && bxs[i].tlen > 0 && bxs[i].otlen > 0 ==>
                  bxs[i].otoff + bxs[i].otlen <= TxtBytes(bxs) && bxs[i].toff + bxs[i].otlen <= txb2cx.Length
      invariant forall b :: 0 <= b < txtb2cx.Length ==> txtb2cx[b] == TxtOwner(bxs, bxi, txb2cx[..], b)
    {
      var bx := bxs[bxi];
      // an empty block touches neither vector
      if bx.tlen > 0 && bx.otlen > 0 {
        if bx.otoff + bx.otlen > txtb2cx.Length || bx.toff + bx.otlen > txb2cx.Length {
          // txb2cx[bx->toff+txti] or txtb2cx[bx->otoff+txti] past the end
          st := Fault;
          return;
        }
        CopyRange(txtb2cx, bx.otoff, txb2cx, bx.toff, bx.otlen);
      }
      bxi := bxi + 1;
    }
  }
}
