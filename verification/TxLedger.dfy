/**
  What the transaction index means for the main chain: who spent what, and how much is unspent.
*/
module TxLedger {
  import opened Primitives
  import opened TxIndexModel

  type Disk = map<DiskPos, Transaction>

  /** Input k of transaction j spends the output. */
  predicate Spends(ledger: seq<Placed>, j: int, k: int, out: OutPoint) {
    && 0 <= j < |ledger| && !ledger[j].tx.IsCoinBase()
    && 0 <= k < |ledger[j].tx.vin| && ledger[j].tx.vin[k] == out
  }

  /** The index lists exactly the ledger's transactions. */
  ghost predicate Lists(view: Index, ledger: seq<Placed>) {
    && view.Keys == Ids(ledger)
    && forall i :: 0 <= i < |ledger| ==> view[ledger[i].tx.id].pos == ledger[i].pos && |view[ledger[i].tx.id].vSpent| == |ledger[i].tx.vout|
  }

  /** An output's mark names its spender, and is set exactly when there is one. */
  ghost predicate MarksSpenders(view: Index, ledger: seq<Placed>) {
    && (forall j, k, out :: Spends(ledger, j, k, out) ==> InRange(view, out) && Spender(view, out) == ledger[j].pos)
    && (forall out :: InRange(view, out) && Spender(view, out) != NullPos ==> exists j, k :: Spends(ledger, j, k, out))
  }

  ghost predicate NoDoubleSpend(ledger: seq<Placed>) {
    forall j, k, j', k', out :: Spends(ledger, j, k, out) && Spends(ledger, j', k', out) ==> j == j' && k == k'
  }

  lemma SpendsPrefix(ledger: seq<Placed>, j: int, k: int, out: OutPoint)
    requires |ledger| > 0
    ensures Spends(ledger, j, k, out) && j < |ledger| - 1 ==> Spends(ledger[..|ledger| - 1], j, k, out)
    ensures Spends(ledger[..|ledger| - 1], j, k, out) ==> Spends(ledger, j, k, out)
  {
  }

  /** The inputs a transaction spends; a coinbase spends nothing. */
  function Inputs(tx: Transaction): (r: seq<OutPoint>) {
    if tx.IsCoinBase() then [] else tx.vin
  }

  /** How connecting p changes every mark. */
  ghost predicate After(view: Index, view': Index, p: Placed) {
    && (forall out :: InRange(view', out) <==> InRange(view, out) || (out.hash == p.tx.id && out.n < |p.tx.vout|))
    && (forall out :: InRange(view', out) ==>
          Spender(view', out) == if out.hash == p.tx.id then NullPos else if out in Inputs(p.tx) then p.pos else Spender(view, out))
    && (forall k :: 0 <= k < |Inputs(p.tx)| ==> InRange(view, Inputs(p.tx)[k]) && Spender(view, Inputs(p.tx)[k]) == NullPos)
    && (forall j, k :: 0 <= j < k < |Inputs(p.tx)| ==> Inputs(p.tx)[j] != Inputs(p.tx)[k])
  }

  lemma ConnectTxAfter(view: Index, p: Placed)
    requires p.tx.id !in view && p.pos != NullPos && ConnectTx(view, p).Some?
    ensures After(view, ConnectTx(view, p).value, p)
  {
    if !p.tx.IsCoinBase() {
      SpendInputsMarks(view, p.tx.vin, p.pos);
    }
  }

  lemma SpendersStay(view: Index, view': Index, ledger: seq<Placed>, j: int, k: int, out: OutPoint)
    requires |ledger| > 0 && MarksSpenders(view, ledger[..|ledger| - 1]) && After(view, view', ledger[|ledger| - 1])
    requires Located(ledger) && ledger[|ledger| - 1].tx.id !in view && Spends(ledger, j, k, out)
    ensures InRange(view', out) && Spender(view', out) == ledger[j].pos
    ensures InRange(view, out) && (j < |ledger| - 1 ==> Spender(view, out) != NullPos)
    ensures j == |ledger| - 1 ==> Inputs(ledger[j].tx)[k] == out && Spender(view, out) == NullPos
  {
    SpendsPrefix(ledger, j, k, out);
    var p := ledger[|ledger| - 1];
    if j == |ledger| - 1 {
      assert Inputs(p.tx)[k] == out;
    }
    assert InRange(view, out);
  }

  lemma SpenderExists(view: Index, view': Index, ledger: seq<Placed>, out: OutPoint)
    requires |ledger| > 0 && MarksSpenders(view, ledger[..|ledger| - 1]) && After(view, view', ledger[|ledger| - 1])
    requires InRange(view', out) && Spender(view', out) != NullPos
    ensures exists j, k :: Spends(ledger, j, k, out)
  {
    var m := |ledger| - 1;
    if out in Inputs(ledger[m].tx) {
      var k :| 0 <= k < |Inputs(ledger[m].tx)| && Inputs(ledger[m].tx)[k] == out;
      assert Spends(ledger, m, k, out);
    } else {
      assert InRange(view, out) && Spender(view, out) != NullPos;
      var j, k :| Spends(ledger[..m], j, k, out);
      SpendsPrefix(ledger, j, k, out);
    }
  }

  /** One more transaction on a ledger whose index is right. */
  lemma ConnectTxRecords(view: Index, ledger: seq<Placed>)
    requires |ledger| > 0 && Located(ledger)
    requires var k := |ledger| - 1;
      Lists(view, ledger[..k]) && MarksSpenders(view, ledger[..k]) && NoDoubleSpend(ledger[..k]) && ledger[k].tx.id !in view
    requires ConnectTx(view, ledger[|ledger| - 1]).Some?
    ensures var view' := ConnectTx(view, ledger[|ledger| - 1]).value;
      Lists(view', ledger) && MarksSpenders(view', ledger) && NoDoubleSpend(ledger)
  {
    var m := |ledger| - 1;
    var view' := ConnectTx(view, ledger[m]).value;
    ConnectTxAfter(view, ledger[m]);
    ConnectTxLists(view, ledger);
    forall j, k, out | Spends(ledger, j, k, out) ensures InRange(view', out) && Spender(view', out) == ledger[j].pos {
      SpendersStay(view, view', ledger, j, k, out);
    }
    forall out | InRange(view', out) && Spender(view', out) != NullPos ensures exists j, k :: Spends(ledger, j, k, out) {
      SpenderExists(view, view', ledger, out);
    }
    forall j, k, j', k', out | Spends(ledger, j, k, out) && Spends(ledger, j', k', out) ensures j == j' && k == k' {
      SpendsPrefix(ledger, j, k, out);
      SpendsPrefix(ledger, j', k', out);
      SpendersStay(view, view', ledger, j, k, out);
      SpendersStay(view, view', ledger, j', k', out);
    }
  }

  lemma ConnectTxLists(view: Index, ledger: seq<Placed>)
    requires |ledger| > 0 && Lists(view, ledger[..|ledger| - 1]) && Located(ledger)
    requires ledger[|ledger| - 1].tx.id !in view && ConnectTx(view, ledger[|ledger| - 1]).Some?
    ensures Lists(ConnectTx(view, ledger[|ledger| - 1]).value, ledger)
  {
    var m := |ledger| - 1;
    var view' := ConnectTx(view, ledger[m]).value;
    if !ledger[m].tx.IsCoinBase() {
      SpendInputsMarks(view, ledger[m].tx.vin, ledger[m].pos);
    }
    assert Ids(ledger) == Ids(ledger[..m]) + {ledger[m].tx.id};
    forall i | 0 <= i < |ledger|
      ensures view'[ledger[i].tx.id].pos == ledger[i].pos && |view'[ledger[i].tx.id].vSpent| == |ledger[i].tx.vout|
    {
      if i < m {
        assert ledger[..m][i] == ledger[i];
        assert ledger[i].tx.id in Ids(ledger[..m]);
      }
    }
  }

  // ---------------------------------------------------------------- the chain

  /** The index of a main chain, from the empty index. */
  function Replay(ledger: seq<Placed>): (r: Option<Index>) {
    ConnectAll(map[], ledger)
  }

  /** On every main chain: one spender at most per output, named by its mark exactly when it exists. */
  lemma {:induction false} ReplayRecords(ledger: seq<Placed>)
    requires Fresh(map[], ledger) && Located(ledger) && Replay(ledger).Some?
    ensures Lists(Replay(ledger).value, ledger) && MarksSpenders(Replay(ledger).value, ledger) && NoDoubleSpend(ledger)
  {
    if ledger != [] {
      var k := |ledger| - 1;
      FreshPrefix(map[], ledger);
      ReplayRecords(ledger[..k]);
      ConnectTxRecords(Replay(ledger[..k]).value, ledger);
    }
  }

  /** The index lists these transactions, each at its place. */
  ghost predicate Covers(view: Index, ledger: seq<Placed>) {
    forall i :: 0 <= i < |ledger| ==>
      && ledger[i].tx.id in view && view[ledger[i].tx.id].pos == ledger[i].pos
      && |view[ledger[i].tx.id].vSpent| == |ledger[i].tx.vout|
  }

  // ---------------------------------------------------------------- money

  function SumValues(vout: seq<TxOut>): (r: int) {
    if vout == [] then 0 else SumValues(vout[..|vout| - 1]) + vout[|vout| - 1].value
  }

  /** Value of the outputs not marked spent. */
  function UnspentValue(vout: seq<TxOut>, vSpent: seq<DiskPos>): (r: int)
    requires |vout| == |vSpent|
  {
    if vout == [] then 0
    else
      var k := |vout| - 1;
      UnspentValue(vout[..k], vSpent[..k]) + if vSpent[k] == NullPos then vout[k].value else 0
  }

  /** Everything unspent on the chain. */
  ghost function Unspent(view: Index, ledger: seq<Placed>): (r: int)
    requires Covers(view, ledger)
  {
    if ledger == [] then 0
    else
      var p := ledger[|ledger| - 1];
      Unspent(view, ledger[..|ledger| - 1]) + UnspentValue(p.tx.vout, view[p.tx.id].vSpent)
  }

  /** The block files hold each transaction at its position. */
  predicate OnDisk(disk: Disk, ledger: seq<Placed>) {
    forall i :: 0 <= i < |ledger| ==> ledger[i].pos in disk && disk[ledger[i].pos] == ledger[i].tx
  }

  /** The output an input refers to can be read. */
  predicate CanRead(disk: Disk, view: Index, out: OutPoint) {
    out.hash in view && view[out.hash].pos in disk && out.n < |disk[view[out.hash].pos].vout|
  }

  function PrevOut(disk: Disk, view: Index, out: OutPoint): (r: TxOut)
    requires CanRead(disk, view, out)
  {
    disk[view[out.hash].pos].vout[out.n]
  }

  /** GetValueIn; an unreadable input counts as nothing, and never survives FetchInputs. */
  function ValueIn(disk: Disk, view: Index, vin: seq<OutPoint>): (r: int) {
    if vin == [] then 0
    else
      var out := vin[|vin| - 1];
      ValueIn(disk, view, vin[..|vin| - 1]) + if CanRead(disk, view, out) then PrevOut(disk, view, out).value else 0
  }

  lemma {:induction false} UnspentValueMarked(vout: seq<TxOut>, vSpent: seq<DiskPos>, n: nat, pos: DiskPos)
    requires |vout| == |vSpent| && n < |vout| && vSpent[n] == NullPos && pos != NullPos
    ensures UnspentValue(vout, vSpent[n := pos]) == UnspentValue(vout, vSpent) - vout[n].value
  {
    var k := |vout| - 1;
    if n < k {
      UnspentValueMarked(vout[..k], vSpent[..k], n, pos);
      assert vSpent[n := pos][..k] == vSpent[..k][n := pos];
    } else {
      assert vSpent[n := pos][..k] == vSpent[..k];
    }
  }

  lemma {:induction false} UnspentValueNew(vout: seq<TxOut>, vSpent: seq<DiskPos>)
    requires |vout| == |vSpent| && forall i :: 0 <= i < |vSpent| ==> vSpent[i] == NullPos
    ensures UnspentValue(vout, vSpent) == SumValues(vout)
  {
    if vout != [] {
      UnspentValueNew(vout[..|vout| - 1], vSpent[..|vout| - 1]);
    }
  }

  lemma {:induction false} UnspentElsewhere(view: Index, view': Index, ledger: seq<Placed>)
    requires Covers(view, ledger)
    requires forall i :: 0 <= i < |ledger| ==> ledger[i].tx.id in view' && view'[ledger[i].tx.id] == view[ledger[i].tx.id]
    ensures Unspent(view', ledger) == Unspent(view, ledger)
  {
    if ledger != [] {
      UnspentElsewhere(view, view', ledger[..|ledger| - 1]);
    }
  }

  /** Marking one output spent lowers the total by its value. */
  lemma {:induction false} UnspentAfterSpend(view: Index, ledger: seq<Placed>, disk: Disk, out: OutPoint, pos: DiskPos)
    requires Located(ledger) && OnDisk(disk, ledger) && Fresh(map[], ledger) && out.hash in Ids(ledger) && pos != NullPos
    requires Covers(view, ledger)
    requires InRange(view, out) && Spender(view, out) == NullPos
    ensures CanRead(disk, view, out)
    ensures Unspent(SetSpender(view, out, pos), ledger) == Unspent(view, ledger) - PrevOut(disk, view, out).value
  {
    var k := |ledger| - 1;
    var view' := SetSpender(view, out, pos);
    FreshPrefix(map[], ledger);
    if ledger[k].tx.id == out.hash {
      UnspentElsewhere(view, view', ledger[..k]);
      UnspentValueMarked(ledger[k].tx.vout, view[out.hash].vSpent, out.n, pos);
    } else {
      UnspentAfterSpend(view, ledger[..k], disk, out, pos);
    }
  }

  lemma Readable(view: Index, ledger: seq<Placed>, disk: Disk, out: OutPoint)
    requires view.Keys == Ids(ledger) && Covers(view, ledger) && OnDisk(disk, ledger) && InRange(view, out)
    ensures CanRead(disk, view, out)
  {
    var i :| 0 <= i < |ledger| && ledger[i].tx.id == out.hash;
  }

  lemma InputsReadable(view: Index, ledger: seq<Placed>, disk: Disk, vin: seq<OutPoint>, pos: DiskPos)
    requires view.Keys == Ids(ledger) && Covers(view, ledger) && OnDisk(disk, ledger)
    requires SpendInputs(view, vin, pos).Some? && pos != NullPos
    ensures forall k :: 0 <= k < |vin| ==> CanRead(disk, view, vin[k])
  {
    SpendInputsMarks(view, vin, pos);
    forall k | 0 <= k < |vin| ensures CanRead(disk, view, vin[k]) {
      Readable(view, ledger, disk, vin[k]);
    }
  }

  lemma ShapeCovers(a: Index, b: Index, ledger: seq<Placed>)
    requires SameShape(a, b) && Covers(a, ledger)
    ensures Covers(b, ledger)
  {
  }

  /** Spending a list of inputs lowers the unspent total by exactly what GetValueIn reads for them. */
  lemma {:induction false} UnspentAfterInputs(view: Index, ledger: seq<Placed>, disk: Disk, vin: seq<OutPoint>, pos: DiskPos)
    requires Located(ledger) && OnDisk(disk, ledger) && Fresh(map[], ledger) && pos != NullPos
    requires view.Keys == Ids(ledger) && Covers(view, ledger)
    requires SpendInputs(view, vin, pos).Some?
    requires forall k :: 0 <= k < |vin| ==> CanRead(disk, view, vin[k])
    ensures SameShape(view, SpendInputs(view, vin, pos).value)
    ensures Covers(SpendInputs(view, vin, pos).value, ledger)
    ensures Unspent(SpendInputs(view, vin, pos).value, ledger) == Unspent(view, ledger) - ValueIn(disk, view, vin)
  {
    if vin != [] {
      var k := |vin| - 1;
      UnspentAfterInputs(view, ledger, disk, vin[..k], pos);
      hide Unspent, Fresh, Covers, Located, OnDisk, Ids;
      var v := SpendInputs(view, vin[..k], pos).value;
      UnspentAfterSpend(v, ledger, disk, vin[k], pos);
      ShapeCovers(view, SetSpender(v, vin[k], pos), ledger);
      assert PrevOut(disk, v, vin[k]) == PrevOut(disk, view, vin[k]);
    }
  }

  lemma CoversNew(v: Index, ledger: seq<Placed>)
    requires |ledger| > 0 && ledger[|ledger| - 1].tx.id !in v
    requires v.Keys == Ids(ledger[..|ledger| - 1]) && Covers(v, ledger[..|ledger| - 1])
    ensures var p := ledger[|ledger| - 1];
      v[p.tx.id := NewIndex(p)].Keys == Ids(ledger) && Covers(v[p.tx.id := NewIndex(p)], ledger)
  {
    var m := |ledger| - 1;
    assert Ids(ledger) == Ids(ledger[..m]) + {ledger[m].tx.id};
    assert forall i :: 0 <= i < m ==> ledger[i] == ledger[..m][i];
  }

  lemma UnspentAfterNew(v: Index, ledger: seq<Placed>)
    requires |ledger| > 0 && ledger[|ledger| - 1].tx.id !in v
    requires v.Keys == Ids(ledger[..|ledger| - 1]) && Covers(v, ledger[..|ledger| - 1])
    ensures var p := ledger[|ledger| - 1];
      var view' := v[p.tx.id := NewIndex(p)];
      && view'.Keys == Ids(ledger) && Covers(view', ledger)
      && Unspent(view', ledger) == Unspent(v, ledger[..|ledger| - 1]) + SumValues(p.tx.vout)
  {
    CoversNew(v, ledger);
    hide Ids;
    var p := ledger[|ledger| - 1];
    UnspentElsewhere(v, v[p.tx.id := NewIndex(p)], ledger[..|ledger| - 1]);
    UnspentValueNew(p.tx.vout, NewIndex(p).vSpent);
  }

  /** Connecting one transaction adds what it creates and removes what it spends. */
  lemma UnspentAfterTx(view: Index, ledger: seq<Placed>, disk: Disk)
    requires |ledger| > 0 && Located(ledger) && OnDisk(disk, ledger) && Fresh(map[], ledger)
    requires view.Keys == Ids(ledger[..|ledger| - 1]) && Covers(view, ledger[..|ledger| - 1])
    requires ConnectTx(view, ledger[|ledger| - 1]).Some?
    ensures var p := ledger[|ledger| - 1];
      && (forall k :: 0 <= k < |Inputs(p.tx)| ==> CanRead(disk, view, Inputs(p.tx)[k]))
      && var view' := ConnectTx(view, p).value;
         && view'.Keys == Ids(ledger) && Covers(view', ledger)
         && Unspent(view', ledger) ==
            Unspent(view, ledger[..|ledger| - 1]) + SumValues(p.tx.vout) - ValueIn(disk, view, Inputs(p.tx))
  {
    var m := |ledger| - 1;
    var p := ledger[m];
    if p.tx.IsCoinBase() {
      UnspentAfterNew(view, ledger);
    } else {
      FreshPrefix(map[], ledger);
      InputsReadable(view, ledger[..m], disk, p.tx.vin, p.pos);
      UnspentAfterInputs(view, ledger[..m], disk, p.tx.vin, p.pos);
      hide SpendInputs, ValueIn, Unspent, UnspentValue;
      var v := SpendInputs(view, p.tx.vin, p.pos).value;
      UnspentAfterNew(v, ledger);
    }
  }
}
