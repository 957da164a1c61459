/**
  A block's effect on the coin map and its reversal from the undo log
  (ApplyTxInUndo and the coin-view DisconnectBlock of src/main.cpp).
*/
module CoinUndo {
  import opened Primitives
  import opened Collections
  import opened CoinsModel

  /** What a coin view represents: the records that still hold something unspent. */
  type CoinMap = map<TxId, Coins>

  predicate GoodCoins(c: Coins) {
    !c.IsPruned() && c.Cleaned() && c.Tidy() && c.height != 0
  }

  predicate GoodMap(m: CoinMap) {
    forall id :: id in m ==> GoodCoins(m[id])
  }

  function Lookup(m: CoinMap, id: TxId): (c: Coins) {
    if id in m then m[id] else NO_COINS
  }

  function Store(m: CoinMap, id: TxId, c: Coins): (r: CoinMap) {
    if c.IsPruned() then m - {id} else m[id := Cleanup(c)]
  }

  /** Spend the inputs in order, collecting one undo entry per input. */
  function SpendInputs(m: CoinMap, vin: seq<OutPoint>): (r: Option<(CoinMap, seq<TxInUndo>)>)
    ensures r.Some? ==> |r.value.1| == |vin|
  {
    if vin == [] then Some((m, []))
    else
      var out := vin[|vin| - 1];
      match SpendInputs(m, vin[..|vin| - 1])
      case None => None
      case Some((m1, undo)) =>
        match Spend(Lookup(m1, out.hash), out.n)
        case None => None
        case Some((d, u)) => Some((Store(m1, out.hash, d), undo + [u]))
  }

  /** Put the inputs back, last one first; also tells whether every step was clean. */
  function RestoreInputs(m: CoinMap, vin: seq<OutPoint>, undo: seq<TxInUndo>): (r: (CoinMap, bool))
    requires |vin| == |undo|
    decreases |vin|
  {
    if vin == [] then (m, true)
    else
      var k := |vin| - 1;
      var (c, clean) := ApplyUndo(undo[k], Lookup(m, vin[k].hash), vin[k].n);
      var (r, rest) := RestoreInputs(Store(m, vin[k].hash, c), vin[..k], undo[..k]);
      (r, clean && rest)
  }

  /** Connect the transactions in order; the first one is the coinbase and spends nothing. */
  function ConnectTxs(m: CoinMap, txs: seq<Transaction>, height: int): (r: Option<(CoinMap, seq<seq<TxInUndo>>)>)
    ensures r.Some? ==> |r.value.1| == if txs == [] then 0 else |txs| - 1
  {
    if txs == [] then Some((m, []))
    else
      var k := |txs| - 1;
      match ConnectTxs(m, txs[..k], height)
      case None => None
      case Some((m1, undo)) =>
        if k == 0 then Some((Store(m1, txs[k].id, FromTx(txs[k], height)), []))
        else
          match SpendInputs(m1, txs[k].vin)
          case None => None
          case Some((m2, u)) => Some((Store(m2, txs[k].id, FromTx(txs[k], height)), undo + [u]))
  }

  /** The record as DisconnectBlock compares it with the block's own transaction. */
  function OutputsMatch(c: Coins, tx: Transaction, height: int): (r: bool) {
    var outs := ClearUnspendable(c);
    var expected := FromTx(tx, height);
    SameCoins(if expected.version < 0 then outs.(version := expected.version) else outs, expected)
  }

  /** Disconnect the transactions, last one first; None when block and undo data do not fit together. */
  function DisconnectTxs(m: CoinMap, txs: seq<Transaction>, undo: seq<seq<TxInUndo>>, height: int): (r: Option<(CoinMap, bool)>)
    requires |undo| == if txs == [] then 0 else |txs| - 1
    decreases |txs|
  {
    if txs == [] then Some((m, true))
    else
      var k := |txs| - 1;
      var match1 := OutputsMatch(Lookup(m, txs[k].id), txs[k], height);
      var m1 := m - {txs[k].id};
      if k == 0 then Some((m1, match1))
      else if |undo[k - 1]| != |txs[k].vin| then None
      else
        var (m2, clean) := RestoreInputs(m1, txs[k].vin, undo[k - 1]);
        match DisconnectTxs(m2, txs[..k], undo[..k - 1], height)
        case None => None
        case Some((m3, rest)) => Some((m3, match1 && clean && rest))
  }

  /** CheckTransaction rejects negative amounts, and -1 is what makes an output null. */
  predicate NoNullOutputs(tx: Transaction) {
    forall n :: 0 <= n < |tx.vout| ==> !tx.vout[n].IsNull()
  }

  /** A block whose outputs passed CheckTransaction and whose ids are new to the view. */
  predicate FreshBlock(m: CoinMap, txs: seq<Transaction>) {
    && (forall i :: 0 <= i < |txs| ==> txs[i].id !in m)
    && (forall i, j :: 0 <= i < j < |txs| ==> txs[i].id != txs[j].id)
    && (forall i :: 0 <= i < |txs| ==> NoNullOutputs(txs[i]))
  }

  lemma SpendStepUndone(m: CoinMap, out: OutPoint)
    requires GoodMap(m)
    requires Spend(Lookup(m, out.hash), out.n).Some?
    ensures
      var (d, u) := Spend(Lookup(m, out.hash), out.n).value;
      var m' := Store(m, out.hash, d);
      && out.hash in m && m'.Keys <= m.Keys && GoodMap(m')
      && Lookup(m', out.hash) == Shown(d)
      && ApplyUndo(u, Lookup(m', out.hash), out.n) == (m[out.hash], true)
      && Store(m', out.hash, m[out.hash]) == m
  {
    assert out.hash in m;
    var c := m[out.hash];
    var (d, u) := Spend(c, out.n).value;
    SpentRecord(c, out.n);
    SpendThenUndo(c, out.n);
    assert Cleanup(d) == d && Cleanup(c) == c;
    assert d.Tidy();
  }

  lemma {:induction false} RestoreUndoesSpend(m: CoinMap, vin: seq<OutPoint>)
    requires GoodMap(m)
    requires SpendInputs(m, vin).Some?
    ensures
      var (m', undo) := SpendInputs(m, vin).value;
      && m'.Keys <= m.Keys && GoodMap(m')
      && RestoreInputs(m', vin, undo) == (m, true)
  {
    if vin != [] {
      var k := |vin| - 1;
      RestoreUndoesSpend(m, vin[..k]);
      var (m1, undo1) := SpendInputs(m, vin[..k]).value;
      var (m', undo) := SpendInputs(m, vin).value;
      SpendStepUndone(m1, vin[k]);
      assert undo[..k] == undo1;
    }
  }

  lemma FreshCoins(tx: Transaction, height: int)
    requires height != 0
    requires NoNullOutputs(tx)
    ensures
      var c := FromTx(tx, height);
      && c.Cleaned() && c.Tidy() && Cleanup(c) == c && c.height == height
      && ClearUnspendable(c) == c
      && OutputsMatch(Shown(c), tx, height)
  {
    var c := FromTx(tx, height);
    assert forall i :: 0 <= i < |c.vout| ==> !c.vout[i].IsUnspendable();
    assert NullUnspendable(c.vout) == c.vout;
    assert NullUnspendable([]) == [];
  }

  /** Without unspendable outputs, a record matches a transaction's outputs only if it is them. */
  lemma MatchIsSame(c: Coins, tx: Transaction, height: int)
    requires c.Cleaned() && (forall i :: 0 <= i < |c.vout| ==> !c.vout[i].IsUnspendable()) && OutputsMatch(c, tx, height)
    ensures var e := FromTx(tx, height); e.IsPruned() || (c.vout == e.vout && c.height == e.height && c.coinBase == e.coinBase)
  {
    hide FromTx;
    assert NullUnspendable(c.vout) == c.vout;
    assert ClearUnspendable(c) == c;
  }

  /** A record that has lost an output, or stands at another height, no longer matches its transaction. */
  lemma ChangedNoLongerMatches(tx: Transaction, height: int, n: nat, other: int)
    requires height != 0 && NoNullOutputs(tx) && FromTx(tx, height).IsAvailable(n)
    ensures !OutputsMatch(Spend(FromTx(tx, height), n).value.0, tx, height)
    ensures other != height ==> !OutputsMatch(FromTx(tx, height).(height := other), tx, height)
  {
    FreshCoins(tx, height);
    var c := FromTx(tx, height);
    SpendableOnly(tx, height);
    hide FromTx, OutputsMatch, NoNullOutputs;
    SpentRecord(c, n);
    var d, e := Spend(c, n).value.0, c.(height := other);
    assert !c.IsPruned() by { assert !c.vout[n].IsNull(); }
    if OutputsMatch(d, tx, height) {
      MatchIsSame(d, tx, height);
    }
    if OutputsMatch(e, tx, height) {
      MatchIsSame(e, tx, height);
    }
  }

  lemma SpendableOnly(tx: Transaction, height: int)
    ensures forall i :: 0 <= i < |FromTx(tx, height).vout| ==> !FromTx(tx, height).vout[i].IsUnspendable()
  {
  }

  /** One transaction: its outputs match and go, leaving the map its inputs were spent from. */
  lemma OutputsRemoved(m: CoinMap, tx: Transaction, height: int)
    requires GoodMap(m) && height != 0 && tx.id !in m
    requires NoNullOutputs(tx)
    ensures
      var m' := Store(m, tx.id, FromTx(tx, height));
      && GoodMap(m') && m'.Keys <= m.Keys + {tx.id}
      && OutputsMatch(Lookup(m', tx.id), tx, height)
      && m' - {tx.id} == m
  {
    FreshCoins(tx, height);
    hide FromTx, OutputsMatch, NoNullOutputs;
  }

  /** The map just before the last transaction's own outputs are added. */
  function BeforeOutputs(m1: CoinMap, txs: seq<Transaction>): (r: CoinMap)
    requires |txs| > 0 && (|txs| > 1 ==> SpendInputs(m1, txs[|txs| - 1].vin).Some?)
  {
    if |txs| == 1 then m1 else SpendInputs(m1, txs[|txs| - 1].vin).value.0
  }

  /** When each transaction's outputs are added, no unspent output with its id is there. */
  predicate FreshWhenAdded(m: CoinMap, txs: seq<Transaction>, height: int)
    requires ConnectTxs(m, txs, height).Some?
  {
    txs == [] ||
    var k := |txs| - 1;
    FreshWhenAdded(m, txs[..k], height) && txs[k].id !in BeforeOutputs(ConnectTxs(m, txs[..k], height).value.0, txs)
  }

  /** The last transaction of a block, given that the ones before it are undone exactly. */
  lemma DisconnectStep(m: CoinMap, m1: CoinMap, undo1: seq<seq<TxInUndo>>, txs: seq<Transaction>, height: int)
    requires |txs| > 0 && height != 0 && GoodMap(m1)
    requires ConnectTxs(m, txs[..|txs| - 1], height) == Some((m1, undo1)) && ConnectTxs(m, txs, height).Some?
    requires txs[|txs| - 1].id !in BeforeOutputs(m1, txs)
    requires NoNullOutputs(txs[|txs| - 1])
    requires DisconnectTxs(m1, txs[..|txs| - 1], undo1, height) == Some((m, true))
    ensures
      var (m', undo) := ConnectTxs(m, txs, height).value;
      GoodMap(m') && m'.Keys <= m1.Keys + {txs[|txs| - 1].id} && DisconnectTxs(m', txs, undo, height) == Some((m, true))
  {
    var k := |txs| - 1;
    var tx := txs[k];
    var (m', undo) := ConnectTxs(m, txs, height).value;
    if k == 0 {
      OutputsRemoved(m1, tx, height);
    } else {
      RestoreUndoesSpend(m1, tx.vin);
      var (m2, u) := SpendInputs(m1, tx.vin).value;
      OutputsRemoved(m2, tx, height);
      assert undo[..k - 1] == undo1 && undo[k - 1] == u;
    }
  }

  function Ids(txs: seq<Transaction>): (r: set<TxId>) {
    set i | 0 <= i < |txs| :: txs[i].id
  }

  lemma FreshPrefix(m: CoinMap, txs: seq<Transaction>)
    requires FreshBlock(m, txs) && |txs| > 0
    ensures FreshBlock(m, txs[..|txs| - 1])
    ensures txs[|txs| - 1].id !in m.Keys + Ids(txs[..|txs| - 1])
    ensures Ids(txs) == Ids(txs[..|txs| - 1]) + {txs[|txs| - 1].id}
    ensures NoNullOutputs(txs[|txs| - 1])
  {
    assert txs == txs[..|txs| - 1] + [txs[|txs| - 1]];
  }

  /** A block none of whose ids is in the map adds nothing over an existing record. */
  lemma {:induction false} FreshBlockAdds(m: CoinMap, txs: seq<Transaction>, height: int)
    requires FreshBlock(m, txs) && GoodMap(m) && height != 0 && ConnectTxs(m, txs, height).Some?
    ensures FreshWhenAdded(m, txs, height)
    ensures GoodMap(ConnectTxs(m, txs, height).value.0) && ConnectTxs(m, txs, height).value.0.Keys <= m.Keys + Ids(txs)
  {
    if txs != [] {
      var k := |txs| - 1;
      FreshPrefix(m, txs);
      FreshBlockAdds(m, txs[..k], height);
      var m1 := ConnectTxs(m, txs[..k], height).value.0;
      if k > 0 {
        RestoreUndoesSpend(m1, txs[k].vin);
      }
      OutputsRemoved(BeforeOutputs(m1, txs), txs[k], height);
    }
  }

  /** Disconnecting is then the exact inverse of connecting, and reports clean. */
  lemma {:induction false} DisconnectUndoesConnect(m: CoinMap, txs: seq<Transaction>, height: int)
    requires GoodMap(m) && height != 0 && ConnectTxs(m, txs, height).Some? && FreshWhenAdded(m, txs, height)
    requires forall i :: 0 <= i < |txs| ==> NoNullOutputs(txs[i])
    ensures
      var (m', undo) := ConnectTxs(m, txs, height).value;
      GoodMap(m') && DisconnectTxs(m', txs, undo, height) == Some((m, true))
  {
    if txs != [] {
      var k := |txs| - 1;
      DisconnectUndoesConnect(m, txs[..k], height);
      var (m1, undo1) := ConnectTxs(m, txs[..k], height).value;
      DisconnectStep(m, m1, undo1, txs, height);
    }
  }

  // --------------------------------------------------------------- otherwise

  /** The unspent outputs of a map. */
  function Avail(m: CoinMap): (r: set<OutPoint>) {
    set id, n | id in m && 0 <= n < |m[id].vout| && !m[id].vout[n].IsNull() :: OutPoint(id, n)
  }

  function Own(id: TxId, c: Coins): (r: set<OutPoint>) {
    set n | 0 <= n < |c.vout| && !c.vout[n].IsNull() :: OutPoint(id, n)
  }

  lemma AvailRemoved(m: CoinMap, id: TxId)
    ensures Avail(m) == Avail(m - {id}) + Own(id, Lookup(m, id)) && Avail(m - {id}) !! Own(id, Lookup(m, id))
    ensures |Avail(m)| == |Avail(m - {id})| + |Own(id, Lookup(m, id))|
  {
    assert Avail(m) == Avail(m - {id}) + Own(id, Lookup(m, id));
  }

  lemma OwnCleaned(id: TxId, c: Coins)
    ensures Own(id, Cleanup(c)) == Own(id, c) && (c.IsPruned() ==> Own(id, c) == {})
  {
    forall n: nat ensures Cleanup(c).IsAvailable(n) == c.IsAvailable(n) {
    }
    assert forall o :: o in Own(id, Cleanup(c)) <==> o.hash == id && Cleanup(c).IsAvailable(o.n);
    assert forall o :: o in Own(id, c) <==> o.hash == id && c.IsAvailable(o.n);
  }

  /** Storing a record replaces whatever unspent outputs its id had. */
  lemma AvailStored(m: CoinMap, id: TxId, c: Coins)
    ensures |Avail(Store(m, id, c))| == |Avail(m)| - |Own(id, Lookup(m, id))| + |Own(id, c)|
  {
    hide Avail, Own;
    AvailRemoved(m, id);
    AvailRemoved(Store(m, id, c), id);
    OwnCleaned(id, c);
    assert Store(m, id, c) - {id} == m - {id};
    OwnCleaned(id, NO_COINS);
  }

  lemma OwnSpent(id: TxId, c: Coins, n: nat)
    requires c.IsAvailable(n)
    ensures |Own(id, Spend(c, n).value.0)| == |Own(id, c)| - 1
  {
    var d := Spend(c, n).value.0;
    assert forall o :: o in Own(id, d) <==> o.hash == id && d.IsAvailable(o.n);
    assert forall o :: o in Own(id, c) <==> o.hash == id && c.IsAvailable(o.n);
    assert Own(id, c) == Own(id, d) + {OutPoint(id, n)};
  }

  /** Spending costs one unspent output per input. */
  lemma {:induction false} SpendCounts(m: CoinMap, vin: seq<OutPoint>)
    requires SpendInputs(m, vin).Some?
    ensures |Avail(SpendInputs(m, vin).value.0)| == |Avail(m)| - |vin|
  {
    hide Avail, Own, Store;
    if vin != [] {
      var k := |vin| - 1;
      SpendCounts(m, vin[..k]);
      var m1 := SpendInputs(m, vin[..k]).value.0;
      var c := Lookup(m1, vin[k].hash);
      OwnSpent(vin[k].hash, c, vin[k].n);
      AvailStored(m1, vin[k].hash, Spend(c, vin[k].n).value.0);
    }
  }

  lemma OwnRestored(id: TxId, undo: TxInUndo, c: Coins, n: nat)
    ensures |Own(id, ApplyUndo(undo, c, n).0)| <= |Own(id, c)| + 1
  {
    var r := ApplyUndo(undo, c, n).0;
    assert Own(id, r) <= Own(id, c) + {OutPoint(id, n)};
    SubsetSize(Own(id, r), Own(id, c) + {OutPoint(id, n)});
  }

  /** Restoring brings back at most one unspent output per input. */
  lemma {:induction false} RestoreCounts(m: CoinMap, vin: seq<OutPoint>, undo: seq<TxInUndo>)
    requires |vin| == |undo|
    ensures |Avail(RestoreInputs(m, vin, undo).0)| <= |Avail(m)| + |vin|
    decreases |vin|
  {
    hide Avail, Own, Store;
    if vin != [] {
      var k := |vin| - 1;
      var c := Lookup(m, vin[k].hash);
      var r := ApplyUndo(undo[k], c, vin[k].n).0;
      OwnRestored(vin[k].hash, undo[k], c, vin[k].n);
      AvailStored(m, vin[k].hash, r);
      RestoreCounts(Store(m, vin[k].hash, r), vin[..k], undo[..k]);
    }
  }

  /** A record that matches a transaction's outputs has at least those unspent. */
  lemma MatchCounts(id: TxId, c: Coins, tx: Transaction, height: int)
    requires OutputsMatch(c, tx, height)
    ensures |Own(id, FromTx(tx, height))| <= |Own(id, c)|
  {
    var d := c.(vout := NullUnspendable(c.vout));
    OwnCleaned(id, d);
    assert Own(id, d) <= Own(id, c);
    SubsetSize(Own(id, d), Own(id, c));
    OwnCleaned(id, FromTx(tx, height));
    OwnCleaned(id, ClearUnspendable(c));
  }

  /** What the outputs of a block add and its inputs take away. */
  function Net(txs: seq<Transaction>, height: int): (r: int) {
    if txs == [] then 0
    else
      var k := |txs| - 1;
      Net(txs[..k], height) + |Own(txs[k].id, FromTx(txs[k], height))| - if k == 0 then 0 else |txs[k].vin|
  }

  /** Connecting falls short of that exactly when outputs are added over unspent ones. */
  lemma {:induction false} ConnectCounts(m: CoinMap, txs: seq<Transaction>, height: int)
    requires GoodMap(m) && height != 0 && ConnectTxs(m, txs, height).Some? && forall i :: 0 <= i < |txs| ==> NoNullOutputs(txs[i])
    ensures GoodMap(ConnectTxs(m, txs, height).value.0)
    ensures |Avail(ConnectTxs(m, txs, height).value.0)| <= |Avail(m)| + Net(txs, height)
    ensures |Avail(ConnectTxs(m, txs, height).value.0)| == |Avail(m)| + Net(txs, height) <==> FreshWhenAdded(m, txs, height)
  {
    hide Avail, Own, SpendInputs, FromTx;
    if txs != [] {
      var k := |txs| - 1;
      ConnectCounts(m, txs[..k], height);
      var m1 := ConnectTxs(m, txs[..k], height).value.0;
      if k > 0 {
        SpendCounts(m1, txs[k].vin);
        RestoreUndoesSpend(m1, txs[k].vin);
      }
      AddedCounts(BeforeOutputs(m1, txs), txs[k], height);
    }
  }

  lemma AddedCounts(m: CoinMap, tx: Transaction, height: int)
    requires GoodMap(m) && height != 0 && NoNullOutputs(tx)
    ensures
      var m' := Store(m, tx.id, FromTx(tx, height));
      && GoodMap(m')
      && |Avail(m')| <= |Avail(m)| + |Own(tx.id, FromTx(tx, height))|
      && (|Avail(m')| == |Avail(m)| + |Own(tx.id, FromTx(tx, height))| <==> tx.id !in m)
  {
    FreshCoins(tx, height);
    AvailStored(m, tx.id, FromTx(tx, height));
    OwnCleaned(tx.id, NO_COINS);
    if tx.id in m {
      var i :| 0 <= i < |m[tx.id].vout| && !m[tx.id].vout[i].IsNull();
      assert OutPoint(tx.id, i) in Own(tx.id, m[tx.id]);
    }
  }

  lemma {:induction false} DisconnectCounts(m: CoinMap, txs: seq<Transaction>, undo: seq<seq<TxInUndo>>, height: int)
    requires |undo| == if txs == [] then 0 else |txs| - 1
    requires DisconnectTxs(m, txs, undo, height).Some? && DisconnectTxs(m, txs, undo, height).value.1
    ensures |Avail(DisconnectTxs(m, txs, undo, height).value.0)| <= |Avail(m)| - Net(txs, height)
    decreases |txs|
  {
    hide Avail, Own, RestoreInputs, OutputsMatch, FromTx;
    if txs != [] {
      var k := |txs| - 1;
      AvailRemoved(m, txs[k].id);
      MatchCounts(txs[k].id, Lookup(m, txs[k].id), txs[k], height);
      if k > 0 {
        var m1 := m - {txs[k].id};
        RestoreCounts(m1, txs[k].vin, undo[k - 1]);
        DisconnectCounts(RestoreInputs(m1, txs[k].vin, undo[k - 1]).0, txs[..k], undo[..k - 1], height);
      } else {
        assert Net(txs[..0], height) == 0;
      }
    }
  }

  /**
    For every block: disconnecting is clean and restores the map if and only if no transaction's
    outputs were added over unspent outputs with the same id.
  */
  lemma UndoneExactlyWhenFresh(m: CoinMap, txs: seq<Transaction>, height: int)
    requires GoodMap(m) && height != 0 && ConnectTxs(m, txs, height).Some?
    requires forall i :: 0 <= i < |txs| ==> NoNullOutputs(txs[i])
    ensures
      var (m', undo) := ConnectTxs(m, txs, height).value;
      DisconnectTxs(m', txs, undo, height) == Some((m, true)) <==> FreshWhenAdded(m, txs, height)
  {
    hide ConnectTxs, DisconnectTxs, Avail, GoodMap, NoNullOutputs;
    var (m', undo) := ConnectTxs(m, txs, height).value;
    if FreshWhenAdded(m, txs, height) {
      DisconnectUndoesConnect(m, txs, height);
    } else {
      ConnectCounts(m, txs, height);
      if DisconnectTxs(m', txs, undo, height) == Some((m, true)) {
        DisconnectCounts(m', txs, undo, height);
      }
    }
  }

  /** A lone coinbase is taken back cleanly, together with any record that had its id before. */
  lemma LoneCoinbase(m: CoinMap, tx: Transaction, height: int)
    requires height != 0 && NoNullOutputs(tx)
    ensures ConnectTxs(m, [tx], height) == Some((Store(m, tx.id, FromTx(tx, height)), []))
    ensures DisconnectTxs(Store(m, tx.id, FromTx(tx, height)), [tx], [], height) == Some((m - {tx.id}, true))
  {
    FreshCoins(tx, height);
    hide FromTx, OutputsMatch, NoNullOutputs;
    assert [tx][..0] == [];
    var c := FromTx(tx, height);
    var m' := Store(m, tx.id, c);
    assert Lookup(m', tx.id) == Shown(c);
    assert m' - {tx.id} == m - {tx.id};
  }

  /** A second coinbase with the id of an unspent one: its record replaces the first, and undoing leaves neither. */
  lemma OverwrittenCoins()
    ensures
      var tx := Transaction(Hash(1), 1, 0, [OutPoint(NULL_HASH, NULL_INDEX)], [TxOut(5, NO_ROUNDS, [])]);
      var m: CoinMap := map[tx.id := Coins(true, tx.vout, 7, 1)];
      && GoodMap(m) && ConnectTxs(m, [tx], 8).Some?
      && var (m', undo) := ConnectTxs(m, [tx], 8).value;
         DisconnectTxs(m', [tx], undo, 8) == Some((map[], true))
  {
    hide ConnectTxs, DisconnectTxs, FromTx;
    var tx := Transaction(Hash(1), 1, 0, [OutPoint(NULL_HASH, NULL_INDEX)], [TxOut(5, NO_ROUNDS, [])]);
    var m: CoinMap := map[tx.id := Coins(true, tx.vout, 7, 1)];
    assert !m[tx.id].vout[0].IsNull();
    LoneCoinbase(m, tx, 8);
    assert m - {tx.id} == map[];
  }
}
