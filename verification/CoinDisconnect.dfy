/**
  DisconnectBlock on a coin cache (src/main.cpp): the loops over transactions and
  inputs, proved to be the reversal specified in CoinUndo.
*/
module CoinDisconnect {
  import opened Primitives
  import opened CoinsModel
  import opened CoinUndo
  import opened CoinsCacheStack

  /** A stale pruned record does not change what a clean undo does. */
  lemma UndoSeesShown(undo: TxInUndo, c: Coins, n: nat)
    ensures ApplyUndo(undo, c, n).1 == ApplyUndo(undo, Shown(c), n).1
    ensures ApplyUndo(undo, c, n).1 ==> ApplyUndo(undo, c, n) == ApplyUndo(undo, Shown(c), n)
  {
    assert NO_COINS.IsPruned();
  }

  lemma MatchSeesShown(c: Coins, tx: Transaction, height: int)
    ensures OutputsMatch(c, tx, height) == OutputsMatch(Shown(c), tx, height)
  {
    if c.IsPruned() {
      assert NullUnspendable([]) == [];
      assert ClearUnspendable(c).IsPruned() && ClearUnspendable(NO_COINS).IsPruned();
    }
  }

  // ----------------------------------------------------------------- outputs

  /** The outputs of a coin map.  Unlike the metadata, they do not depend on what a stale pruned record says. */
  function Outs(m: CoinMap): (r: map<TxId, seq<TxOut>>) { map id | id in m :: m[id].vout }

  lemma OutsAt(m: CoinMap, m': CoinMap, id: TxId)
    requires Outs(m) == Outs(m')
    ensures Lookup(m, id).vout == Lookup(m', id).vout && m.Keys == m'.Keys
  {
    assert m.Keys == Outs(m).Keys && m'.Keys == Outs(m').Keys;
    assert id in m ==> Outs(m)[id] == Outs(m')[id];
  }

  lemma StoreOuts(m: CoinMap, m': CoinMap, id: TxId, c: Coins, c': Coins)
    requires Outs(m) == Outs(m') && c.vout == c'.vout
    ensures Outs(Store(m, id, c)) == Outs(Store(m', id, c'))
  {
    forall k ensures Lookup(m, k).vout == Lookup(m', k).vout && (k in m <==> k in m') {
      OutsAt(m, m', k);
    }
    assert c.IsPruned() == c'.IsPruned() && Cleanup(c).vout == Cleanup(c').vout;
    forall k | k in m ensures m[k].vout == m'[k].vout {
      assert Lookup(m, k) == m[k] && Lookup(m', k) == m'[k];
    }
  }

  lemma UndoOuts(undo: TxInUndo, c: Coins, c': Coins, n: nat)
    requires c.vout == c'.vout
    ensures ApplyUndo(undo, c, n).0.vout == ApplyUndo(undo, c', n).0.vout
  {
  }

  lemma ShownOuts(c: Coins)
    requires c.Cleaned()
    ensures Shown(c).vout == c.vout
  {
  }

  lemma {:induction false} RestoreOuts(m: CoinMap, m': CoinMap, vin: seq<OutPoint>, undo: seq<TxInUndo>)
    requires Outs(m) == Outs(m') && |vin| == |undo|
    ensures Outs(RestoreInputs(m, vin, undo).0) == Outs(RestoreInputs(m', vin, undo).0)
    decreases |vin|
  {
    hide Outs, ApplyUndo, Store, Lookup;
    if vin != [] {
      var k := |vin| - 1;
      var c, c' := Lookup(m, vin[k].hash), Lookup(m', vin[k].hash);
      OutsAt(m, m', vin[k].hash);
      UndoOuts(undo[k], c, c', vin[k].n);
      var r, r' := ApplyUndo(undo[k], c, vin[k].n).0, ApplyUndo(undo[k], c', vin[k].n).0;
      StoreOuts(m, m', vin[k].hash, r, r');
      RestoreOuts(Store(m, vin[k].hash, r), Store(m', vin[k].hash, r'), vin[..k], undo[..k]);
    }
  }

  lemma RemoveOuts(m: CoinMap, m': CoinMap, id: TxId)
    requires Outs(m) == Outs(m')
    ensures Outs(m - {id}) == Outs(m' - {id})
  {
    assert NO_COINS.IsPruned();
    StoreOuts(m, m', id, NO_COINS, NO_COINS);
  }

  lemma {:induction false} DisconnectOuts(m: CoinMap, m': CoinMap, txs: seq<Transaction>, undo: seq<seq<TxInUndo>>, height: int)
    requires Outs(m) == Outs(m') && |undo| == if txs == [] then 0 else |txs| - 1
    ensures var a, b := DisconnectTxs(m, txs, undo, height), DisconnectTxs(m', txs, undo, height);
      (a.Some? <==> b.Some?) && (a.Some? ==> Outs(a.value.0) == Outs(b.value.0))
    decreases |txs|
  {
    hide Outs, OutputsMatch, RestoreInputs, Lookup;
    if txs != [] {
      var k := |txs| - 1;
      var m1, m1' := m - {txs[k].id}, m' - {txs[k].id};
      RemoveOuts(m, m', txs[k].id);
      if k > 0 && |undo[k - 1]| == |txs[k].vin| {
        RestoreOuts(m1, m1', txs[k].vin, undo[k - 1]);
        DisconnectOuts(RestoreInputs(m1, txs[k].vin, undo[k - 1]).0, RestoreInputs(m1', txs[k].vin, undo[k - 1]).0, txs[..k], undo[..k - 1], height);
      }
    }
  }

  // ------------------------------------------------------------------- loops

  method ApplyTxInUndo(undo: TxInUndo, view: CoinsCache, out: OutPoint) returns (clean: bool)
    requires view.Valid() && !view.hasModifier
    modifies view.Repr
    ensures view.Valid() && !view.hasModifier
    ensures
      var (c, ok) := ApplyUndo(undo, Lookup(old(view.View()), out.hash), out.n);
      && clean == ok && (clean ==> view.View() == Store(old(view.View()), out.hash, c))
      && Outs(view.View()) == Outs(Store(old(view.View()), out.hash, c))
  {
    hide Overlay, Linked, Lookup, Store, Outs;
    clean := true;
    var coins := view.BeginModify(out.hash);
    ghost var found := coins;
    if undo.height != 0 {
      if !coins.IsPruned() {
        clean := false;
      }
      coins := NO_COINS;
      coins := coins.(coinBase := undo.coinBase, height := undo.height, version := undo.version);
    } else {
      if coins.IsPruned() {
        clean := false;
      }
    }
    if coins.IsAvailable(out.n) {
      clean := false;
    }
    if |coins.vout| < out.n + 1 {
      coins := coins.(vout := Resize(coins.vout, out.n + 1));
    }
    coins := coins.(vout := coins.vout[out.n := undo.txout]);
    UndoSeesShown(undo, found, out.n);
    ShownOuts(found);
    UndoOuts(undo, found, Lookup(view.View(), out.hash), out.n);
    ghost var before := view.View();
    StoreOuts(before, before, out.hash, coins, ApplyUndo(undo, Lookup(before, out.hash), out.n).0);
    view.EndModify(out.hash, coins);
  }

  /** The inner loop: the inputs of one transaction, last one first. */
  method RestoreTxInputs(view: CoinsCache, vin: seq<OutPoint>, undo: seq<TxInUndo>) returns (clean: bool)
    requires view.Valid() && !view.hasModifier && |vin| == |undo|
    modifies view.Repr
    ensures view.Valid() && !view.hasModifier
    ensures
      var (m, ok) := RestoreInputs(old(view.View()), vin, undo);
      clean == ok && (clean ==> view.View() == m) && Outs(view.View()) == Outs(m)
  {
    hide Overlay, Linked, Lookup, Store, ApplyUndo, Outs;
    clean := true;
    var j := |vin|;
    assert vin[..j] == vin && undo[..j] == undo;
    while j > 0
      invariant 0 <= j <= |vin|
      invariant view.Valid() && !view.hasModifier
      invariant clean ==> RestoreInputs(view.View(), vin[..j], undo[..j]) == RestoreInputs(old(view.View()), vin, undo)
      invariant !clean ==> !RestoreInputs(old(view.View()), vin, undo).1
      invariant Outs(RestoreInputs(view.View(), vin[..j], undo[..j]).0) == Outs(RestoreInputs(old(view.View()), vin, undo).0)
    {
      j := j - 1;
      ghost var before := view.View();
      assert vin[..j + 1][..j] == vin[..j] && undo[..j + 1][..j] == undo[..j];
      var ok := ApplyTxInUndo(undo[j], view, vin[j]);
      RestoreOuts(view.View(), Store(before, vin[j].hash, ApplyUndo(undo[j], Lookup(before, vin[j].hash), vin[j].n).0), vin[..j], undo[..j]);
      if !ok {
        clean := false;
      }
    }
  }

  /** The block and its undo data have matching numbers of inputs. */
  predicate Fits(txs: seq<Transaction>, undo: seq<seq<TxInUndo>>, from: nat)
    requires |undo| + 1 == |txs|
  {
    forall i :: from <= i < |undo| ==> |undo[i]| == |txs[i + 1].vin|
  }

  lemma {:induction false} DisconnectNeedsFit(m: CoinMap, txs: seq<Transaction>, undo: seq<seq<TxInUndo>>, height: int)
    requires |undo| + 1 == |txs|
    ensures DisconnectTxs(m, txs, undo, height).Some? <==> Fits(txs, undo, 0)
    decreases |txs|
  {
    hide OutputsMatch, RestoreInputs, Lookup;
    var k := |txs| - 1;
    if k > 0 && |undo[k - 1]| == |txs[k].vin| {
      var m2 := RestoreInputs(m - {txs[k].id}, txs[k].vin, undo[k - 1]).0;
      DisconnectNeedsFit(m2, txs[..k], undo[..k - 1], height);
      assert Fits(txs, undo, 0) <==> Fits(txs[..k], undo[..k - 1], 0) by {
        assert undo == undo[..k - 1] + [undo[k - 1]];
      }
    }
  }

  /** The outputs of one transaction leave the view; tells whether they were as the block says. */
  method RemoveOutputs(view: CoinsCache, tx: Transaction, height: int) returns (clean: bool)
    requires view.Valid() && !view.hasModifier
    modifies view.Repr
    ensures view.Valid() && !view.hasModifier
    ensures clean == OutputsMatch(Lookup(old(view.View()), tx.id), tx, height)
    ensures view.View() == old(view.View()) - {tx.id}
  {
    hide Overlay, Linked, Lookup;
    var outs := view.BeginModify(tx.id);
    MatchSeesShown(outs, tx, height);
    outs := ClearUnspendableLoop(outs);
    var outsBlock := FromTx(tx, height);
    if outsBlock.version < 0 {
      outs := outs.(version := outsBlock.version);
    }
    clean := SameCoins(outs, outsBlock);
    view.EndModify(tx.id, NO_COINS);
  }

  /** One round of the outer loop: transaction k goes, the ones before it remain to be done. */
  method DisconnectTx(view: CoinsCache, txs: seq<Transaction>, undo: seq<seq<TxInUndo>>, k: nat, height: int)
    returns (fits: bool, clean: bool)
    requires view.Valid() && !view.hasModifier && |undo| + 1 == |txs| && k < |txs|
    modifies view.Repr
    ensures view.Valid() && !view.hasModifier
    ensures fits <==> k > 0 ==> |undo[k - 1]| == |txs[k].vin|
    ensures
      var whole := DisconnectTxs(old(view.View()), txs[..k + 1], undo[..k], height);
      && (fits && clean ==> whole == DisconnectTxs(view.View(), txs[..k], undo[..if k == 0 then 0 else k - 1], height))
      && (fits && !clean && whole.Some? ==> !whole.value.1)
      && (fits ==> SameOuts(whole, DisconnectTxs(view.View(), txs[..k], undo[..if k == 0 then 0 else k - 1], height)))
  {
    hide Overlay, Linked, OutputsMatch, RestoreInputs, Lookup, Outs;
    ghost var before := view.View();
    fits := true;
    clean := RemoveOutputs(view, txs[k], height);
    if k > 0 {
      if |undo[k - 1]| != |txs[k].vin| {
        return false, clean;
      }
      var restored := RestoreTxInputs(view, txs[k].vin, undo[k - 1]);
      if !restored {
        clean := false;
      }
      DisconnectOuts(RestoreInputs(before - {txs[k].id}, txs[k].vin, undo[k - 1]).0, view.View(), txs[..k], undo[..k - 1], height);
    } else {
      NothingLeft(view.View(), txs[..0], undo[..0], height);
    }
    LastStep(before, txs, undo, k, height);
  }

  /** Both succeed, with the same outputs, or both fail. */
  ghost predicate SameOuts(a: Option<(CoinMap, bool)>, b: Option<(CoinMap, bool)>) {
    (a.Some? <==> b.Some?) && (a.Some? ==> Outs(a.value.0) == Outs(b.value.0))
  }

  /** The outer loop, last transaction first. */
  method DisconnectAll(view: CoinsCache, txs: seq<Transaction>, undo: seq<seq<TxInUndo>>, height: int)
    returns (fits: bool, clean: bool)
    requires view.Valid() && !view.hasModifier && |undo| + 1 == |txs|
    modifies view.Repr
    ensures view.Valid() && !view.hasModifier
    ensures fits <==> Fits(txs, undo, 0)
    ensures fits ==>
      var goal := DisconnectTxs(old(view.View()), txs, undo, height);
      goal.Some? && clean == goal.value.1 && (clean ==> view.View() == goal.value.0) && Outs(view.View()) == Outs(goal.value.0)
  {
    hide Overlay, Linked, DisconnectTxs, Outs;
    ghost var goal := DisconnectTxs(view.View(), txs, undo, height);
    DisconnectNeedsFit(view.View(), txs, undo, height);
    clean, fits := true, true;
    var k := |txs|;
    assert txs[..k] == txs && undo[..k - 1] == undo;
    while k > 0
      invariant 0 <= k <= |txs|
      invariant view.Valid() && !view.hasModifier
      invariant Fits(txs, undo, if k == 0 then 0 else k - 1)
      invariant clean ==> goal == DisconnectTxs(view.View(), txs[..k], undo[..if k == 0 then 0 else k - 1], height)
      invariant !clean && goal.Some? ==> !goal.value.1
      invariant SameOuts(goal, DisconnectTxs(view.View(), txs[..k], undo[..if k == 0 then 0 else k - 1], height))
    {
      k := k - 1;
      var cleanTx;
      fits, cleanTx := DisconnectTx(view, txs, undo, k, height);
      if !fits {
        return;
      }
      if !cleanTx {
        clean := false;
      }
    }
    NothingLeft(view.View(), txs[..0], undo[..0], height);
  }

  lemma NothingLeft(m: CoinMap, txs: seq<Transaction>, undo: seq<seq<TxInUndo>>, height: int)
    requires txs == [] && undo == []
    ensures DisconnectTxs(m, txs, undo, height) == Some((m, true))
  {
  }

  /**
    DisconnectBlock, for the view's best block.  undoData is what the undo file holds, None if it
    cannot be read; blockHash and prevHash are the hashes of the block and of the previous one.
  */
  method DisconnectBlock(view: CoinsCache, txs: seq<Transaction>, undoData: Option<seq<seq<TxInUndo>>>,
                         height: int, blockHash: Hash, prevHash: Hash) returns (ok: bool, clean: bool)
    requires view.Valid() && !view.hasModifier && view.Best() == blockHash
    modifies view.Repr
    ensures view.Valid() && !view.hasModifier
    ensures ok <==> undoData.Some? && |undoData.value| + 1 == |txs| && Fits(txs, undoData.value, 0)
    ensures ok ==> view.hashBlock == prevHash
    ensures ok ==>
      var goal := DisconnectTxs(old(view.View()), txs, undoData.value, height);
      goal.Some? && clean == goal.value.1 && (clean ==> view.View() == goal.value.0) && Outs(view.View()) == Outs(goal.value.0)
  {
    hide Overlay, Linked, DisconnectTxs, Outs;
    var best := view.GetBestBlock();
    assert best == blockHash;
    ok, clean := false, false;
    if undoData.None? {
      return;
    }
    if |undoData.value| + 1 != |txs| {
      return;
    }
    ok, clean := DisconnectAll(view, txs, undoData.value, height);
    if ok {
      view.SetBestBlock(prevHash);
    }
  }

  lemma {:induction false} ConnectedFits(m: CoinMap, txs: seq<Transaction>, height: int)
    requires txs != [] && ConnectTxs(m, txs, height).Some?
    ensures Fits(txs, ConnectTxs(m, txs, height).value.1, 0)
  {
    hide SpendInputs, Store, FromTx;
    var k := |txs| - 1;
    if k > 0 {
      ConnectedFits(m, txs[..k], height);
      var (m1, undo1) := ConnectTxs(m, txs[..k], height).value;
      var u := SpendInputs(m1, txs[k].vin).value.1;
      var undo := ConnectTxs(m, txs, height).value.1;
      assert undo == undo1 + [u];
      forall i | 0 <= i < |undo| ensures |undo[i]| == |txs[i + 1].vin| {
        if i < k - 1 {
          assert undo[i] == undo1[i] && txs[..k][i + 1] == txs[i + 1];
        }
      }
    }
  }

  /** A view that shows a connected block takes it back exactly, cleanly, and with its best block. */
  method UndoConnectedBlock(view: CoinsCache, ghost before: CoinMap, txs: seq<Transaction>, undo: seq<seq<TxInUndo>>,
                            height: int, blockHash: Hash, prevHash: Hash) returns (ok: bool, clean: bool)
    requires view.Valid() && !view.hasModifier && view.Best() == blockHash
    requires GoodMap(before) && height != 0 && txs != [] && forall i :: 0 <= i < |txs| ==> NoNullOutputs(txs[i])
    requires ConnectTxs(before, txs, height) == Some((view.View(), undo))
    modifies view.Repr
    ensures view.Valid() && ok && view.hashBlock == prevHash
    ensures clean && view.View() == before <==> FreshWhenAdded(before, txs, height)
  {
    UndoneExactlyWhenFresh(before, txs, height);
    ConnectedFits(before, txs, height);
    hide Overlay, Linked, DisconnectTxs, ConnectTxs, GoodMap, FreshWhenAdded, NoNullOutputs;
    DisconnectNeedsFit(view.View(), txs, undo, height);
    ok, clean := DisconnectBlock(view, txs, Some(undo), height, blockHash, prevHash);
  }

  /** Unfolds the reversal by its last transaction. */
  lemma LastStep(m: CoinMap, txs: seq<Transaction>, undo: seq<seq<TxInUndo>>, k: nat, height: int)
    requires |undo| + 1 == |txs| && k < |txs|
    requires k > 0 ==> |undo[k - 1]| == |txs[k].vin|
    ensures
      var whole := DisconnectTxs(m, txs[..k + 1], undo[..k], height);
      var matched := OutputsMatch(Lookup(m, txs[k].id), txs[k], height);
      if k == 0 then whole == Some((m - {txs[k].id}, matched))
      else
        var (m2, restored) := RestoreInputs(m - {txs[k].id}, txs[k].vin, undo[k - 1]);
        var rest := DisconnectTxs(m2, txs[..k], undo[..k - 1], height);
        if rest.None? then whole.None? else whole == Some((rest.value.0, matched && restored && rest.value.1))
  {
    hide OutputsMatch, RestoreInputs, Lookup;
    assert txs[..k + 1][..k] == txs[..k];
    if k > 0 {
      assert undo[..k][..k - 1] == undo[..k - 1];
    }
  }
}
