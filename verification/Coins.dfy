/**
  The unspent outputs of one transaction (CCoins) and the undo record that
  spending one of them leaves behind (CTxInUndo).
*/
module CoinsModel {
  import opened Primitives

  datatype Coins = Coins(coinBase: bool, vout: seq<TxOut>, height: int, version: int)
  {
    predicate IsAvailable(n: nat) { n < |vout| && !vout[n].IsNull() }

    predicate IsPruned() { forall i :: 0 <= i < |vout| ==> vout[i].IsNull() }

    /** No spent output is stored at the end. */
    predicate Cleaned() { |vout| > 0 ==> !vout[|vout| - 1].IsNull() }

    /** Spent outputs carry no leftover script or mixing data. */
    predicate Tidy() { forall i :: 0 <= i < |vout| && vout[i].IsNull() ==> vout[i] == NULL_OUT }
  }

  const NO_COINS := Coins(false, [], 0, 0)

  /** The equality that CCoins declares: pruned records are all equal. */
  predicate SameCoins(a: Coins, b: Coins) {
    (a.IsPruned() && b.IsPruned()) || a == b
  }

  /** vout without its trailing null outputs. */
  function Trim(vout: seq<TxOut>): (r: seq<TxOut>)
    ensures r <= vout
    ensures |r| > 0 ==> !r[|r| - 1].IsNull()
    ensures forall i :: |r| <= i < |vout| ==> vout[i].IsNull()
  {
    if |vout| > 0 && vout[|vout| - 1].IsNull() then Trim(vout[..|vout| - 1]) else vout
  }

  function Cleanup(c: Coins): (r: Coins)
    ensures r.Cleaned() && r.IsPruned() == c.IsPruned()
    ensures c.Cleaned() ==> r == c
    ensures c.Tidy() ==> r.Tidy()
    ensures forall n: nat :: r.IsAvailable(n) == c.IsAvailable(n)
    ensures c.IsPruned() ==> r.vout == []
  {
    c.(vout := Trim(c.vout))
  }

  /** The loop of CCoins::Cleanup. */
  method CleanupLoop(c: Coins) returns (r: Coins)
    ensures r == Cleanup(c)
  {
    var vout := c.vout;
    while |vout| > 0 && vout[|vout| - 1].IsNull()
      invariant Trim(vout) == Trim(c.vout)
    {
      vout := vout[..|vout| - 1];
    }
    r := c.(vout := vout);
  }

  function NullUnspendable(vout: seq<TxOut>): (r: seq<TxOut>)
    ensures |r| == |vout|
    ensures forall i :: 0 <= i < |vout| ==> r[i] == if vout[i].IsUnspendable() then NULL_OUT else vout[i]
  {
    seq(|vout|, i requires 0 <= i < |vout| => if vout[i].IsUnspendable() then NULL_OUT else vout[i])
  }

  function ClearUnspendable(c: Coins): (r: Coins) {
    Cleanup(c.(vout := NullUnspendable(c.vout)))
  }

  /** The loop of CCoins::ClearUnspendable. */
  method ClearUnspendableLoop(c: Coins) returns (r: Coins)
    ensures r == ClearUnspendable(c)
  {
    var vout := c.vout;
    for i := 0 to |vout|
      invariant |vout| == |c.vout|
      invariant forall k :: 0 <= k < i ==> vout[k] == NullUnspendable(c.vout)[k]
      invariant forall k :: i <= k < |vout| ==> vout[k] == c.vout[k]
    {
      if vout[i].IsUnspendable() {
        vout := vout[i := NULL_OUT];
      }
    }
    assert vout == NullUnspendable(c.vout);
    r := CleanupLoop(c.(vout := vout));
  }

  /** The coins a transaction creates when it enters the chain at some height. */
  function FromTx(tx: Transaction, height: int): (r: Coins) {
    ClearUnspendable(Coins(tx.IsCoinBase(), tx.vout, height, tx.version))
  }

  datatype TxInUndo = TxInUndo(txout: TxOut, coinBase: bool, height: int, version: int)

  /** CCoins::Spend: the record loses output n; the undo entry keeps it. */
  function Spend(c: Coins, n: nat): (r: Option<(Coins, TxInUndo)>)
    ensures r.Some? <==> c.IsAvailable(n)
    ensures r.Some? ==>
      && r.value.0.Cleaned()
      && forall k: nat :: r.value.0.IsAvailable(k) <==> c.IsAvailable(k) && k != n
  {
    if n >= |c.vout| || c.vout[n].IsNull() then None
    else
      var d := Cleanup(c.(vout := c.vout[n := NULL_OUT]));
      assert forall k: nat :: d.IsAvailable(k) <==> c.IsAvailable(k) && k != n by {
        assert forall k: nat :: c.(vout := c.vout[n := NULL_OUT]).IsAvailable(k) <==> c.IsAvailable(k) && k != n;
      }
      var undo := TxInUndo(c.vout[n], false, 0, 0);
      Some((d, if |d.vout| == 0 then undo.(coinBase := d.coinBase, height := d.height, version := d.version) else undo))
  }

  function Resize(vout: seq<TxOut>, size: nat): (r: seq<TxOut>)
    requires size >= |vout|
    ensures |r| == size && vout <= r
    ensures forall i :: |vout| <= i < size ==> r[i] == NULL_OUT
  {
    vout + seq(size - |vout|, _ => NULL_OUT)
  }

  /** The edit ApplyTxInUndo makes to one record, and whether it found the record as expected. */
  function ApplyUndo(undo: TxInUndo, c: Coins, n: nat): (r: (Coins, bool)) {
    var c1 := if undo.height != 0 then Coins(undo.coinBase, [], undo.height, undo.version) else c;
    var clean := (undo.height != 0 <==> c.IsPruned()) && !c1.IsAvailable(n);
    var vout := if |c1.vout| < n + 1 then Resize(c1.vout, n + 1) else c1.vout;
    (c1.(vout := vout[n := undo.txout]), clean)
  }

  /** What a view shows of a record: a pruned one is as good as none. */
  function Shown(c: Coins): (r: Coins) {
    if c.IsPruned() then NO_COINS else c
  }

  lemma SpentRecord(c: Coins, n: nat)
    requires c.Cleaned() && c.IsAvailable(n)
    ensures
      var d := Spend(c, n).value.0;
      && d.coinBase == c.coinBase && d.height == c.height && d.version == c.version
      && |d.vout| <= |c.vout|
      && (d.IsPruned() <==> d.vout == [])
      && (forall i :: 0 <= i < |d.vout| && i != n ==> d.vout[i] == c.vout[i])
      && (forall i :: |d.vout| <= i < |c.vout| && i != n ==> c.vout[i].IsNull())
      && (n < |d.vout| ==> |d.vout| == |c.vout|)
      && (n < |d.vout| ==> d.vout[n] == NULL_OUT)
    ensures
      var (d, undo) := Spend(c, n).value;
      && undo.txout == c.vout[n]
      && (if d.IsPruned() then undo == TxInUndo(c.vout[n], c.coinBase, c.height, c.version) else undo.height == 0)
  {
    var v := c.vout[n := NULL_OUT];
    var d := Spend(c, n).value.0;
    assert d.vout == Trim(v);
  }

  /** The last output of a record of height 0 does not come back cleanly. */
  lemma HeightZeroNotUndone()
    ensures var c := Coins(true, [TxOut(5, NO_ROUNDS, [])], 0, 1);
      && c.Cleaned() && c.Tidy() && c.IsAvailable(0)
      && var (d, undo) := Spend(c, 0).value; ApplyUndo(undo, Shown(d), 0) != (c, true)
  {
    SpendThenUndo(Coins(true, [TxOut(5, NO_ROUNDS, [])], 0, 1), 0);
  }

  /**
    Undoing a spend is exact precisely when the record still had another unspent
    output, or had a non-zero height: height 0 is how an undo entry says
    "not the last output".
  */
  lemma SpendThenUndo(c: Coins, n: nat)
    requires c.Cleaned() && c.Tidy() && c.IsAvailable(n)
    ensures
      var (d, undo) := Spend(c, n).value;
      (ApplyUndo(undo, Shown(d), n) == (c, true)) <==>
      (c.height != 0 || exists k: nat :: k != n && c.IsAvailable(k))
  {
    var (d, undo) := Spend(c, n).value;
    SpentRecord(c, n);
    var (r, clean) := ApplyUndo(undo, Shown(d), n);
    if d.IsPruned() {
      assert undo.height == c.height;
      assert forall k: nat :: k != n ==> !c.IsAvailable(k) by {
        forall k: nat | k != n ensures !c.IsAvailable(k) {
          assert !d.IsAvailable(k);
        }
      }
      assert |c.vout| == n + 1 by {
        assert c.IsAvailable(|c.vout| - 1);
      }
      if c.height != 0 {
        assert clean;
        assert r.vout == c.vout;
      } else {
        assert !clean;
      }
    } else {
      var i :| 0 <= i < |d.vout| && !d.vout[i].IsNull();
      assert d.IsAvailable(i) && i != n && c.IsAvailable(i);
      assert undo.height == 0;
      assert !d.IsAvailable(n);
      assert clean;
      assert r.vout == c.vout;
    }
  }
}
