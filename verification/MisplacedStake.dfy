/**
  A proof-of-work block that carries a coinstake.  CheckBlock looks for misplaced coinstakes in
  proof-of-stake blocks only, and ConnectBlock limits only the coinbase of a proof-of-work block, so
  the supply rises by more than the subsidy.
*/
module MisplacedStake {
  import opened Primitives
  import opened TxIndexModel
  import opened TxLedger
  import opened BlockLedger
  import opened ChainLedger

  function Plain(value: int): (r: TxOut) { TxOut(value, NO_ROUNDS, [0]) }

  function Coinbase(id: nat, vout: seq<TxOut>): (r: Placed) {
    Placed(Transaction(Hash(id), 1, 0, [OutPoint(NULL_HASH, NULL_INDEX)], vout), At(0, 0, id))
  }

  /** Spends output n of the stored transaction. */
  function Spending(id: nat, n: nat, vout: seq<TxOut>): (r: Placed) {
    Placed(Transaction(Hash(id), 1, 0, [OutPoint(Hash(1), n)], vout), At(0, 0, id))
  }

  /** The transaction that is already in the chain, with two outputs of one unit. */
  const STORED := Coinbase(1, [Plain(1), Plain(1)])

  const ENV := Env(map[STORED.pos := STORED.tx], true, _ => false, (_, _, _) => true, _ => 0, (_, _) => 0)

  /** The coinbase takes the whole subsidy, one transaction passes a unit on, and a coinstake turns a unit into 1001. */
  function Block(): (vtx: seq<Placed>) {
    [Coinbase(2, [Plain(STATIC_POW_REWARD)]), Spending(3, 0, [Plain(1)]), Spending(4, 1, [TxOut(0, NO_ROUNDS, []), Plain(1001)])]
  }

  /** The index of the chain that holds just the stored transaction, with the given spent marks. */
  function View(spent: seq<DiskPos>): (view: Index) { map[Hash(1) := TxIndex(STORED.pos, spent)] }

  lemma StoredIsReplayed()
    ensures Replay([STORED]) == Some(View([NullPos, NullPos]))
  {
    var ledger := [STORED];
    assert ledger[..|ledger| - 1] == [];
    assert NewIndex(STORED) == TxIndex(STORED.pos, [NullPos, NullPos]);
    assert ConnectAll(map[], ledger) == ConnectTx(map[], STORED);
  }

  lemma Sums(a: TxOut, b: TxOut)
    ensures SumValues([a]) == a.value && SumValues([a, b]) == a.value + b.value
  {
    assert [a][..0] == [] && [a, b][..1] == [a];
  }

  lemma BlockChecks()
    ensures CheckBlock(Block()) && !IsProofOfStake(Block())
  {
    var vtx := Block();
    Sums(vtx[0].tx.vout[0], Plain(0));
    Sums(vtx[1].tx.vout[0], Plain(0));
    Sums(vtx[2].tx.vout[0], vtx[2].tx.vout[1]);
    assert CheckTransaction(vtx[0].tx) && CheckTransaction(vtx[1].tx) && CheckTransaction(vtx[2].tx);
  }

  /** An unspent output of the stored transaction can be spent, for one unit. */
  lemma SpendsOne(view: Index, p: Placed, n: nat)
    requires n < 2 && p.tx.vin == [OutPoint(Hash(1), n)] && p.tx.time == 0 && !p.tx.IsCoinBase()
    requires Hash(1) in view && view[Hash(1)].pos == STORED.pos && |view[Hash(1)].vSpent| == 2 && view[Hash(1)].vSpent[n] == NullPos
    requires p.tx.IsCoinStake() || SumValues(p.tx.vout) <= 1
    ensures ConnectOk(ENV, view, p) && ValueIn(ENV.disk, view, p.tx.vin) == 1
    ensures ConnectTx(view, p) == Some(SetSpender(view, p.tx.vin[0], p.pos)[p.tx.id := NewIndex(p)])
  {
    var vin, out := p.tx.vin, p.tx.vin[0];
    assert vin[..|vin| - 1] == [];
    assert SpendInputs(view, [], p.pos) == Some(view) && ValueIn(ENV.disk, view, []) == 0;
    assert CanRead(ENV.disk, view, out) && PrevOut(ENV.disk, view, out) == Plain(1);
    assert InputOk(ENV, view, p.tx, out);
    assert InRange(view, out) && TxIndexModel.Spender(view, out) == NullPos;
    assert SpendInputs(view, vin, p.pos) == Some(SetSpender(view, out, p.pos));
  }

  /** The three transactions are accepted one after the other; the coinstake alone gains anything. */
  lemma BlockTallies(view: Index)
    requires view == View([NullPos, NullPos])
    ensures Accepts(ENV, view, Block()) && StakeGains(ENV, view, Block()) == 1000
    ensures var t := Tally(ENV, view, Block()); t.fees == 0
  {
    hide ConnectOk, Accepts, Tally, ConnectTx, ValueIn, SpendInputs, SetSpender;
    var vtx := Block();
    Sums(vtx[1].tx.vout[0], Plain(0));
    Sums(vtx[2].tx.vout[0], vtx[2].tx.vout[1]);
    CollectStart(ENV, view, vtx);
    Steps(view, vtx);
  }

  lemma Steps(view: Index, vtx: seq<Placed>)
    requires view == View([NullPos, NullPos]) && vtx == Block()
    requires SumValues(vtx[1].tx.vout) == 1 && SumValues(vtx[2].tx.vout) == 1001
    requires Accepts(ENV, view, vtx[..0]) && Tally(ENV, view, vtx[..0]) == NOTHING
    ensures Accepts(ENV, view, vtx) && StakeGains(ENV, view, vtx) == 1000 && Tally(ENV, view, vtx).fees == 0
  {
    hide ConnectOk, Accepts, Tally, ValueIn, SpendInputs;
    var v1 := view[Hash(2) := NewIndex(vtx[0])];
    var v2 := v1[Hash(1) := TxIndex(STORED.pos, [vtx[1].pos, NullPos])][Hash(3) := NewIndex(vtx[1])];
    assert vtx[..0] == [] && vtx[..3] == vtx;
    TallyStep(ENV, view, vtx, 0, view);
    SpendsOne(v1, vtx[1], 0);
    assert [NullPos, NullPos][0 := vtx[1].pos] == [vtx[1].pos, NullPos];
    assert ConnectTx(v1, vtx[1]) == Some(v2);
    TallyStep(ENV, view, vtx, 1, v1);
    SpendsOne(v2, vtx[2], 1);
    TallyStep(ENV, view, vtx, 2, v2);
    GainsStep(view, vtx, 0, view);
    GainsStep(view, vtx, 1, v1);
    GainsStep(view, vtx, 2, v2);
  }

  lemma GainsStep(view: Index, vtx: seq<Placed>, i: nat, now: Index)
    requires i < |vtx| && ConnectAll(view, vtx[..i]) == Some(now)
    ensures StakeGains(ENV, view, vtx[..i + 1]) == StakeGains(ENV, view, vtx[..i]) +
      if vtx[i].tx.IsCoinStake() then SumValues(vtx[i].tx.vout) - ValueIn(ENV.disk, now, vtx[i].tx.vin) else 0
    ensures StakeGains(ENV, view, []) == 0
  {
    hide ValueIn, SumValues, ConnectTx;
    assert vtx[..i + 1][..i] == vtx[..i];
  }

  /** On a replayed chain, an accepted proof-of-work block raises the supply by 1000 more than the subsidy. */
  lemma RisesBeyondSubsidy()
    ensures Replay([STORED]).Some?
    ensures var view := Replay([STORED]).value;
      var t := Tally(ENV, view, Block());
      && BlockOk(ENV, view, Block(), STATIC_POW_REWARD) && !IsProofOfStake(Block())
      && t.valueOut - t.valueIn == STATIC_POW_REWARD + 1000
  {
    hide Accepts, Tally, StakeGains, Replay;
    StoredIsReplayed();
    var view := Replay([STORED]).value;
    BlockChecks();
    BlockTallies(view);
    Sums(Plain(STATIC_POW_REWARD), Plain(0));
    SupplyRise(ENV, view, Block(), STATIC_POW_REWARD);
  }
}
