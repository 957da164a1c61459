/**
  The index and the money supply along the main chain, over every run of block
  connects and disconnects.
*/
module ChainLedger {
  import opened Primitives
  import opened TxIndexModel
  import opened TxLedger
  import opened BlockLedger
  import opened LedgerRules

  // ------------------------------------------------------------------- money

  /** The whole block: what it creates minus what it spends is the change in unspent value. */
  lemma {:induction false} UnspentAfterBlock(env: Env, view: Index, ledger: seq<Placed>, txs: seq<Placed>)
    requires Located(ledger + txs) && OnDisk(env.disk, ledger + txs) && Fresh(map[], ledger + txs)
    requires view.Keys == Ids(ledger) && Covers(view, ledger)
    requires ConnectAll(view, txs).Some?
    ensures var t := Tally(env, view, txs);
      var view' := ConnectAll(view, txs).value;
      && view'.Keys == Ids(ledger + txs) && Covers(view', ledger + txs)
      && Unspent(view', ledger + txs) == Unspent(view, ledger) + t.valueOut - t.valueIn
    decreases |txs|
  {
    hide Ids, Covers, Fresh, Located, OnDisk, Unspent, SumValues, ValueIn;
    if txs == [] {
      assert ledger + txs == ledger;
    } else {
      var k := |txs| - 1;
      assert (ledger + txs)[..|ledger| + k] == ledger + txs[..k];
      PrefixFacts(env, ledger + txs, |ledger| + k);
      UnspentAfterBlock(env, view, ledger, txs[..k]);
      var before := ConnectAll(view, txs[..k]).value;
      UnspentAfterTx(before, ledger + txs, env.disk);
      InputsValue(env, before, Tally(env, view, txs[..k]), txs[k].tx);
    }
  }

  lemma PrefixFacts(env: Env, ledger: seq<Placed>, k: nat)
    requires k <= |ledger| && Located(ledger) && OnDisk(env.disk, ledger) && Fresh(map[], ledger)
    ensures Located(ledger[..k]) && OnDisk(env.disk, ledger[..k]) && Fresh(map[], ledger[..k])
  {
  }

  lemma InputsValue(env: Env, view: Index, t: Totals, tx: Transaction)
    ensures var r := AddTotals(env, view, t, tx);
      r.valueOut - r.valueIn == t.valueOut - t.valueIn + SumValues(tx.vout) - ValueIn(env.disk, view, Inputs(tx))
  {
  }

  /** Coinbase outputs and coinstake gains: the only ways a block creates money. */
  function Minted(env: Env, view: Index, txs: seq<Placed>): (r: int) {
    if txs == [] then 0
    else
      var k := |txs| - 1;
      var before := ConnectAll(view, txs[..k]);
      var tx := txs[k].tx;
      if before.None? then 0
      else
        Minted(env, view, txs[..k]) +
        if tx.IsCoinBase() then SumValues(tx.vout)
        else if tx.IsCoinStake() then SumValues(tx.vout) - ValueIn(env.disk, before.value, tx.vin)
        else 0
  }

  /** The recorded nMint is exactly what was minted. */
  lemma {:induction false} MintIsMinted(env: Env, view: Index, txs: seq<Placed>)
    ensures var t := Tally(env, view, txs); t.valueOut - t.valueIn + t.fees == Minted(env, view, txs)
  {
    hide SumValues, ValueIn, ConnectAll;
    if txs != [] {
      MintIsMinted(env, view, txs[..|txs| - 1]);
    }
  }

  /** Without coinstakes after position `from`, only the coinbase and what came before count. */
  lemma {:induction false} MintedByFront(env: Env, view: Index, txs: seq<Placed>, from: nat)
    requires from <= |txs| && ConnectAll(view, txs).Some?
    requires forall i :: from <= i < |txs| ==> !txs[i].tx.IsCoinBase() && !txs[i].tx.IsCoinStake()
    ensures Minted(env, view, txs) == Minted(env, view, txs[..from])
    ensures Tally(env, view, txs).stakeReward == Tally(env, view, txs[..from]).stakeReward
    decreases |txs|
  {
    hide SumValues, ValueIn, ConnectTx;
    if from == |txs| {
      assert txs[..from] == txs;
    } else {
      var k := |txs| - 1;
      assert txs[..k][..from] == txs[..from];
      MintedByFront(env, view, txs[..k], from);
    }
  }

  /** What the coinstakes pay out beyond their inputs. */
  function StakeGains(env: Env, view: Index, txs: seq<Placed>): (r: int) {
    if txs == [] then 0
    else
      var k := |txs| - 1;
      var before := ConnectAll(view, txs[..k]);
      if before.None? then 0
      else
        StakeGains(env, view, txs[..k]) +
        if txs[k].tx.IsCoinStake() then SumValues(txs[k].tx.vout) - ValueIn(env.disk, before.value, txs[k].tx.vin) else 0
  }

  lemma {:induction false} MintedParts(env: Env, view: Index, txs: seq<Placed>)
    requires txs != [] && ConnectAll(view, txs).Some? && txs[0].tx.IsCoinBase()
    requires forall i :: 1 <= i < |txs| ==> !txs[i].tx.IsCoinBase()
    ensures Minted(env, view, txs) == SumValues(txs[0].tx.vout) + StakeGains(env, view, txs)
  {
    hide SumValues, ValueIn, ConnectTx;
    var k := |txs| - 1;
    if k == 0 {
      assert txs[..0] == [];
    } else {
      MintedParts(env, view, txs[..k]);
    }
  }

  lemma {:induction false} NoStakeNoGain(env: Env, view: Index, txs: seq<Placed>)
    requires forall i :: 0 <= i < |txs| ==> !txs[i].tx.IsCoinStake()
    ensures StakeGains(env, view, txs) == 0
  {
    if txs != [] {
      NoStakeNoGain(env, view, txs[..|txs| - 1]);
    }
  }

  /** The exact rise of the supply: what the coinbase pays and the coinstakes gain, less the fees. */
  lemma SupplyRise(env: Env, view: Index, vtx: seq<Placed>, subsidy: int)
    requires BlockOk(env, view, vtx, subsidy)
    ensures var t := Tally(env, view, vtx);
      t.valueOut - t.valueIn == SumValues(vtx[0].tx.vout) + StakeGains(env, view, vtx) - t.fees
  {
    hide SumValues, Tally, StakeGains, Minted;
    AcceptsConnects(env, view, vtx);
    MintIsMinted(env, view, vtx);
    MintedParts(env, view, vtx);
  }

  /**
    An accepted proof-of-stake block raises the supply by at most its reward.  An accepted proof-of-work
    block stays within the subsidy if and only if coinbase and coinstake gains together keep to the limit
    that is checked for the coinbase alone; without coinstakes they always do.
  */
  lemma SupplyGrowth(env: Env, view: Index, vtx: seq<Placed>, subsidy: int)
    requires BlockOk(env, view, vtx, subsidy)
    ensures var t := Tally(env, view, vtx);
      && (IsProofOfStake(vtx) ==> t.valueOut - t.valueIn <= STATIC_POS_REWARD)
      && (!IsProofOfStake(vtx) ==>
            (t.valueOut - t.valueIn <= subsidy <==> SumValues(vtx[0].tx.vout) + StakeGains(env, view, vtx) <= subsidy + t.fees))
      && (!IsProofOfStake(vtx) && (forall i :: 1 <= i < |vtx| ==> !vtx[i].tx.IsCoinStake()) ==> StakeGains(env, view, vtx) == 0)
  {
    AcceptsConnects(env, view, vtx);
    MintIsMinted(env, view, vtx);
    FrontMint(env, view, vtx);
    if IsProofOfStake(vtx) {
      MintedByFront(env, view, vtx, 2);
      assert SumValues(vtx[0].tx.vout) == 0 by {
        assert vtx[0].tx.vout == [vtx[0].tx.vout[0]];
        assert SumValues(vtx[0].tx.vout[..0]) == 0;
      }
    } else {
      SupplyRise(env, view, vtx, subsidy);
      if forall i :: 1 <= i < |vtx| ==> !vtx[i].tx.IsCoinStake() {
        NoStakeNoGain(env, view, vtx);
      }
    }
  }

  lemma FrontMint(env: Env, view: Index, vtx: seq<Placed>)
    requires CheckBlock(vtx) && ConnectAll(view, vtx).Some?
    ensures Minted(env, view, vtx[..1]) == SumValues(vtx[0].tx.vout)
    ensures IsProofOfStake(vtx) ==>
      Minted(env, view, vtx[..2]) == SumValues(vtx[0].tx.vout) + Tally(env, view, vtx[..2]).stakeReward
  {
    hide SumValues, ValueIn, ConnectTx;
    assert vtx[..1][..0] == [];
    if IsProofOfStake(vtx) {
      assert vtx[..2][..1] == vtx[..1];
      assert ConnectAll(view, vtx[..1]).Some? by {
        ConnectAllSplit(view, vtx[..1], vtx[1..]);
        assert vtx[..1] + vtx[1..] == vtx;
      }
    }
  }

  // --------------------------------------------------------------- the chain

  /** All transactions of the main chain above genesis, in order. */
  function Flatten(chain: seq<seq<Placed>>): (r: seq<Placed>) {
    if chain == [] then [] else Flatten(chain[..|chain| - 1]) + chain[|chain| - 1]
  }

  /** A main chain that can be replayed: ids fresh, every transaction on disk, no input missing or spent twice. */
  ghost predicate GoodChain(disk: Disk, chain: seq<seq<Placed>>) {
    var ledger := Flatten(chain);
    Fresh(map[], ledger) && Located(ledger) && OnDisk(disk, ledger) && Replay(ledger).Some?
  }

  /** The unspent value of a chain's outputs. */
  ghost function ChainUnspent(disk: Disk, chain: seq<seq<Placed>>): (r: int)
    requires GoodChain(disk, chain)
  {
    ReplayRecords(Flatten(chain));
    Unspent(Replay(Flatten(chain)).value, Flatten(chain))
  }

  /** Each block's recorded supply is the unspent value of the chain up to it. */
  ghost predicate SuppliesOk(disk: Disk, chain: seq<seq<Placed>>, supplies: seq<int>) {
    && |supplies| == |chain|
    && (chain != [] ==>
        && SuppliesOk(disk, chain[..|chain| - 1], supplies[..|chain| - 1])
        && GoodChain(disk, chain) && supplies[|chain| - 1] == ChainUnspent(disk, chain))
  }

  function TipSupply(supplies: seq<int>): (r: int) {
    if supplies == [] then 0 else supplies[|supplies| - 1]
  }

  /** A block whose ids are new and whose transactions have been written to disk. */
  ghost predicate Admissible(disk: Disk, index: Index, b: seq<Placed>) {
    Fresh(index, b) && Located(b) && OnDisk(disk, b)
  }

  lemma FreshAppend(ledger: seq<Placed>, b: seq<Placed>, index: Index)
    requires Fresh(map[], ledger) && index.Keys == Ids(ledger) && Fresh(index, b)
    ensures Fresh(map[], ledger + b)
  {
    var all := ledger + b;
    forall i, j | 0 <= i < j < |all| ensures all[i].tx.id != all[j].tx.id {
      if i < |ledger| <= j {
        assert ledger[i].tx.id in Ids(ledger);
        assert all[j] == b[j - |ledger|];
      } else if i >= |ledger| {
        assert all[i] == b[i - |ledger|] && all[j] == b[j - |ledger|];
      }
    }
  }

  /** Connecting an admissible block extends a good chain and its supply. */
  lemma ChainExtended(env: Env, chain: seq<seq<Placed>>, b: seq<Placed>, index: Index)
    requires GoodChain(env.disk, chain) && Replay(Flatten(chain)) == Some(index)
    requires Admissible(env.disk, index, b) && ConnectAll(index, b).Some?
    ensures GoodChain(env.disk, chain + [b]) && Replay(Flatten(chain + [b])) == ConnectAll(index, b)
    ensures var t := Tally(env, index, b);
      ChainUnspent(env.disk, chain + [b]) == ChainUnspent(env.disk, chain) + t.valueOut - t.valueIn
  {
    var ledger := Flatten(chain);
    assert (chain + [b])[..|chain|] == chain;
    assert Flatten(chain + [b]) == ledger + b;
    ReplayRecords(ledger);
    FreshAppend(ledger, b, index);
    ConnectAllSplit(map[], ledger, b);
    AppendFacts(env.disk, ledger, b);
    ListsCovers(index, ledger);
    UnspentAfterBlock(env, index, ledger, b);
  }

  lemma AppendFacts(disk: Disk, ledger: seq<Placed>, b: seq<Placed>)
    requires Located(ledger) && OnDisk(disk, ledger) && Located(b) && OnDisk(disk, b)
    ensures Located(ledger + b) && OnDisk(disk, ledger + b)
  {
  }

  lemma ListsCovers(view: Index, ledger: seq<Placed>)
    requires Lists(view, ledger)
    ensures Covers(view, ledger)
  {
  }

  /** Taking the last block back leaves the chain before it. */
  lemma ChainShortened(disk: Disk, chain: seq<seq<Placed>>, index: Index)
    requires chain != [] && GoodChain(disk, chain) && Replay(Flatten(chain)) == Some(index)
    ensures GoodChain(disk, chain[..|chain| - 1])
    ensures DisconnectAll(index, chain[|chain| - 1]) == Replay(Flatten(chain[..|chain| - 1]))
  {
    var b := chain[|chain| - 1];
    var ledger := Flatten(chain[..|chain| - 1]);
    assert Flatten(chain) == ledger + b;
    ConnectAllSplit(map[], ledger, b);
    SplitFacts(disk, ledger, b);
    var before := Replay(ledger).value;
    ReplayRecords(ledger);
    SplitFresh(ledger, b, before);
    DisconnectUndoesConnect(before, b);
  }

  lemma SplitFacts(disk: Disk, ledger: seq<Placed>, b: seq<Placed>)
    requires Located(ledger + b) && OnDisk(disk, ledger + b) && Fresh(map[], ledger + b)
    ensures Located(ledger) && OnDisk(disk, ledger) && Fresh(map[], ledger) && Located(b)
  {
    assert forall i :: 0 <= i < |ledger| ==> ledger[i] == (ledger + b)[i];
    assert forall i :: 0 <= i < |b| ==> b[i] == (ledger + b)[|ledger| + i];
  }

  lemma SplitFresh(ledger: seq<Placed>, b: seq<Placed>, index: Index)
    requires Fresh(map[], ledger + b) && index.Keys == Ids(ledger)
    ensures Fresh(index, b)
  {
    assert forall i :: 0 <= i < |ledger| ==> ledger[i] == (ledger + b)[i];
    assert forall i :: 0 <= i < |b| ==> b[i] == (ledger + b)[|ledger| + i];
  }

  class ChainDb {
    /** The block files: append-only, so every position keeps its transaction. */
    const disk: Disk

    /** The transaction index. */
    var index: Index

    /** nMoneySupply of the main-chain blocks above genesis. */
    var supplies: seq<int>

    /** The main-chain blocks above genesis. */
    var chain: seq<seq<Placed>>

    ghost predicate Valid()
      reads this
    {
      && GoodChain(disk, chain)
      && Replay(Flatten(chain)) == Some(index)
      && SuppliesOk(disk, chain, supplies)
    }

    constructor (disk: Disk)
      ensures Valid() && this.disk == disk && chain == [] && index == map[]
    {
      this.disk, index, supplies, chain := disk, map[], [], [];
    }

    /** CBlock::ConnectBlock: all checks, then the queued index changes and the new supply. */
    method ConnectBlock(vtx: seq<Placed>, env: Env, bestHeight: int) returns (ok: bool, mint: int)
      requires env.disk == disk && Located(vtx)
      modifies this
      ensures ok <==> BlockOk(env, old(index), vtx, Subsidy(bestHeight))
      ensures old(Valid()) && Admissible(disk, old(index), vtx) ==>
        (ok <==> BlockFits(env, Flatten(old(chain)), vtx, Subsidy(bestHeight)))
      ensures ok ==> Tally(env, old(index), vtx).fees >= 0
      ensures ok ==> forall k :: 0 <= k < |vtx| && !vtx[k].tx.IsCoinBase() && !vtx[k].tx.IsCoinStake() ==> Balances(disk, old(index), vtx, k)
      ensures !ok ==> unchanged(this)
      ensures ok ==> Some(index) == ConnectAll(old(index), vtx)
      ensures ok ==> mint == Minted(env, old(index), vtx)
      ensures ok ==> chain == old(chain) + [vtx]
      ensures ok ==> var t := Tally(env, old(index), vtx);
        supplies == old(supplies) + [TipSupply(old(supplies)) + t.valueOut - t.valueIn]
      ensures ok ==> var rise := TipSupply(supplies) - TipSupply(old(supplies));
        var t := Tally(env, old(index), vtx);
        && (IsProofOfStake(vtx) ==> rise <= STATIC_POS_REWARD)
        && rise == SumValues(vtx[0].tx.vout) + StakeGains(env, old(index), vtx) - t.fees
        && (!IsProofOfStake(vtx) ==>
              (rise <= Subsidy(bestHeight) <==> SumValues(vtx[0].tx.vout) + StakeGains(env, old(index), vtx) <= Subsidy(bestHeight) + t.fees))
      ensures ok && old(Valid()) && Admissible(disk, old(index), vtx) ==> Valid()
    {
      hide GoodChain, SuppliesOk, Flatten, ConnectAll, Tally, Accepts, CheckBlock, Minted, StakeGains, OnDisk, Fresh, BlockFits, Balances;
      ok, mint := false, 0;
      if Valid() && Admissible(disk, index, vtx) {
        FitsIff(env, chain, vtx, index, Subsidy(bestHeight));
      }
      if !CheckBlock(vtx) || !env.contextOk {
        return;
      }
      var queued, t;
      ok, queued, t := CollectChanges(vtx, env);
      if !ok {
        return;
      }
      HasCoinbase(vtx);
      var coinbaseOut := GetValueOut(vtx[0].tx);
      if !IsProofOfStake(vtx) && coinbaseOut > Subsidy(bestHeight) + t.fees {
        return false, 0;
      }
      if IsProofOfStake(vtx) && t.stakeReward > STATIC_POS_REWARD + t.fees {
        return false, 0;
      }
      MintIsMinted(env, index, vtx);
      TallyNotNegative(env, index, vtx);
      AllBalance(env, index, vtx);
      SupplyRise(env, index, vtx, Subsidy(bestHeight));
      SupplyGrowth(env, index, vtx, Subsidy(bestHeight));
      mint := t.valueOut - t.valueIn + t.fees;
      if Valid() && Admissible(disk, index, vtx) {
        ChainExtended(env, chain, vtx, index);
        SupplyAppended(env, chain, vtx, index, supplies);
      }
      supplies := supplies + [TipSupply(supplies) + t.valueOut - t.valueIn];
      WriteChanges(queued);
      chain := chain + [vtx];
      ok := true;
    }

    /** The loop of ConnectBlock: nothing is written yet. */
    method CollectChanges(vtx: seq<Placed>, env: Env) returns (ok: bool, queued: Index, t: Totals)
      requires env.disk == disk && Located(vtx)
      ensures ok <==> Accepts(env, index, vtx)
      ensures ok ==> ConnectAll(index, vtx) == Some(Pending(index, queued)) && t == Tally(env, index, vtx)
    {
      ok, queued, t := true, map[], NOTHING;
      CollectStart(env, index, vtx);
      hide ConnectAll, Tally, Accepts, Pending, ConnectOk, ConnectTx;
      for i := 0 to |vtx|
        invariant ok && ConnectAll(index, vtx[..i]) == Some(Pending(index, queued))
        invariant t == Tally(env, index, vtx[..i]) && t.sigOps >= 0
        invariant Accepts(env, index, vtx[..i])
      {
        TallyStep(env, index, vtx, i, Pending(index, queued));
        ok, queued, t := ConnectOne(env, vtx[i], index, queued, t);
        if !ok {
          AcceptsPrefix(env, index, vtx, i + 1);
          return;
        }
      }
      assert vtx[..|vtx|] == vtx;
    }

    /** The queued index entries are written, in any order. */
    method WriteChanges(queued: Index)
      modifies this`index
      ensures index == Pending(old(index), queued)
    {
      var todo := queued.Keys;
      while todo != {}
        invariant todo <= queued.Keys
        invariant forall id :: id in index <==> id in old(index) || (id in queued && id !in todo)
        invariant forall id :: id in index ==> index[id] == if id in queued && id !in todo then queued[id] else old(index)[id]
      {
        var id :| id in todo;
        index := index[id := queued[id]];
        todo := todo - {id};
      }
    }

    /** CTransactionPoS::DisconnectInputs. */
    method DisconnectInputs(tx: Transaction) returns (ok: bool)
      modifies this`index
      ensures ok <==> DisconnectTx(old(index), tx).Some?
      ensures ok ==> Some(index) == DisconnectTx(old(index), tx)
    {
      if !tx.IsCoinBase() {
        for i := 0 to |tx.vin|
          invariant UnspendInputs(old(index), tx.vin[..i]) == Some(index)
        {
          var out := tx.vin[i];
          assert tx.vin[..i + 1][..i] == tx.vin[..i];
          if out.hash !in index || out.n >= |index[out.hash].vSpent| {
            UnspendPrefix(old(index), tx.vin, i + 1);
            return false;
          }
          var entry := index[out.hash];
          entry := entry.(vSpent := entry.vSpent[out.n := NullPos]);
          index := index[out.hash := entry];
        }
        assert tx.vin[..|tx.vin|] == tx.vin;
      }
      index := index - {tx.id};
      ok := true;
    }

    /** The loop of CBlock::DisconnectBlock, in reverse order. */
    method DisconnectTxs(vtx: seq<Placed>) returns (ok: bool)
      modifies this`index
      ensures ok <==> DisconnectAll(old(index), vtx).Some?
      ensures ok ==> Some(index) == DisconnectAll(old(index), vtx)
    {
      hide DisconnectTx;
      var i := |vtx|;
      assert vtx[..i] == vtx;
      while i > 0
        invariant 0 <= i <= |vtx|
        invariant DisconnectAll(index, vtx[..i]) == DisconnectAll(old(index), vtx)
      {
        i := i - 1;
        assert vtx[..i + 1][..i] == vtx[..i];
        ok := DisconnectInputs(vtx[i].tx);
        if !ok {
          return;
        }
      }
      ok := true;
    }

    /** CBlock::DisconnectBlock of the tip: the index and the supply of the chain below it come back. */
    method DisconnectBlock(vtx: seq<Placed>) returns (ok: bool)
      requires chain != [] && supplies != [] && vtx == chain[|chain| - 1]
      modifies this
      ensures ok <==> DisconnectAll(old(index), vtx).Some?
      ensures ok ==> Some(index) == DisconnectAll(old(index), vtx)
      ensures ok ==> chain == old(chain)[..|old(chain)| - 1] && supplies == old(supplies)[..|old(supplies)| - 1]
      ensures !ok ==> unchanged(`chain) && unchanged(`supplies)
      ensures old(Valid()) ==> ok && Valid()
    {
      hide GoodChain, Flatten, DisconnectAll, ChainUnspent;
      if Valid() {
        ChainShortened(disk, chain, index);
      }
      ok := DisconnectTxs(vtx);
      if ok {
        chain := chain[..|chain| - 1];
        supplies := supplies[..|supplies| - 1];
      }
    }
  }

  lemma {:induction false} UnspendPrefix(view: Index, vin: seq<OutPoint>, k: nat)
    requires k <= |vin| && UnspendInputs(view, vin[..k]).None?
    ensures UnspendInputs(view, vin).None?
    decreases |vin|
  {
    if k < |vin| {
      assert vin[..|vin| - 1][..k] == vin[..k];
      UnspendPrefix(view, vin[..|vin| - 1], k);
    } else {
      assert vin[..k] == vin;
    }
  }

  lemma GoodChainRecords(disk: Disk, chain: seq<seq<Placed>>)
    requires GoodChain(disk, chain)
    ensures var ledger := Flatten(chain);
      Lists(Replay(ledger).value, ledger) && MarksSpenders(Replay(ledger).value, ledger) && NoDoubleSpend(ledger)
  {
    ReplayRecords(Flatten(chain));
  }

  // -------------------------------------------------------------------- runs

  /** Connect a block under given surroundings, or disconnect the tip. */
  datatype Step = Connect(vtx: seq<Placed>, env: Env, bestHeight: int) | Disconnect

  /**
    Any run from the empty index: while every connected block had fresh ids and was on disk,
    the state is that of replaying the main chain.  `good` reports whether that was so.  While no connected
    proof-of-work block carried a coinstake (`plain`), the supply is at most one coin per block and four million
    for each block that was connected on top of the genesis block; `heights` are the best heights at the time.
  */
  method Run(db: ChainDb, steps: seq<Step>) returns (ghost good: bool, ghost plain: bool, ghost heights: seq<int>)
    requires db.Valid() && |db.supplies| == |db.chain|
    requires forall i :: 0 <= i < |steps| && steps[i].Connect? ==> steps[i].env.disk == db.disk && Located(steps[i].vtx)
    modifies db
    ensures good ==> db.Valid()
    ensures good ==> Lists(db.index, Flatten(db.chain)) && MarksSpenders(db.index, Flatten(db.chain)) && NoDoubleSpend(Flatten(db.chain))
    ensures good ==> GoodChain(db.disk, db.chain) && TipSupply(db.supplies) == ChainUnspent(db.disk, db.chain)
    ensures |heights| == |db.chain| && (plain && old(db.chain) == [] ==> TipSupply(db.supplies) <= Allowance(heights))
  {
    hide GoodChain, SuppliesOk, Flatten, DisconnectAll, ChainUnspent, BlockOk, ConnectAll, Tally, Minted, Fresh, OnDisk;
    hide Lists, MarksSpenders, NoDoubleSpend;
    hide Within, StakeGains, BlockFits, Balances;
    good, plain, heights := true, true, seq(|db.chain|, _ => 0);
    NothingYet();
    for i := 0 to |steps|
      invariant good ==> db.Valid()
      invariant |db.supplies| == |db.chain| == |heights|
      invariant plain && old(db.chain) == [] ==> Within(db.supplies, heights)
    {
      match steps[i] {
        case Connect(vtx, env, bestHeight) =>
          ghost var admissible, index, supplies := Admissible(db.disk, db.index, vtx), db.index, db.supplies;
          var ok, _ := db.ConnectBlock(vtx, env, bestHeight);
          good, plain := good && (ok ==> admissible), plain && (ok ==> NoMisplacedStake(vtx));
          if ok && plain {
            RiseAllowed(env, index, vtx, bestHeight);
            OneMoreWithin(supplies, heights, TipSupply(db.supplies), bestHeight);
          }
          heights := if ok then heights + [bestHeight] else heights;
        case Disconnect =>
          if db.chain != [] {
            ghost var supplies := db.supplies;
            var ok := db.DisconnectBlock(db.chain[|db.chain| - 1]);
            if ok {
              OneLessWithin(supplies, heights);
              heights := heights[..|heights| - 1];
            }
          }
      }
    }
    WithinTotal(db.supplies, heights);
    if good {
      GoodChainRecords(db.disk, db.chain);
      TipIsUnspent(db.disk, db.chain, db.supplies);
    }
  }

  // ----------------------------------------------------------------- the limit

  predicate NoMisplacedStake(vtx: seq<Placed>) { IsProofOfStake(vtx) || forall i :: 1 <= i < |vtx| ==> !vtx[i].tx.IsCoinStake() }

  /** The most that blocks connected at these best heights can have created. */
  function Allowance(heights: seq<int>): (r: int) {
    if heights == [] then 0
    else Allowance(heights[..|heights| - 1]) + if heights[|heights| - 1] == 0 then 400_000_000_000_000 else 100_000_000
  }

  /** Each recorded supply keeps to the allowance of its block. */
  predicate Within(supplies: seq<int>, heights: seq<int>) {
    && |supplies| == |heights|
    && (supplies != [] ==>
        var k := |supplies| - 1;
        && Within(supplies[..k], heights[..k])
        && TipSupply(supplies) - TipSupply(supplies[..k]) <= Allowance([heights[k]]))
  }

  lemma NothingYet()
    ensures Within([], [])
  {
  }

  lemma RiseAllowed(env: Env, view: Index, vtx: seq<Placed>, bestHeight: int)
    requires BlockOk(env, view, vtx, Subsidy(bestHeight)) && NoMisplacedStake(vtx)
    ensures var t := Tally(env, view, vtx); t.valueOut - t.valueIn <= Allowance([bestHeight])
  {
    hide BlockOk, Tally, StakeGains;
    assert [bestHeight][..0] == [];
    SupplyGrowth(env, view, vtx, Subsidy(bestHeight));
    SupplyRise(env, view, vtx, Subsidy(bestHeight));
    CoinbaseLimited(env, view, vtx, Subsidy(bestHeight));
  }

  lemma CoinbaseLimited(env: Env, view: Index, vtx: seq<Placed>, subsidy: int)
    requires BlockOk(env, view, vtx, subsidy)
    ensures |vtx| > 0 && (!IsProofOfStake(vtx) ==> SumValues(vtx[0].tx.vout) <= subsidy + Tally(env, view, vtx).fees)
  {
    hide Accepts, Tally, SumValues;
  }

  lemma OneMoreWithin(supplies: seq<int>, heights: seq<int>, supply: int, bestHeight: int)
    requires |supplies| == |heights| && supply - TipSupply(supplies) <= Allowance([bestHeight])
    ensures Within(supplies, heights) ==> Within(supplies + [supply], heights + [bestHeight])
  {
    hide Allowance;
    assert (supplies + [supply])[..|supplies|] == supplies && (heights + [bestHeight])[..|heights|] == heights;
  }

  lemma OneLessWithin(supplies: seq<int>, heights: seq<int>)
    requires supplies != [] && |supplies| == |heights|
    ensures Within(supplies, heights) ==> Within(supplies[..|supplies| - 1], heights[..|heights| - 1])
  {
    hide Allowance;
  }

  lemma {:induction false} WithinTotal(supplies: seq<int>, heights: seq<int>)
    ensures Within(supplies, heights) ==> TipSupply(supplies) <= Allowance(heights)
  {
    if supplies != [] && Within(supplies, heights) {
      var k := |supplies| - 1;
      WithinTotal(supplies[..k], heights[..k]);
      assert [heights[k]][..0] == [] && Allowance([]) == 0;
    }
  }

  /** Transaction k creates no more than it spends, on the index its predecessors leave. */
  predicate Balances(disk: Disk, view: Index, vtx: seq<Placed>, k: nat)
    requires k < |vtx|
  {
    var before := ConnectAll(view, vtx[..k]);
    before.Some? && SumValues(vtx[k].tx.vout) <= ValueIn(disk, before.value, vtx[k].tx.vin)
  }

  lemma AllBalance(env: Env, view: Index, vtx: seq<Placed>)
    requires Accepts(env, view, vtx)
    ensures forall k :: 0 <= k < |vtx| && !vtx[k].tx.IsCoinBase() && !vtx[k].tx.IsCoinStake() ==> Balances(env.disk, view, vtx, k)
  {
    hide Accepts, ConnectAll, SumValues, ValueIn;
    forall k | 0 <= k < |vtx| && !vtx[k].tx.IsCoinBase() && !vtx[k].tx.IsCoinStake() ensures Balances(env.disk, view, vtx, k) {
      AcceptedBalances(env, view, vtx, k);
    }
  }

  /** On a replayed chain, what passes on the index is what fits the chain. */
  lemma FitsIff(env: Env, chain: seq<seq<Placed>>, b: seq<Placed>, index: Index, subsidy: int)
    requires GoodChain(env.disk, chain) && Replay(Flatten(chain)) == Some(index) && Admissible(env.disk, index, b)
    ensures BlockOk(env, index, b, subsidy) <==> BlockFits(env, Flatten(chain), b, subsidy)
  {
    hide Flatten, Replay, BlockOk, BlockFits, Lists, MarksSpenders, NoDoubleSpend;
    var ledger := Flatten(chain);
    ReplayRecords(ledger);
    ListsKeys(index, ledger);
    FreshAppend(ledger, b, index);
    AppendFacts(env.disk, ledger, b);
    BlockOkIff(env, ledger, b, index, subsidy);
  }

  lemma ListsKeys(view: Index, ledger: seq<Placed>)
    requires Lists(view, ledger)
    ensures view.Keys == Ids(ledger)
  {
  }

  lemma CollectStart(env: Env, index: Index, vtx: seq<Placed>)
    ensures ConnectAll(index, vtx[..0]) == Some(Pending(index, map[]))
    ensures Tally(env, index, vtx[..0]) == NOTHING && Accepts(env, index, vtx[..0])
  {
    assert index + map[] == index;
  }

  lemma SupplyAppended(env: Env, chain: seq<seq<Placed>>, b: seq<Placed>, index: Index, supplies: seq<int>)
    requires GoodChain(env.disk, chain) && Replay(Flatten(chain)) == Some(index) && SuppliesOk(env.disk, chain, supplies)
    requires Admissible(env.disk, index, b) && ConnectAll(index, b).Some?
    ensures var t := Tally(env, index, b);
      SuppliesOk(env.disk, chain + [b], supplies + [TipSupply(supplies) + t.valueOut - t.valueIn])
  {
    ChainExtended(env, chain, b, index);
    hide GoodChain, Tally, ConnectAll, Flatten, Admissible;
    var t := Tally(env, index, b);
    var s := supplies + [TipSupply(supplies) + t.valueOut - t.valueIn];
    assert (chain + [b])[..|chain|] == chain && s[..|chain|] == supplies;
    TipIsUnspent(env.disk, chain, supplies);
  }

  /** The tip's nMoneySupply equals everything unspent in the index. */
  lemma TipIsUnspent(disk: Disk, chain: seq<seq<Placed>>, supplies: seq<int>)
    requires GoodChain(disk, chain) && SuppliesOk(disk, chain, supplies)
    ensures TipSupply(supplies) == ChainUnspent(disk, chain)
  {
    if chain == [] {
      assert Flatten(chain) == [];
    }
  }
}
