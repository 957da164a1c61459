/**
  What block connection demands, said of the chain itself: no index and no block files, only the
  transactions that came before (FetchInputs and ConnectInputs of src/main.cpp, CBlock::ConnectBlock of
  src/chain.cpp).
*/
module LedgerRules {
  import opened Primitives
  import opened TxIndexModel
  import opened TxLedger
  import opened BlockLedger

  /** Where a transaction is on the chain, or -1. */
  function Find(ledger: seq<Placed>, id: TxId): (r: int)
    ensures -1 <= r < |ledger| && (if r < 0 then id !in Ids(ledger) else ledger[r].tx.id == id)
  {
    if ledger == [] then -1
    else
      var k := |ledger| - 1;
      assert Ids(ledger) == Ids(ledger[..k]) + {ledger[k].tx.id};
      if ledger[k].tx.id == id then k else Find(ledger[..k], id)
  }

  predicate HasOutput(ledger: seq<Placed>, out: OutPoint) {
    Find(ledger, out.hash) >= 0 && out.n < |ledger[Find(ledger, out.hash)].tx.vout|
  }

  function OutputOf(ledger: seq<Placed>, out: OutPoint): (r: TxOut)
    requires HasOutput(ledger, out)
  {
    ledger[Find(ledger, out.hash)].tx.vout[out.n]
  }

  /** The value of the outputs that a list of inputs names. */
  function Paid(ledger: seq<Placed>, vin: seq<OutPoint>): (r: int) {
    if vin == [] then 0
    else
      var out := vin[|vin| - 1];
      Paid(ledger, vin[..|vin| - 1]) + if HasOutput(ledger, out) then OutputOf(ledger, out).value else 0
  }

  /**
    The input names an output of an earlier transaction that nobody has spent, that is not the empty marker
    and in range, not newer than the spending transaction, and mature if it was minted; the signature holds.
  */
  ghost predicate InputFits(env: Env, ledger: seq<Placed>, tx: Transaction, k: nat)
    requires k < |tx.vin|
  {
    var out := tx.vin[k];
    && HasOutput(ledger, out)
    && (forall j, i :: !Spends(ledger, j, i, out))
    && var prev := ledger[Find(ledger, out.hash)];
       && !prev.tx.vout[out.n].IsEmpty() && 0 <= prev.tx.vout[out.n].value <= MAX_MONEY
       && prev.tx.time <= tx.time
       && (prev.tx.IsCoinBase() || prev.tx.IsCoinStake() ==> !env.immature(prev.pos))
       && env.sigOk(prev.tx, tx, k)
  }

  /** Everything demanded of a transaction that is not a coinbase. */
  ghost predicate TxFits(env: Env, ledger: seq<Placed>, tx: Transaction) {
    && (forall k :: 0 <= k < |tx.vin| ==> InputFits(env, ledger, tx, k))
    && (forall j, k :: 0 <= j < k < |tx.vin| ==> tx.vin[j] != tx.vin[k])
    && 0 <= Paid(ledger, tx.vin) <= MAX_MONEY
    && (tx.IsCoinStake() || SumValues(tx.vout) <= Paid(ledger, tx.vin))
  }

  /** The index is that of the chain. */
  ghost predicate Mirrors(disk: Disk, view: Index, ledger: seq<Placed>) {
    Lists(view, ledger) && MarksSpenders(view, ledger) && Located(ledger) && OnDisk(disk, ledger)
  }

  lemma ReplayMirrors(disk: Disk, ledger: seq<Placed>)
    requires Fresh(map[], ledger) && Located(ledger) && OnDisk(disk, ledger) && Replay(ledger).Some?
    ensures Mirrors(disk, Replay(ledger).value, ledger)
  {
    ReplayRecords(ledger);
  }

  /** Reading an output through the index finds the chain's transaction. */
  lemma ReadIsFound(disk: Disk, view: Index, ledger: seq<Placed>, out: OutPoint)
    requires Mirrors(disk, view, ledger)
    ensures CanRead(disk, view, out) <==> HasOutput(ledger, out)
    ensures HasOutput(ledger, out) ==>
      && InRange(view, out) && view[out.hash].pos == ledger[Find(ledger, out.hash)].pos
      && PrevTx(disk, view, out) == ledger[Find(ledger, out.hash)].tx
  {
    hide MarksSpenders;
    var j := Find(ledger, out.hash);
    if j >= 0 {
      assert view[ledger[j].tx.id].pos == ledger[j].pos;
    }
  }

  /** An output is unmarked exactly when no transaction of the chain spends it. */
  lemma UnmarkedIsUnspent(disk: Disk, view: Index, ledger: seq<Placed>, out: OutPoint)
    requires Mirrors(disk, view, ledger) && InRange(view, out)
    ensures Spender(view, out) == NullPos <==> forall j, i :: !Spends(ledger, j, i, out)
  {
    hide Lists, OnDisk;
    if j, i :| Spends(ledger, j, i, out) {
      assert Spender(view, out) == ledger[j].pos;
    }
  }

  lemma {:induction false} PaidIsValueIn(disk: Disk, view: Index, ledger: seq<Placed>, vin: seq<OutPoint>)
    requires Mirrors(disk, view, ledger)
    ensures ValueIn(disk, view, vin) == Paid(ledger, vin)
  {
    hide Mirrors, HasOutput;
    if vin != [] {
      PaidIsValueIn(disk, view, ledger, vin[..|vin| - 1]);
      ReadIsFound(disk, view, ledger, vin[|vin| - 1]);
    }
  }

  /** Every input is there and unspent, and none occurs twice. */
  predicate Spendable(view: Index, vin: seq<OutPoint>) {
    && (forall k :: 0 <= k < |vin| ==> InRange(view, vin[k]) && Spender(view, vin[k]) == NullPos)
    && (forall j, k :: 0 <= j < k < |vin| ==> vin[j] != vin[k])
  }

  lemma {:induction false} SpendableInputs(view: Index, vin: seq<OutPoint>, pos: DiskPos)
    requires pos != NullPos
    ensures SpendInputs(view, vin, pos).Some? <==> Spendable(view, vin)
  {
    if SpendInputs(view, vin, pos).Some? {
      SpendInputsMarks(view, vin, pos);
    } else {
      var n := |vin| - 1;
      SpendableInputs(view, vin[..n], pos);
      if SpendInputs(view, vin[..n], pos).Some? {
        SpendInputsMarks(view, vin[..n], pos);
        LastSpendable(view, SpendInputs(view, vin[..n], pos).value, vin, pos);
      } else {
        FrontSpendable(view, vin);
      }
    }
  }

  lemma FrontSpendable(view: Index, vin: seq<OutPoint>)
    requires |vin| > 0
    ensures Spendable(view, vin) ==> Spendable(view, vin[..|vin| - 1])
  {
  }

  lemma LastSpendable(view: Index, v: Index, vin: seq<OutPoint>, pos: DiskPos)
    requires |vin| > 0 && Marked(view, v, vin[..|vin| - 1], pos)
    requires !(InRange(v, vin[|vin| - 1]) && Spender(v, vin[|vin| - 1]) == NullPos)
    ensures InRange(view, vin[|vin| - 1]) && Spender(view, vin[|vin| - 1]) == NullPos ==> vin[|vin| - 1] in vin[..|vin| - 1]
  {
    var out := vin[|vin| - 1];
    if InRange(view, out) && Spender(view, out) == NullPos {
      assert OutPoint(out.hash, out.n) == out;
    }
  }

  /** One input passes on the index exactly when it fits the chain. */
  lemma InputFitsIff(env: Env, view: Index, ledger: seq<Placed>, tx: Transaction, k: nat)
    requires Mirrors(env.disk, view, ledger) && k < |tx.vin|
    ensures InputFits(env, ledger, tx, k) <==>
      && CanRead(env.disk, view, tx.vin[k]) && InRange(view, tx.vin[k]) && InputOk(env, view, tx, tx.vin[k])
      && Spender(view, tx.vin[k]) == NullPos && env.sigOk(PrevTx(env.disk, view, tx.vin[k]), tx, k)
  {
    hide Mirrors, HasOutput;
    var out := tx.vin[k];
    ReadIsFound(env.disk, view, ledger, out);
    if HasOutput(ledger, out) {
      UnmarkedIsUnspent(env.disk, view, ledger, out);
      FoundOutput(ledger, out);
    }
  }

  lemma FoundOutput(ledger: seq<Placed>, out: OutPoint)
    requires HasOutput(ledger, out)
    ensures 0 <= Find(ledger, out.hash) < |ledger| && out.n < |ledger[Find(ledger, out.hash)].tx.vout|
  {
  }

  /** ConnectInputs accepts exactly the transactions that fit the chain. */
  lemma ConnectOkIff(env: Env, view: Index, ledger: seq<Placed>, p: Placed)
    requires Mirrors(env.disk, view, ledger) && p.pos != NullPos
    ensures ConnectOk(env, view, p) <==> TxFits(env, ledger, p.tx)
  {
    hide Mirrors, HasOutput, InputOk, SpendInputs, ValueIn, Paid, CanRead, InRange, InputFits;
    var tx := p.tx;
    forall k | 0 <= k < |tx.vin|
      ensures InputFits(env, ledger, tx, k) <==>
        && CanRead(env.disk, view, tx.vin[k]) && InRange(view, tx.vin[k]) && InputOk(env, view, tx, tx.vin[k])
        && Spender(view, tx.vin[k]) == NullPos && env.sigOk(PrevTx(env.disk, view, tx.vin[k]), tx, k)
    {
      InputFitsIff(env, view, ledger, tx, k);
    }
    PaidIsValueIn(env.disk, view, ledger, tx.vin);
    SpendableInputs(view, tx.vin, p.pos);
  }

  // ------------------------------------------------------------------- blocks

  /** Each transaction fits the chain and the transactions of the block before it. */
  ghost predicate AllFit(env: Env, ledger: seq<Placed>, b: seq<Placed>) {
    b == [] ||
    var k := |b| - 1;
    AllFit(env, ledger, b[..k]) && (b[k].tx.IsCoinBase() || TxFits(env, ledger + b[..k], b[k].tx))
  }

  /** What the plain transactions of a block leave to whoever makes it. */
  function Fees(ledger: seq<Placed>, b: seq<Placed>): (r: int) {
    if b == [] then 0
    else
      var k := |b| - 1;
      var tx := b[k].tx;
      Fees(ledger, b[..k]) + if tx.IsCoinBase() || tx.IsCoinStake() then 0 else Paid(ledger + b[..k], tx.vin) - SumValues(tx.vout)
  }

  /** What the last coinstake of a block pays beyond its inputs. */
  function StakeReward(ledger: seq<Placed>, b: seq<Placed>): (r: int) {
    if b == [] then 0
    else
      var k := |b| - 1;
      var tx := b[k].tx;
      if tx.IsCoinStake() && !tx.IsCoinBase() then SumValues(tx.vout) - Paid(ledger + b[..k], tx.vin) else StakeReward(ledger, b[..k])
  }

  predicate HasOutputs(ledger: seq<Placed>, vin: seq<OutPoint>) { forall k :: 0 <= k < |vin| ==> HasOutput(ledger, vin[k]) }

  function Sources(ledger: seq<Placed>, vin: seq<OutPoint>): (r: seq<Transaction>)
    requires HasOutputs(ledger, vin)
  {
    seq(|vin|, i requires 0 <= i < |vin| => ledger[Find(ledger, vin[i].hash)].tx)
  }

  /** All signature operations of a block, those of spent script hashes included. */
  function SigOps(env: Env, ledger: seq<Placed>, b: seq<Placed>): (r: nat) {
    if b == [] then 0
    else
      var k := |b| - 1;
      var tx, before := b[k].tx, ledger + b[..k];
      SigOps(env, ledger, b[..k]) + env.sigOps(tx) +
      if !tx.IsCoinBase() && HasOutputs(before, tx.vin) then env.p2shSigOps(tx, Sources(before, tx.vin)) else 0
  }

  /** What ConnectBlock demands of a block on top of a chain. */
  ghost predicate BlockFits(env: Env, ledger: seq<Placed>, b: seq<Placed>, subsidy: int) {
    && CheckBlock(b) && env.contextOk && AllFit(env, ledger, b) && SigOps(env, ledger, b) <= MAX_BLOCK_SIGOPS
    && if IsProofOfStake(b) then StakeReward(ledger, b) <= STATIC_POS_REWARD + Fees(ledger, b)
       else SumValues(b[0].tx.vout) <= subsidy + Fees(ledger, b)
  }

  ghost predicate Placeable(disk: Disk, ledger: seq<Placed>) { Fresh(map[], ledger) && Located(ledger) && OnDisk(disk, ledger) }

  lemma PlaceablePrefix(disk: Disk, ledger: seq<Placed>, k: nat)
    requires Placeable(disk, ledger) && k <= |ledger|
    ensures Placeable(disk, ledger[..k])
  {
  }

  lemma SourcesArePrevs(env: Env, view: Index, ledger: seq<Placed>, vin: seq<OutPoint>)
    requires Mirrors(env.disk, view, ledger)
    ensures CanFetch(env.disk, view, vin) <==> HasOutputs(ledger, vin)
    ensures HasOutputs(ledger, vin) ==> PrevTxs(env.disk, view, vin) == Sources(ledger, vin)
  {
    hide Mirrors, HasOutput, CanRead, InRange;
    forall k | 0 <= k < |vin|
      ensures (CanRead(env.disk, view, vin[k]) && InRange(view, vin[k])) <==> HasOutput(ledger, vin[k])
      ensures HasOutput(ledger, vin[k]) ==> Find(ledger, vin[k].hash) >= 0 && PrevTx(env.disk, view, vin[k]) == ledger[Find(ledger, vin[k].hash)].tx
    {
      ReadIsFound(env.disk, view, ledger, vin[k]);
      if HasOutput(ledger, vin[k]) {
        FoundOutput(ledger, vin[k]);
      }
    }
  }

  /** The running totals of ConnectBlock are those of the chain. */
  ghost predicate TotalsAre(t: Totals, env: Env, ledger: seq<Placed>, b: seq<Placed>) {
    t.fees == Fees(ledger, b) && t.sigOps == SigOps(env, ledger, b) && t.stakeReward == StakeReward(ledger, b)
  }

  lemma OneMore(env: Env, now: Index, ledger: seq<Placed>, b: seq<Placed>, t: Totals)
    requires b != [] && Mirrors(env.disk, now, ledger + b[..|b| - 1]) && TotalsAre(t, env, ledger, b[..|b| - 1])
    ensures TotalsAre(AddTotals(env, now, t, b[|b| - 1].tx), env, ledger, b)
  {
    hide Mirrors, SumValues, ValueIn, Paid, PrevTxs, Sources, CanFetch, HasOutputs;
    var k := |b| - 1;
    PaidIsValueIn(env.disk, now, ledger + b[..k], b[k].tx.vin);
    SourcesArePrevs(env, now, ledger + b[..k], b[k].tx.vin);
  }

  /** The loop of ConnectBlock passes exactly the blocks whose transactions all fit and keep the sigop limit. */
  lemma {:induction false} AcceptsIff(env: Env, ledger: seq<Placed>, b: seq<Placed>, index: Index)
    requires Placeable(env.disk, ledger + b) && Replay(ledger) == Some(index)
    ensures Accepts(env, index, b) <==> AllFit(env, ledger, b) && SigOps(env, ledger, b) <= MAX_BLOCK_SIGOPS
    ensures Accepts(env, index, b) ==> TotalsAre(Tally(env, index, b), env, ledger, b)
    decreases |b|
  {
    hide Placeable, TxFits, ConnectOk, Replay, Mirrors, TotalsAre, ConnectTx, AddTotals;
    if b == [] {
      NoTotals(env, ledger, index);
    } else {
      var k := |b| - 1;
      assert (ledger + b)[..|ledger| + k] == ledger + b[..k];
      PlaceablePrefix(env.disk, ledger + b, |ledger| + k);
      AcceptsIff(env, ledger, b[..k], index);
      if Accepts(env, index, b[..k]) {
        AcceptsConnects(env, index, b[..k]);
        var now := ConnectAll(index, b[..k]).value;
        MirrorsNow(env, ledger, b[..k], index, now);
        LastLocated(env.disk, ledger, b);
        ConnectOkIff(env, now, ledger + b[..k], b[k]);
        assert b[..k + 1] == b;
        TallyStep(env, index, b, k, now);
        OneMore(env, now, ledger, b, Tally(env, index, b[..k]));
        SigOpsOf(Tally(env, index, b), env, ledger, b);
      }
    }
  }

  lemma NoTotals(env: Env, ledger: seq<Placed>, index: Index)
    ensures TotalsAre(Tally(env, index, []), env, ledger, [])
  {
  }

  lemma SigOpsOf(t: Totals, env: Env, ledger: seq<Placed>, b: seq<Placed>)
    requires TotalsAre(t, env, ledger, b)
    ensures t.sigOps == SigOps(env, ledger, b)
  {
  }

  lemma LastLocated(disk: Disk, ledger: seq<Placed>, b: seq<Placed>)
    requires Placeable(disk, ledger + b) && b != []
    ensures b[|b| - 1].pos != NullPos
  {
    assert (ledger + b)[|ledger + b| - 1] == b[|b| - 1];
  }

  lemma MirrorsNow(env: Env, ledger: seq<Placed>, b: seq<Placed>, index: Index, now: Index)
    requires Placeable(env.disk, ledger + b) && Replay(ledger) == Some(index) && ConnectAll(index, b) == Some(now)
    ensures Mirrors(env.disk, now, ledger + b)
  {
    hide Mirrors, ConnectAll;
    ConnectAllSplit(map[], ledger, b);
    ReplayMirrors(env.disk, ledger + b);
  }

  /** ConnectBlock accepts exactly the blocks that fit the chain. */
  lemma BlockOkIff(env: Env, ledger: seq<Placed>, b: seq<Placed>, index: Index, subsidy: int)
    requires Placeable(env.disk, ledger + b) && Replay(ledger) == Some(index)
    ensures BlockOk(env, index, b, subsidy) <==> BlockFits(env, ledger, b, subsidy)
  {
    hide Placeable, Replay, CheckBlock, Accepts, AllFit, Tally, SigOps;
    AcceptsIff(env, ledger, b, index);
    if CheckBlock(b) {
      HasCoinbase(b);
    }
  }

  /** The form of every accepted block: one coinbase, in front; no id twice; amounts in range; sound inputs; one coinstake at most if it stands second. */
  lemma CheckedForm(b: seq<Placed>)
    requires CheckBlock(b)
    ensures b != [] && forall i :: 0 <= i < |b| ==> (b[i].tx.IsCoinBase() <==> i == 0)
    ensures |Ids(b)| == |b|
    ensures forall i, n :: 0 <= i < |b| && 0 <= n < |b[i].tx.vout| ==> 0 <= b[i].tx.vout[n].value <= 9_000_000_000_000_000
    ensures forall i :: 0 <= i < |b| ==> b[i].tx.vin != [] && b[i].tx.vout != [] && SumValues(b[i].tx.vout) <= 9_000_000_000_000_000
    ensures forall i, n :: 1 <= i < |b| && 0 <= n < |b[i].tx.vin| ==> !b[i].tx.vin[n].IsNull()
    ensures forall i, m, n :: 0 <= i < |b| && 0 <= m < n < |b[i].tx.vin| ==> b[i].tx.vin[m] != b[i].tx.vin[n]
    ensures forall i, n :: 1 <= i < |b| && !b[i].tx.IsCoinStake() && 0 <= n < |b[i].tx.vout| ==> !b[i].tx.vout[n].IsEmpty()
    ensures |b| > 1 && b[1].tx.IsCoinStake() ==>
      SumValues(b[0].tx.vout) == 0 && forall i :: 0 <= i < |b| ==> (b[i].tx.IsCoinStake() <==> i == 1)
  {
    CountIds(b);
    if IsProofOfStake(b) {
      assert b[0].tx.vout == [b[0].tx.vout[0]] && b[0].tx.vout[..0] == [];
      assert SumValues([]) == 0;
    }
  }

  lemma {:induction false} CountIds(b: seq<Placed>)
    requires forall i, j :: 0 <= i < j < |b| ==> b[i].tx.id != b[j].tx.id
    ensures |Ids(b)| == |b|
  {
    if b != [] {
      var k := |b| - 1;
      CountIds(b[..k]);
      assert Ids(b) == Ids(b[..k]) + {b[k].tx.id};
    }
  }

  lemma HasCoinbase(b: seq<Placed>)
    requires CheckBlock(b)
    ensures |b| > 0
  {
  }

  /** No transaction pays out more than it takes in, so the fees of a block are never negative. */
  lemma {:induction false} FeesNotNegative(env: Env, ledger: seq<Placed>, b: seq<Placed>)
    requires AllFit(env, ledger, b)
    ensures Fees(ledger, b) >= 0
  {
    hide InputFits, SumValues, Paid;
    if b != [] {
      FeesNotNegative(env, ledger, b[..|b| - 1]);
    }
  }

  /** The same of the running total, whatever the index. */
  lemma {:induction false} TallyNotNegative(env: Env, view: Index, txs: seq<Placed>)
    requires Accepts(env, view, txs)
    ensures Tally(env, view, txs).fees >= 0
  {
    hide InputsOk, SpendInputs, SignaturesOk, SumValues, ValueIn;
    if txs != [] {
      TallyNotNegative(env, view, txs[..|txs| - 1]);
    }
  }

  /** In an accepted block every plain transaction creates no more than it spends, on the index its predecessors leave. */
  lemma {:induction false} AcceptedBalances(env: Env, view: Index, txs: seq<Placed>, k: nat)
    requires Accepts(env, view, txs) && k < |txs| && !txs[k].tx.IsCoinBase() && !txs[k].tx.IsCoinStake()
    ensures ConnectAll(view, txs[..k]).Some?
    ensures SumValues(txs[k].tx.vout) <= ValueIn(env.disk, ConnectAll(view, txs[..k]).value, txs[k].tx.vin)
  {
    hide InputsOk, SpendInputs, SignaturesOk, SumValues, ValueIn, ConnectTx, Tally;
    var n := |txs| - 1;
    if k < n {
      AcceptedBalances(env, view, txs[..n], k);
      assert txs[..n][..k] == txs[..k];
    }
  }
}
