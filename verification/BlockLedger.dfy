/**
  Connecting and disconnecting whole blocks against the transaction index
  (FetchInputs, ConnectInputs and DisconnectInputs of src/main.cpp, CBlock::ConnectBlock
  and CBlock::DisconnectBlock of src/chain.cpp), with the money supply they record.
*/
module BlockLedger {
  import opened Primitives
  import opened TxIndexModel
  import opened TxLedger

  const STATIC_POS_REWARD: int := COIN / 100
  const STATIC_POW_REWARD: int := COIN

  predicate MoneyRange(v: int) { 0 <= v <= MAX_MONEY }

  /** What the coinbase may pay before fees, by the height of the current best block. */
  function Subsidy(bestHeight: int): (r: int) {
    if bestHeight == 0 then 4_000_000 * COIN else STATIC_POW_REWARD
  }

  /** The node's surroundings: block files, script checks, maturity, and the checks that involve no money. */
  datatype Env = Env(
    disk: Disk,
    contextOk: bool,
    immature: DiskPos -> bool,
    sigOk: (Transaction, Transaction, nat) -> bool,
    sigOps: Transaction -> nat,
    p2shSigOps: (Transaction, seq<Transaction>) -> nat)

  /** CTransaction::CheckTransaction, without the size limits. */
  predicate CheckTransaction(tx: Transaction) {
    && tx.vin != [] && tx.vout != []
    && (forall i :: 0 <= i < |tx.vout| ==>
          MoneyRange(tx.vout[i].value) && (tx.vout[i].IsEmpty() ==> tx.IsCoinBase() || tx.IsCoinStake()))
    && MoneyRange(SumValues(tx.vout))
    && (forall i, j :: 0 <= i < j < |tx.vin| ==> tx.vin[i] != tx.vin[j])
    && (tx.IsCoinBase() || forall i :: 0 <= i < |tx.vin| ==> !tx.vin[i].IsNull())
  }

  predicate IsProofOfStake(vtx: seq<Placed>) { |vtx| > 1 && vtx[1].tx.IsCoinStake() }

  /** CBlock::CheckBlock: the coinbase, the coinstake, every transaction, no id twice. */
  predicate CheckBlock(vtx: seq<Placed>) {
    && vtx != [] && vtx[0].tx.IsCoinBase()
    && (forall i :: 1 <= i < |vtx| ==> !vtx[i].tx.IsCoinBase())
    && (IsProofOfStake(vtx) ==>
          && |vtx[0].tx.vout| == 1 && vtx[0].tx.vout[0].IsEmpty()
          && forall i :: 2 <= i < |vtx| ==> !vtx[i].tx.IsCoinStake())
    && (forall i :: 0 <= i < |vtx| ==> CheckTransaction(vtx[i].tx))
    && (forall i, j :: 0 <= i < j < |vtx| ==> vtx[i].tx.id != vtx[j].tx.id)
  }

  // -------------------------------------------------------- what is accepted

  function PrevTx(disk: Disk, view: Index, out: OutPoint): (r: Transaction)
    requires CanRead(disk, view, out)
  {
    disk[view[out.hash].pos]
  }

  predicate CanFetch(disk: Disk, view: Index, vin: seq<OutPoint>) {
    forall k :: 0 <= k < |vin| ==> CanRead(disk, view, vin[k]) && InRange(view, vin[k])
  }

  /** The cheap checks on one input: maturity, time order, not the empty marker, amount in range. */
  predicate InputOk(env: Env, view: Index, tx: Transaction, out: OutPoint)
    requires CanRead(env.disk, view, out)
  {
    var prev := PrevTx(env.disk, view, out);
    && (prev.IsCoinBase() || prev.IsCoinStake() ==> !env.immature(view[out.hash].pos))
    && prev.time <= tx.time
    && !prev.vout[out.n].IsEmpty()
    && MoneyRange(prev.vout[out.n].value)
  }

  predicate InputsOk(env: Env, view: Index, tx: Transaction) {
    && CanFetch(env.disk, view, tx.vin)
    && (forall k :: 0 <= k < |tx.vin| ==> InputOk(env, view, tx, tx.vin[k]))
    && MoneyRange(ValueIn(env.disk, view, tx.vin))
  }

  predicate SignaturesOk(env: Env, view: Index, tx: Transaction)
    requires CanFetch(env.disk, view, tx.vin)
  {
    SignedUpTo(env, view, tx, |tx.vin|)
  }

  /** The first i inputs carry valid signatures. */
  predicate SignedUpTo(env: Env, view: Index, tx: Transaction, i: nat)
    requires CanFetch(env.disk, view, tx.vin) && i <= |tx.vin|
  {
    forall k :: 0 <= k < i ==> env.sigOk(PrevTx(env.disk, view, tx.vin[k]), tx, k)
  }

  /** Everything ConnectInputs demands of a transaction. */
  predicate ConnectOk(env: Env, view: Index, p: Placed) {
    && InputsOk(env, view, p.tx)
    && SpendInputs(view, p.tx.vin, p.pos).Some?
    && SignaturesOk(env, view, p.tx)
    && (p.tx.IsCoinStake() || SumValues(p.tx.vout) <= ValueIn(env.disk, view, p.tx.vin))
  }

  // ---------------------------------------------------------------- fetching

  /** The index as it will be once the queued changes are written. */
  function Pending(index: Index, queued: Index): (r: Index) {
    index + queued
  }

  lemma PendingUpdate(index: Index, queued: Index, id: TxId, entry: TxIndex)
    ensures Pending(index, queued[id := entry]) == Pending(index, queued)[id := entry]
  {
  }

  /** Previous transactions with their index entries (MapPrevTx). */
  type Fetched = map<TxId, (TxIndex, Transaction)>

  predicate IsFetched(inputs: Fetched, disk: Disk, view: Index, vin: seq<OutPoint>) {
    && (forall k :: 0 <= k < |vin| ==> vin[k].hash in inputs)
    && (forall id :: id in inputs ==>
          id in view && inputs[id].0 == view[id] && view[id].pos in disk && inputs[id].1 == disk[view[id].pos])
  }

  method FetchInputs(disk: Disk, index: Index, queued: Index, tx: Transaction) returns (r: Option<Fetched>)
    ensures tx.IsCoinBase() ==> r == Some(map[])
    ensures !tx.IsCoinBase() ==> (r.Some? <==> CanFetch(disk, Pending(index, queued), tx.vin))
    ensures !tx.IsCoinBase() && r.Some? ==> IsFetched(r.value, disk, Pending(index, queued), tx.vin)
  {
    if tx.IsCoinBase() {
      return Some(map[]);
    }
    ghost var view := Pending(index, queued);
    var inputs: Fetched := map[];
    for i := 0 to |tx.vin|
      invariant IsFetched(inputs, disk, view, tx.vin[..i])
    {
      var id := tx.vin[i].hash;
      assert tx.vin[..i + 1] == tx.vin[..i] + [tx.vin[i]];
      if id !in inputs {
        var entry;
        if id in queued {
          entry := queued[id];
        } else if id in index {
          entry := index[id];
        } else {
          assert !CanRead(disk, view, tx.vin[i]);
          return None;
        }
        if entry.pos !in disk {
          assert !CanRead(disk, view, tx.vin[i]);
          return None;
        }
        inputs := inputs[id := (entry, disk[entry.pos])];
      }
    }
    assert tx.vin[..|tx.vin|] == tx.vin;
    for i := 0 to |tx.vin|
      invariant forall k :: 0 <= k < i ==> CanRead(disk, view, tx.vin[k]) && InRange(view, tx.vin[k])
    {
      var out := tx.vin[i];
      if out.n >= |inputs[out.hash].1.vout| || out.n >= |inputs[out.hash].0.vSpent| {
        assert !CanRead(disk, view, tx.vin[i]) || !InRange(view, tx.vin[i]);
        return None;
      }
    }
    r := Some(inputs);
  }

  method GetValueIn(tx: Transaction, inputs: Fetched, ghost disk: Disk, ghost view: Index) returns (value: int)
    requires CanFetch(disk, view, tx.vin) && IsFetched(inputs, disk, view, tx.vin)
    ensures value == ValueIn(disk, view, tx.vin)
  {
    value := 0;
    for i := 0 to |tx.vin|
      invariant value == ValueIn(disk, view, tx.vin[..i])
    {
      assert tx.vin[..i + 1][..i] == tx.vin[..i];
      assert CanRead(disk, view, tx.vin[i]);
      value := value + inputs[tx.vin[i].hash].1.vout[tx.vin[i].n].value;
    }
    assert tx.vin[..|tx.vin|] == tx.vin;
  }

  method GetValueOut(tx: Transaction) returns (value: int)
    ensures value == SumValues(tx.vout)
  {
    value := 0;
    for i := 0 to |tx.vout|
      invariant value == SumValues(tx.vout[..i])
    {
      assert tx.vout[..i + 1][..i] == tx.vout[..i];
      value := value + tx.vout[i].value;
    }
    assert tx.vout[..|tx.vout|] == tx.vout;
  }

  // -------------------------------------------------------------- connecting

  lemma {:induction false} ValueInGrows(disk: Disk, view: Index, vin: seq<OutPoint>, k: nat)
    requires k <= |vin|
    requires forall i :: 0 <= i < |vin| ==> CanRead(disk, view, vin[i]) && PrevOut(disk, view, vin[i]).value >= 0
    ensures 0 <= ValueIn(disk, view, vin[..k]) <= ValueIn(disk, view, vin)
    decreases |vin|, k
  {
    if |vin| == k {
      assert vin[..k] == vin;
      if k > 0 {
        ValueInGrows(disk, view, vin[..k - 1], k - 1);
      }
    } else {
      ValueInGrows(disk, view, vin[..|vin| - 1], k);
      assert vin[..|vin| - 1][..k] == vin[..k];
    }
  }

  method CheckInput(env: Env, tx: Transaction, out: OutPoint, entry: TxIndex, prev: Transaction, ghost view: Index)
    returns (ok: bool)
    requires CanRead(env.disk, view, out) && entry == view[out.hash] && prev == PrevTx(env.disk, view, out)
    ensures ok <==> InputOk(env, view, tx, out)
  {
    if prev.IsCoinBase() || prev.IsCoinStake() {
      if env.immature(entry.pos) {
        return false;
      }
    }
    if prev.time > tx.time {
      return false;
    }
    if prev.vout[out.n].IsEmpty() {
      return false;
    }
    ok := MoneyRange(prev.vout[out.n].value);
  }

  /** The first loop of ConnectInputs: all the checks that cost little. */
  method CheckInputs(env: Env, tx: Transaction, inputs: Fetched, ghost view: Index) returns (ok: bool, nValueIn: int)
    requires CanFetch(env.disk, view, tx.vin) && IsFetched(inputs, env.disk, view, tx.vin)
    ensures ok <==> InputsOk(env, view, tx)
    ensures ok ==> nValueIn == ValueIn(env.disk, view, tx.vin)
  {
    nValueIn := 0;
    for i := 0 to |tx.vin|
      invariant forall k :: 0 <= k < i ==> InputOk(env, view, tx, tx.vin[k])
      invariant nValueIn == ValueIn(env.disk, view, tx.vin[..i]) && MoneyRange(nValueIn)
    {
      var out := tx.vin[i];
      assert CanRead(env.disk, view, tx.vin[i]);
      assert tx.vin[..i + 1][..i] == tx.vin[..i];
      ok := CheckInput(env, tx, out, inputs[out.hash].0, inputs[out.hash].1, view);
      if !ok {
        return;
      }
      nValueIn := nValueIn + inputs[out.hash].1.vout[out.n].value;
      if !MoneyRange(nValueIn) {
        RangeFails(env, view, tx, i);
        return false, nValueIn;
      }
    }
    assert tx.vin[..|tx.vin|] == tx.vin;
    ok := true;
  }

  lemma RangeFails(env: Env, view: Index, tx: Transaction, i: nat)
    requires i < |tx.vin| && !MoneyRange(ValueIn(env.disk, view, tx.vin[..i + 1]))
    ensures !InputsOk(env, view, tx)
  {
    if InputsOk(env, view, tx) {
      assert forall k :: 0 <= k < |tx.vin| ==> InputOk(env, view, tx, tx.vin[k]);
      ValueInGrows(env.disk, view, tx.vin, i + 1);
    }
  }

  lemma {:induction false} SpendInputsPrefix(view: Index, vin: seq<OutPoint>, k: nat, pos: DiskPos)
    requires k <= |vin| && SpendInputs(view, vin[..k], pos).None?
    ensures SpendInputs(view, vin, pos).None?
    decreases |vin|
  {
    if k < |vin| {
      assert vin[..|vin| - 1][..k] == vin[..k];
      SpendInputsPrefix(view, vin[..|vin| - 1], k, pos);
    } else {
      assert vin[..k] == vin;
    }
  }

  lemma SpendStep(view: Index, vin: seq<OutPoint>, i: nat, pos: DiskPos)
    requires i < |vin| && pos != NullPos && SpendInputs(view, vin[..i], pos).Some?
    ensures var cur := SpendInputs(view, vin[..i], pos).value;
      && SameShape(view, cur)
      && SpendInputs(view, vin[..i + 1], pos) ==
         if InRange(cur, vin[i]) && Spender(cur, vin[i]) == NullPos then Some(SetSpender(cur, vin[i], pos)) else None
  {
    assert vin[..i + 1][..i] == vin[..i];
    SpendInputsMarks(view, vin[..i], pos);
  }

  /** The working copies agree with the index as changed so far. */
  predicate InSync(inputs: Fetched, inputs0: Fetched, cur: Index) {
    && inputs.Keys == inputs0.Keys
    && forall id :: id in inputs ==> id in cur && inputs[id].0 == cur[id] && inputs[id].1 == inputs0[id].1
  }

  lemma InputFound(inputs: Fetched, original: Fetched, disk: Disk, view: Index, cur: Index, vin: seq<OutPoint>, i: nat)
    requires CanFetch(disk, view, vin) && IsFetched(original, disk, view, vin) && SameShape(view, cur) && i < |vin|
    requires InSync(inputs, original, cur)
    ensures InRange(cur, vin[i]) && CanRead(disk, view, vin[i])
    ensures vin[i].hash in inputs && inputs[vin[i].hash] == (cur[vin[i].hash], PrevTx(disk, view, vin[i]))
  {
    assert CanRead(disk, view, vin[i]) && InRange(view, vin[i]);
  }

  /** One round of the second loop of ConnectInputs: double spend, signature, and the mark itself. */
  method MarkInput(env: Env, p: Placed, i: nat, inputs0: Fetched, queued0: Index, ghost index: Index, ghost view: Index,
                   ghost original: Fetched) returns (ok: bool, inputs: Fetched, queued: Index)
    requires i < |p.tx.vin| && p.pos != NullPos
    requires CanFetch(env.disk, view, p.tx.vin) && IsFetched(original, env.disk, view, p.tx.vin)
    requires InSync(inputs0, original, Pending(index, queued0))
    requires SpendInputs(view, p.tx.vin[..i], p.pos) == Some(Pending(index, queued0))
    ensures ok <==> SpendInputs(view, p.tx.vin[..i + 1], p.pos).Some? && env.sigOk(PrevTx(env.disk, view, p.tx.vin[i]), p.tx, i)
    ensures ok ==> SpendInputs(view, p.tx.vin[..i + 1], p.pos) == Some(Pending(index, queued)) && InSync(inputs, original, Pending(index, queued))
  {
    hide Pending, SpendInputs, CanFetch, IsFetched;
    inputs, queued := inputs0, queued0;
    var out := p.tx.vin[i];
    SpendStep(view, p.tx.vin, i, p.pos);
    InputFound(inputs, original, env.disk, view, Pending(index, queued), p.tx.vin, i);
    var entry, prev := inputs[out.hash].0, inputs[out.hash].1;
    if entry.vSpent[out.n] != NullPos {
      return false, inputs, queued;
    }
    if !env.sigOk(prev, p.tx, i) {
      return false, inputs, queued;
    }
    entry := entry.(vSpent := entry.vSpent[out.n := p.pos]);
    PendingUpdate(index, queued, out.hash, entry);
    inputs := inputs[out.hash := (entry, prev)];
    queued := queued[out.hash := entry];
    ok := true;
  }

  lemma MarkStart(inputs: Fetched, disk: Disk, view: Index, p: Placed)
    requires IsFetched(inputs, disk, view, p.tx.vin)
    ensures SpendInputs(view, p.tx.vin[..0], p.pos) == Some(view)
    ensures InSync(inputs, inputs, view)
  {
  }

  /** The second loop of ConnectInputs. */
  method MarkInputs(env: Env, p: Placed, inputs0: Fetched, index: Index, queued0: Index) returns (ok: bool, queued: Index)
    requires CanFetch(env.disk, Pending(index, queued0), p.tx.vin) && IsFetched(inputs0, env.disk, Pending(index, queued0), p.tx.vin)
    requires p.pos != NullPos
    ensures ok <==> SpendInputs(Pending(index, queued0), p.tx.vin, p.pos).Some? && SignaturesOk(env, Pending(index, queued0), p.tx)
    ensures ok ==> Some(Pending(index, queued)) == SpendInputs(Pending(index, queued0), p.tx.vin, p.pos)
  {
    hide SpendInputs, InSync, CanFetch, IsFetched, SetSpender, Pending;
    ghost var view := Pending(index, queued0);
    var inputs := inputs0;
    ok, queued := true, queued0;
    MarkStart(inputs, env.disk, view, p);
    for i := 0 to |p.tx.vin|
      invariant ok && InSync(inputs, inputs0, Pending(index, queued))
      invariant SpendInputs(view, p.tx.vin[..i], p.pos) == Some(Pending(index, queued))
      invariant SignedUpTo(env, view, p.tx, i)
    {
      ok, inputs, queued := MarkInput(env, p, i, inputs, queued, index, view, inputs0);
      if !ok {
        if SpendInputs(view, p.tx.vin[..i + 1], p.pos).None? {
          SpendInputsPrefix(view, p.tx.vin, i + 1, p.pos);
        }
        return;
      }
    }
    assert p.tx.vin[..|p.tx.vin|] == p.tx.vin;
  }

  method ConnectInputs(env: Env, p: Placed, inputs: Fetched, index: Index, queued0: Index) returns (ok: bool, queued: Index)
    requires CanFetch(env.disk, Pending(index, queued0), p.tx.vin) && IsFetched(inputs, env.disk, Pending(index, queued0), p.tx.vin)
    requires p.pos != NullPos
    ensures ok <==> ConnectOk(env, Pending(index, queued0), p)
    ensures ok ==> Some(Pending(index, queued)) == SpendInputs(Pending(index, queued0), p.tx.vin, p.pos)
  {
    queued := queued0;
    var nValueIn;
    ok, nValueIn := CheckInputs(env, p.tx, inputs, Pending(index, queued0));
    if !ok {
      return;
    }
    ok, queued := MarkInputs(env, p, inputs, index, queued0);
    if !ok {
      return;
    }
    if !p.tx.IsCoinStake() {
      var valueOut := GetValueOut(p.tx);
      if nValueIn < valueOut {
        return false, queued;
      }
    }
  }

  // ------------------------------------------------------------ whole blocks

  /** The sums ConnectBlock keeps while it goes through the transactions. */
  datatype Totals = Totals(fees: int, valueIn: int, valueOut: int, stakeReward: int, sigOps: int)

  const NOTHING := Totals(0, 0, 0, 0, 0)

  function PrevTxs(disk: Disk, view: Index, vin: seq<OutPoint>): (r: seq<Transaction>)
    requires CanFetch(disk, view, vin)
  {
    seq(|vin|, i requires 0 <= i < |vin| => PrevTx(disk, view, vin[i]))
  }

  function AddTotals(env: Env, view: Index, t: Totals, tx: Transaction): (r: Totals) {
    var vo := SumValues(tx.vout);
    if tx.IsCoinBase() then t.(valueOut := t.valueOut + vo, sigOps := t.sigOps + env.sigOps(tx))
    else
      var vi := ValueIn(env.disk, view, tx.vin);
      Totals(
        if tx.IsCoinStake() then t.fees else t.fees + vi - vo,
        t.valueIn + vi,
        t.valueOut + vo,
        if tx.IsCoinStake() then vo - vi else t.stakeReward,
        t.sigOps + env.sigOps(tx) + if CanFetch(env.disk, view, tx.vin) then env.p2shSigOps(tx, PrevTxs(env.disk, view, tx.vin)) else 0)
  }

  function Tally(env: Env, view: Index, txs: seq<Placed>): (r: Totals) {
    if txs == [] then NOTHING
    else
      var k := |txs| - 1;
      var before := ConnectAll(view, txs[..k]);
      if before.None? then NOTHING
      else AddTotals(env, before.value, Tally(env, view, txs[..k]), txs[k].tx)
  }

  /** Each transaction passes against the index its predecessors leave, and the sigop limit holds. */
  predicate Accepts(env: Env, view: Index, txs: seq<Placed>) {
    txs == [] ||
    var k := |txs| - 1;
    && Accepts(env, view, txs[..k])
    && ConnectAll(view, txs[..k]).Some?
    && (txs[k].tx.IsCoinBase() || ConnectOk(env, ConnectAll(view, txs[..k]).value, txs[k]))
    && Tally(env, view, txs).sigOps <= MAX_BLOCK_SIGOPS
  }

  /** ConnectBlock succeeds exactly on these blocks. */
  predicate BlockOk(env: Env, view: Index, vtx: seq<Placed>, subsidy: int) {
    && CheckBlock(vtx) && env.contextOk && Accepts(env, view, vtx)
    && var t := Tally(env, view, vtx);
       if IsProofOfStake(vtx) then t.stakeReward <= STATIC_POS_REWARD + t.fees
       else SumValues(vtx[0].tx.vout) <= subsidy + t.fees
  }

  lemma AcceptsConnects(env: Env, view: Index, txs: seq<Placed>)
    requires Accepts(env, view, txs)
    ensures ConnectAll(view, txs).Some?
  {
  }

  lemma {:induction false} AcceptsPrefix(env: Env, view: Index, txs: seq<Placed>, k: nat)
    requires k <= |txs| && !Accepts(env, view, txs[..k])
    ensures !Accepts(env, view, txs)
    decreases |txs|
  {
    hide ConnectOk, Tally, ConnectAll;
    if k < |txs| {
      assert txs[..|txs| - 1][..k] == txs[..k];
      AcceptsPrefix(env, view, txs[..|txs| - 1], k);
    } else {
      assert txs[..k] == txs;
    }
  }

  lemma TallyStep(env: Env, view: Index, vtx: seq<Placed>, i: nat, now: Index)
    requires i < |vtx| && ConnectAll(view, vtx[..i]) == Some(now)
    ensures Tally(env, view, vtx[..i + 1]) == AddTotals(env, now, Tally(env, view, vtx[..i]), vtx[i].tx)
    ensures ConnectAll(view, vtx[..i + 1]) == ConnectTx(now, vtx[i])
    ensures Accepts(env, view, vtx[..i + 1]) <==>
      && Accepts(env, view, vtx[..i]) && (vtx[i].tx.IsCoinBase() || ConnectOk(env, now, vtx[i]))
      && Tally(env, view, vtx[..i + 1]).sigOps <= MAX_BLOCK_SIGOPS
  {
    hide ConnectOk, ConnectTx, AddTotals;
    assert vtx[..i + 1][..i] == vtx[..i];
  }

  /** One transaction of the loop in ConnectBlock. */
  method ConnectOne(env: Env, p: Placed, index: Index, queued0: Index, t0: Totals) returns (ok: bool, queued: Index, t: Totals)
    requires p.pos != NullPos && t0.sigOps >= 0
    ensures ok <==>
      && (p.tx.IsCoinBase() || ConnectOk(env, Pending(index, queued0), p))
      && AddTotals(env, Pending(index, queued0), t0, p.tx).sigOps <= MAX_BLOCK_SIGOPS
    ensures ok ==> t == AddTotals(env, Pending(index, queued0), t0, p.tx)
    ensures ok ==> ConnectTx(Pending(index, queued0), p) == Some(Pending(index, queued))
  {
    hide SpendInputs, ValueIn, Pending, SumValues;
    ok, queued := false, queued0;
    t := t0.(sigOps := t0.sigOps + env.sigOps(p.tx));
    if t.sigOps > MAX_BLOCK_SIGOPS {
      return;
    }
    if p.tx.IsCoinBase() {
      var valueOut := GetValueOut(p.tx);
      t := t.(valueOut := t.valueOut + valueOut);
    } else {
      var fetched := FetchInputs(env.disk, index, queued, p.tx);
      if fetched.None? {
        return;
      }
      var inputs := fetched.value;
      assert forall k :: 0 <= k < |p.tx.vin| ==> p.tx.vin[k].hash in inputs;
      var prevs := seq(|p.tx.vin|, i requires 0 <= i < |p.tx.vin| => inputs[p.tx.vin[i].hash].1);
      FetchedPrevs(inputs, env.disk, Pending(index, queued0), p.tx.vin, prevs);
      t := t.(sigOps := t.sigOps + env.p2shSigOps(p.tx, prevs));
      if t.sigOps > MAX_BLOCK_SIGOPS {
        return;
      }
      var txValueIn := GetValueIn(p.tx, inputs, env.disk, Pending(index, queued0));
      var txValueOut := GetValueOut(p.tx);
      t := t.(valueIn := t.valueIn + txValueIn, valueOut := t.valueOut + txValueOut);
      if !p.tx.IsCoinStake() {
        t := t.(fees := t.fees + txValueIn - txValueOut);
      }
      if p.tx.IsCoinStake() {
        t := t.(stakeReward := txValueOut - txValueIn);
      }
      ok, queued := ConnectInputs(env, p, inputs, index, queued);
      if !ok {
        return;
      }
    }
    PendingUpdate(index, queued, p.tx.id, NewIndex(p));
    queued := queued[p.tx.id := NewIndex(p)];
    ok := true;
  }

  lemma FetchedPrevs(inputs: Fetched, disk: Disk, view: Index, vin: seq<OutPoint>, prevs: seq<Transaction>)
    requires CanFetch(disk, view, vin) && IsFetched(inputs, disk, view, vin)
    requires |prevs| == |vin| && forall k :: 0 <= k < |vin| ==> vin[k].hash in inputs && prevs[k] == inputs[vin[k].hash].1
    ensures prevs == PrevTxs(disk, view, vin)
  {
    forall k | 0 <= k < |vin| ensures prevs[k] == PrevTx(disk, view, vin[k]) {
      assert CanRead(disk, view, vin[k]);
    }
  }
}
