/**
  Assembling a block from the memory pool: transactions wait for their unconfirmed parents,
  ready ones are taken in order of priority or fee, and the limits on size and signature
  operations are kept (CreateNewBlock in src/miner.cpp).  Priorities and fees are given as reals.
*/
module BlockTemplate {
  import opened Primitives

  const RESERVED_SIZE: nat := 1000
  const RESERVED_SIGOPS: nat := 100
  const HIGH_PRIORITY: real := 57_600_000.0

  /** The memory pool, and which of its inputs refer to stored transactions. */
  datatype Pool = Pool(txs: map<TxId, Transaction>, onDisk: OutPoint -> bool, isFinal: Transaction -> bool)
  {
    /** An input that is neither stored nor in the pool. */
    predicate Missing(out: OutPoint) { !onDisk(out) && out.hash !in txs }

    /** A transaction whose inputs are looked at. */
    predicate Wanted(id: TxId) {
      id in txs && !txs[id].IsCoinBase() && !txs[id].IsCoinStake() && isFinal(txs[id])
    }

    /** A transaction that a block may take: wanted, and no input is missing. */
    predicate Eligible(id: TxId) {
      Wanted(id) && forall i :: 0 <= i < |txs[id].vin| ==> !Missing(txs[id].vin[i])
    }

    /** The parents that are themselves only in the pool. */
    function Parents(id: TxId): (r: set<TxId>)
      requires id in txs
    {
      set i | 0 <= i < |txs[id].vin| && !onDisk(txs[id].vin[i]) :: txs[id].vin[i].hash
    }

    /** The first missing input, if any, comes before all unconfirmed parents. */
    ghost predicate MissingFirst(vin: seq<OutPoint>) {
      forall i, j :: 0 <= j < i < |vin| && Missing(vin[i]) && !onDisk(vin[j]) ==> exists m :: 0 <= m <= j && Missing(vin[m])
    }

    /** Every entry is stored under its id, and none is dropped after it has been listed as a depender. */
    ghost predicate Kept() {
      && (forall id :: id in txs ==> txs[id].id == id)
      && (forall id :: Wanted(id) ==> MissingFirst(txs[id].vin))
    }
  }

  /** Everything about a transaction that the assembly asks for. */
  datatype Policy = Policy(
    size: Transaction -> nat, sigOps: Transaction -> nat, p2shSigOps: (seq<Transaction>, Transaction) -> nat,
    timely: Transaction -> bool, connects: (seq<Transaction>, Transaction) -> bool,
    priority: Transaction -> real, feePerKb: Transaction -> real,
    maxSize: nat, prioritySize: nat, minSize: nat, minFee: real)

  /** An entry of vecPriority. */
  datatype Entry = Entry(priority: real, feePerKb: real, id: TxId)

  function EntryOf(pool: Pool, pol: Policy, id: TxId): (r: Entry)
    requires id in pool.txs
  {
    Entry(pol.priority(pool.txs[id]), pol.feePerKb(pool.txs[id]), id)
  }

  /** TxPriorityCompare: a is below b. */
  predicate Below(a: Entry, b: Entry, byFee: bool) {
    if byFee then a.feePerKb < b.feePerKb || (a.feePerKb == b.feePerKb && a.priority < b.priority)
    else a.priority < b.priority || (a.priority == b.priority && a.feePerKb < b.feePerKb)
  }

  /** An entry that is below no other. */
  predicate Leads(vec: seq<Entry>, e: Entry, byFee: bool) {
    e in vec && forall j :: 0 <= j < |vec| ==> !Below(e, vec[j], byFee)
  }

  /** The front of the heap: an entry that is below no other. */
  method Best(vec: seq<Entry>, byFee: bool) returns (k: nat)
    requires vec != []
    ensures k < |vec| && forall j :: 0 <= j < |vec| ==> !Below(vec[k], vec[j], byFee)
  {
    k := 0;
    for i := 1 to |vec|
      invariant k < i && forall j :: 0 <= j < i ==> !Below(vec[k], vec[j], byFee)
    {
      if Below(vec[k], vec[i], byFee) {
        k := i;
      }
    }
  }

  // ------------------------------------------------------------- dependencies

  predicate DistinctIds(vec: seq<Entry>) { forall i, j :: 0 <= i < j < |vec| ==> vec[i].id != vec[j].id }

  /** A ready entry: its parents are in the block, it is not, and it waits for nobody. */
  ghost predicate EntryOk(pool: Pool, pol: Policy, e: Entry, waiting: map<TxId, set<TxId>>, ids: set<TxId>) {
    && pool.Eligible(e.id) && e == EntryOf(pool, pol, e.id) && e.id !in ids && pool.Parents(e.id) <= ids
    && (e.id in waiting ==> waiting[e.id] == {})
  }

  ghost predicate VecOk(pool: Pool, pol: Policy, vec: seq<Entry>, waiting: map<TxId, set<TxId>>, ids: set<TxId>) {
    DistinctIds(vec) && forall i :: 0 <= i < |vec| ==> EntryOk(pool, pol, vec[i], waiting, ids)
  }

  /** Everyone waits for exactly those parents that are not yet in the block. */
  ghost predicate WaitingOk(pool: Pool, waiting: map<TxId, set<TxId>>, ids: set<TxId>) {
    forall x :: x in waiting ==> pool.Eligible(x) && waiting[x] == pool.Parents(x) - ids
  }

  predicate Lists(dependers: map<TxId, seq<TxId>>, p: TxId, x: TxId) { p in dependers && x in dependers[p] }

  /** The dependers of a transaction are those that have it as an unconfirmed parent. */
  ghost predicate DependersOk(pool: Pool, waiting: map<TxId, set<TxId>>, dependers: map<TxId, seq<TxId>>) {
    forall p, x :: Lists(dependers, p, x) <==> x in waiting && x in pool.txs && p in pool.Parents(x)
  }

  /** The transactions that still wait for somebody. */
  function Pending(waiting: map<TxId, set<TxId>>): (r: set<TxId>) { set x | x in waiting && waiting[x] != {} }

  function VecIds(vec: seq<Entry>): (r: set<TxId>) { set i | 0 <= i < |vec| :: vec[i].id }

  lemma VecIdsMore(vec: seq<Entry>, e: Entry)
    ensures VecIds(vec + [e]) == VecIds(vec) + {e.id}
  {
    var all := vec + [e];
    forall x | x in VecIds(vec) + {e.id} ensures x in VecIds(all) {
      if x == e.id {
        assert all[|vec|].id == x;
      } else {
        var i :| 0 <= i < |vec| && vec[i].id == x;
        assert all[i].id == x;
      }
    }
  }

  // ------------------------------------------------------------------- release

  /** The entries of list that have been told that h is in the block. */
  ghost predicate Told(was: map<TxId, set<TxId>>, now: map<TxId, set<TxId>>, list: seq<TxId>, h: TxId) {
    && now.Keys == was.Keys
    && forall x :: x in was ==> now[x] == if x in list then was[x] - {h} else was[x]
  }

  /** Nobody in the block, nor h, waits for anybody. */
  ghost predicate Settled(waiting: map<TxId, set<TxId>>, ids: set<TxId>) {
    forall x :: x in ids && x in waiting ==> waiting[x] == {}
  }

  lemma ToldMore(was: map<TxId, set<TxId>>, now: map<TxId, set<TxId>>, list: seq<TxId>, h: TxId, x: TxId)
    requires Told(was, now, list, h) && x in was
    ensures Told(was, if now[x] == {} then now else now[x := now[x] - {h}], list + [x], h)
  {
    var next := if now[x] == {} then now else now[x := now[x] - {h}];
    forall y | y in was ensures next[y] == if y in list + [x] then was[y] - {h} else was[y] {
      if y == x {
        assert was[x] - {h} - {h} == was[x] - {h};
      } else {
        assert y in list + [x] <==> y in list;
      }
    }
  }

  /** A transaction whose last missing parent is h is ready. */
  lemma NowReady(pool: Pool, pol: Policy, vec: seq<Entry>, was: map<TxId, set<TxId>>, now: map<TxId, set<TxId>>, list: seq<TxId>,
                 h: TxId, x: TxId, ids: set<TxId>)
    requires VecOk(pool, pol, vec, now, ids + {h}) && WaitingOk(pool, was, ids) && Settled(was, ids + {h})
    requires Told(was, now, list, h) && x in was && now[x] != {}
    ensures x in pool.txs
    ensures var next := now[x := now[x] - {h}];
      if next[x] == {} then VecOk(pool, pol, vec + [EntryOf(pool, pol, x)], next, ids + {h}) else VecOk(pool, pol, vec, next, ids + {h})
  {
    hide Pool.Parents;
    var next := now[x := now[x] - {h}];
    assert was[x] != {} && x !in ids + {h};
    forall i | 0 <= i < |vec| ensures vec[i].id != x && EntryOk(pool, pol, vec[i], next, ids + {h}) {
    }
    if next[x] == {} {
      assert was[x] <= {h};
      assert pool.Parents(x) <= ids + {h};
      assert EntryOk(pool, pol, EntryOf(pool, pol, x), next, ids + {h});
    }
  }

  lemma PendingStep(now: map<TxId, set<TxId>>, x: TxId, h: TxId)
    requires x in now && now[x] != {}
    ensures x in Pending(now)
    ensures var next := now[x := now[x] - {h}]; Pending(next) == if next[x] == {} then Pending(now) - {x} else Pending(now)
  {
    var next := now[x := now[x] - {h}];
    if next[x] == {} {
      assert Pending(next) == Pending(now) - {x};
    } else {
      assert Pending(next) == Pending(now);
    }
  }

  /** The loop over mapDependers: whoever waited only for h becomes ready, once. */
  method Release(pool: Pool, pol: Policy, h: TxId, list: seq<TxId>, vec0: seq<Entry>, waiting0: map<TxId, set<TxId>>, ghost ids: set<TxId>)
    returns (vec: seq<Entry>, waiting: map<TxId, set<TxId>>)
    requires VecOk(pool, pol, vec0, waiting0, ids + {h}) && WaitingOk(pool, waiting0, ids) && Settled(waiting0, ids + {h})
    requires forall i :: 0 <= i < |list| ==> list[i] in waiting0
    ensures Told(waiting0, waiting, list, h) && VecOk(pool, pol, vec, waiting, ids + {h})
    ensures |vec| + |Pending(waiting)| == |vec0| + |Pending(waiting0)| && Pending(waiting) <= Pending(waiting0)
    ensures VecIds(vec) == VecIds(vec0) + (Pending(waiting0) - Pending(waiting))
  {
    hide VecOk, WaitingOk, Settled, Pending, VecIds;
    vec, waiting := vec0, waiting0;
    for i := 0 to |list|
      invariant Told(waiting0, waiting, list[..i], h) && VecOk(pool, pol, vec, waiting, ids + {h})
      invariant |vec| + |Pending(waiting)| == |vec0| + |Pending(waiting0)| && Pending(waiting) <= Pending(waiting0)
      invariant VecIds(vec) == VecIds(vec0) + (Pending(waiting0) - Pending(waiting))
    {
      var x := list[i];
      assert list[..i + 1] == list[..i] + [x];
      ToldMore(waiting0, waiting, list[..i], h, x);
      if waiting[x] != {} {
        NowReady(pool, pol, vec, waiting0, waiting, list[..i], h, x, ids);
        PendingStep(waiting, x, h);
        waiting := waiting[x := waiting[x] - {h}];
        if waiting[x] == {} {
          VecIdsMore(vec, EntryOf(pool, pol, x));
          vec := vec + [EntryOf(pool, pol, x)];
        }
      }
    }
    assert list[..|list|] == list;
  }

  // ------------------------------------------------------------------- collect

  /** The transactions visited so far are ready or waiting, as their parents decide. */
  ghost predicate Collected(pool: Pool, pol: Policy, seen: set<TxId>, vec: seq<Entry>, waiting: map<TxId, set<TxId>>, dependers: map<TxId, seq<TxId>>) {
    && VecOk(pool, pol, vec, waiting, {}) && WaitingOk(pool, waiting, {}) && DependersOk(pool, waiting, dependers)
    && VecIds(vec) <= seen && waiting.Keys <= seen
    && (forall x :: x in seen && pool.Eligible(x) ==> x in if pool.Parents(x) == {} then VecIds(vec) else waiting.Keys)
  }

  /** One transaction's inputs: its unconfirmed parents are noted, each time one is met; a missing input drops it. */
  method NoteParents(pool: Pool, id: TxId, dependers0: map<TxId, seq<TxId>>)
    returns (missing: bool, parents: set<TxId>, dependers: map<TxId, seq<TxId>>)
    requires pool.Wanted(id) && pool.MissingFirst(pool.txs[id].vin) && forall p :: !Lists(dependers0, p, id)
    ensures missing <==> !pool.Eligible(id)
    ensures missing ==> dependers == dependers0
    ensures !missing ==> parents == pool.Parents(id)
    ensures !missing ==> forall p, x :: Lists(dependers, p, x) <==> Lists(dependers0, p, x) || (x == id && p in parents)
  {
    missing, parents, dependers := false, {}, dependers0;
    var vin := pool.txs[id].vin;
    for i := 0 to |vin|
      invariant parents == set k | 0 <= k < i && !pool.onDisk(vin[k]) :: vin[k].hash
      invariant parents == {} ==> dependers == dependers0
      invariant forall k :: 0 <= k < i ==> !pool.Missing(vin[k])
      invariant forall p, x :: Lists(dependers, p, x) <==> Lists(dependers0, p, x) || (x == id && p in parents)
    {
      if !pool.onDisk(vin[i]) {
        var p := vin[i].hash;
        if p !in pool.txs {
          assert pool.Missing(vin[i]);
          assert parents == {};
          return true, parents, dependers;
        }
        ghost var before := dependers;
        dependers := dependers[p := (if p in dependers then dependers[p] else []) + [id]];
        parents := parents + {p};
        assert forall q, x :: Lists(dependers, q, x) <==> Lists(before, q, x) || (x == id && q == p);
      }
    }
  }

  lemma CollectOne(pool: Pool, pol: Policy, seen: set<TxId>, vec: seq<Entry>, waiting: map<TxId, set<TxId>>, dependers: map<TxId, seq<TxId>>,
                   id: TxId, now: map<TxId, seq<TxId>>)
    requires Collected(pool, pol, seen, vec, waiting, dependers) && id !in seen && pool.Eligible(id)
    requires forall p, x :: Lists(now, p, x) <==> Lists(dependers, p, x) || (x == id && p in pool.Parents(id))
    ensures if pool.Parents(id) == {} then Collected(pool, pol, seen + {id}, vec + [EntryOf(pool, pol, id)], waiting, now)
            else Collected(pool, pol, seen + {id}, vec, waiting[id := pool.Parents(id)], now)
  {
    hide Pool.Parents, Pool.Eligible;
    EligibleIn(pool, id);
    var ps := pool.Parents(id);
    if ps == {} {
      VecIdsMore(vec, EntryOf(pool, pol, id));
      forall i | 0 <= i < |vec| ensures vec[i].id != id {
        assert vec[i].id in VecIds(vec);
      }
      assert DependersOk(pool, waiting, now);
    } else {
      var next := waiting[id := ps];
      assert DependersOk(pool, next, now);
      assert WaitingOk(pool, next, {});
      assert VecOk(pool, pol, vec, next, {});
    }
  }

  /** The loop over the memory pool, in any order. */
  method Collect(pool: Pool, pol: Policy) returns (vec: seq<Entry>, waiting: map<TxId, set<TxId>>, dependers: map<TxId, seq<TxId>>)
    requires pool.Kept()
    ensures Collected(pool, pol, pool.txs.Keys, vec, waiting, dependers)
  {
    hide Pool.Parents, Collected, Pool.Eligible, Pool.Wanted, Pool.MissingFirst;
    vec, waiting, dependers := [], map[], map[];
    ghost var seen: set<TxId> := {};
    var todo := pool.txs.Keys;
    NothingCollected(pool, pol);
    while todo != {}
      invariant seen == pool.txs.Keys - todo && todo <= pool.txs.Keys && Collected(pool, pol, seen, vec, waiting, dependers)
      decreases |todo|
    {
      var id :| id in todo;
      todo := todo - {id};
      if pool.Wanted(id) {
        NotYetListed(pool, pol, seen, vec, waiting, dependers, id);
        ghost var was := dependers;
        var missing, parents, now := NoteParents(pool, id, dependers);
        dependers := now;
        if missing {
          SeeMore(pool, pol, seen, vec, waiting, dependers, id);
        } else {
          CollectOne(pool, pol, seen, vec, waiting, was, id, now);
          if parents == {} {
            vec := vec + [EntryOf(pool, pol, id)];
          } else {
            waiting := waiting[id := parents];
          }
        }
      } else {
        UnwantedNot(pool, id);
        SeeMore(pool, pol, seen, vec, waiting, dependers, id);
      }
      seen := seen + {id};
    }
    assert seen == pool.txs.Keys;
  }

  lemma UnwantedNot(pool: Pool, id: TxId)
    requires !pool.Wanted(id)
    ensures !pool.Eligible(id)
  {
  }

  lemma NothingCollected(pool: Pool, pol: Policy)
    ensures Collected(pool, pol, {}, [], map[], map[])
  {
  }

  lemma SeeMore(pool: Pool, pol: Policy, seen: set<TxId>, vec: seq<Entry>, waiting: map<TxId, set<TxId>>, dependers: map<TxId, seq<TxId>>, id: TxId)
    requires Collected(pool, pol, seen, vec, waiting, dependers) && !pool.Eligible(id)
    ensures Collected(pool, pol, seen + {id}, vec, waiting, dependers)
  {
  }

  lemma NotYetListed(pool: Pool, pol: Policy, seen: set<TxId>, vec: seq<Entry>, waiting: map<TxId, set<TxId>>, dependers: map<TxId, seq<TxId>>, id: TxId)
    requires Collected(pool, pol, seen, vec, waiting, dependers) && id !in seen
    ensures forall p :: !Lists(dependers, p, id)
  {
  }

  // ---------------------------------------------------------------- the block

  function IdSet(chosen: seq<Transaction>): (r: set<TxId>) { set i | 0 <= i < |chosen| :: chosen[i].id }

  /** A block template: eligible pool transactions, none twice, every unconfirmed parent before its child. */
  ghost predicate TemplateOk(pool: Pool, chosen: seq<Transaction>) {
    && (forall i :: 0 <= i < |chosen| ==> pool.Eligible(chosen[i].id) && pool.txs[chosen[i].id] == chosen[i])
    && (forall i, j :: 0 <= i < j < |chosen| ==> chosen[i].id != chosen[j].id)
    && (forall i :: 0 <= i < |chosen| ==> chosen[i].id in pool.txs && pool.Parents(chosen[i].id) <= IdSet(chosen[..i]))
  }

  /** Said of the transactions themselves: none is minting, all are final, and every input is stored or pays from an earlier one. */
  lemma TemplateMeans(pool: Pool, chosen: seq<Transaction>, i: nat)
    requires TemplateOk(pool, chosen) && i < |chosen|
    ensures !chosen[i].IsCoinBase() && !chosen[i].IsCoinStake() && pool.isFinal(chosen[i])
    ensures forall k :: 0 <= k < |chosen[i].vin| ==> pool.onDisk(chosen[i].vin[k]) || Earlier(chosen, i, chosen[i].vin[k].hash)
  {
    forall k | 0 <= k < |chosen[i].vin| ensures pool.onDisk(chosen[i].vin[k]) || Earlier(chosen, i, chosen[i].vin[k].hash) {
      if !pool.onDisk(chosen[i].vin[k]) {
        assert chosen[i].vin[k].hash in pool.Parents(chosen[i].id);
        assert chosen[i].vin[k].hash in IdSet(chosen[..i]);
        var j :| 0 <= j < i && chosen[..i][j].id == chosen[i].vin[k].hash;
        assert chosen[j].id == chosen[i].vin[k].hash;
      }
    }
  }

  predicate Earlier(chosen: seq<Transaction>, i: nat, id: TxId)
    requires i <= |chosen|
  {
    exists j :: 0 <= j < i && chosen[j].id == id
  }

  function SizeOf(pol: Policy, chosen: seq<Transaction>): (r: nat) {
    if chosen == [] then RESERVED_SIZE else SizeOf(pol, chosen[..|chosen| - 1]) + pol.size(chosen[|chosen| - 1])
  }

  function SigOpsOf(pol: Policy, chosen: seq<Transaction>): (r: nat) {
    if chosen == [] then RESERVED_SIGOPS
    else
      var front, tx := chosen[..|chosen| - 1], chosen[|chosen| - 1];
      SigOpsOf(pol, front) + pol.sigOps(tx) + pol.p2shSigOps(front, tx)
  }

  /** Once anything is selected, both totals are strictly below their limits. */
  ghost predicate WithinLimits(pol: Policy, chosen: seq<Transaction>) {
    chosen != [] ==> SizeOf(pol, chosen) < pol.maxSize && SigOpsOf(pol, chosen) < MAX_BLOCK_SIGOPS
  }

  /** The running totals and the current order of the queue. */
  datatype Totals = Totals(size: nat, sigOps: nat, byFee: bool)

  /** The tests a transaction must pass at its turn. */
  predicate Acceptable(pol: Policy, chosen: seq<Transaction>, tx: Transaction, byFee: bool) {
    var size := SizeOf(pol, chosen + [tx]);
    && size < pol.maxSize && SigOpsOf(pol, chosen + [tx]) < MAX_BLOCK_SIGOPS
    && pol.timely(tx) && pol.connects(chosen, tx)
    && (byFee && pol.feePerKb(tx) < pol.minFee ==> size < pol.minSize)
  }

  /** The order of the queue after a turn: by fee, once a transaction is no longer of high priority or passes the priority size. */
  predicate ByFeeNext(pol: Policy, chosen: seq<Transaction>, tx: Transaction, byFee: bool) {
    var size := SizeOf(pol, chosen + [tx]);
    byFee ||
    (&& size < pol.maxSize && SigOpsOf(pol, chosen) + pol.sigOps(tx) < MAX_BLOCK_SIGOPS && pol.timely(tx)
     && (size >= pol.prioritySize || pol.priority(tx) < HIGH_PRIORITY))
  }

  /** The checks on the transaction at the front of the queue, in order. */
  method Consider(pol: Policy, chosen: seq<Transaction>, tx: Transaction, e: Entry, t: Totals) returns (take: bool, next: Totals)
    requires t.size == SizeOf(pol, chosen) && t.sigOps == SigOpsOf(pol, chosen)
    requires e.priority == pol.priority(tx) && e.feePerKb == pol.feePerKb(tx)
    ensures take <==> Acceptable(pol, chosen, tx, t.byFee)
    ensures next.byFee <==> ByFeeNext(pol, chosen, tx, t.byFee)
    ensures if take then next.size == SizeOf(pol, chosen + [tx]) && next.sigOps == SigOpsOf(pol, chosen + [tx])
            else next.size == t.size && next.sigOps == t.sigOps
  {
    assert (chosen + [tx])[..|chosen|] == chosen;
    take, next := false, t;
    var txSize := pol.size(tx);
    if t.size + txSize >= pol.maxSize {
      return;
    }
    var txSigOps := pol.sigOps(tx);
    if t.sigOps + txSigOps >= MAX_BLOCK_SIGOPS {
      return;
    }
    if !pol.timely(tx) {
      return;
    }
    if t.byFee && e.feePerKb < pol.minFee && t.size + txSize >= pol.minSize {
      return;
    }
    if !t.byFee && (t.size + txSize >= pol.prioritySize || e.priority < HIGH_PRIORITY) {
      next := next.(byFee := true);
    }
    txSigOps := txSigOps + pol.p2shSigOps(chosen, tx);
    if t.sigOps + txSigOps >= MAX_BLOCK_SIGOPS {
      return;
    }
    if !pol.connects(chosen, tx) {
      return;
    }
    take, next := true, Totals(t.size + txSize, t.sigOps + txSigOps, next.byFee);
  }

  // ----------------------------------------------------------- the whole run

  /** The chosen transactions and the order of the queue, after the listed ones have had their turns. */
  function After(pool: Pool, pol: Policy, turns: seq<TxId>): (r: (seq<Transaction>, bool)) {
    if turns == [] then ([], pol.prioritySize <= 0)
    else
      var k := |turns| - 1;
      var (chosen, byFee) := After(pool, pol, turns[..k]);
      if turns[k] !in pool.txs then (chosen, byFee)
      else
        var tx := pool.txs[turns[k]];
        (if Acceptable(pol, chosen, tx, byFee) then chosen + [tx] else chosen, ByFeeNext(pol, chosen, tx, byFee))
  }

  /** Eligible, not had its turn yet, all unconfirmed parents in the block. */
  predicate IsReady(pool: Pool, turns: seq<TxId>, ids: set<TxId>, x: TxId) {
    pool.Eligible(x) && x !in turns && pool.Parents(x) <= ids
  }

  /** x is ready, and in the current order below no other that is. */
  ghost predicate IsNext(pool: Pool, pol: Policy, turns: seq<TxId>, x: TxId) {
    var (chosen, byFee) := After(pool, pol, turns);
    && IsReady(pool, turns, IdSet(chosen), x)
    && forall y :: IsReady(pool, turns, IdSet(chosen), y) ==> !Below(EntryOf(pool, pol, x), EntryOf(pool, pol, y), byFee)
  }

  /** Every turn went to a transaction that was next. */
  ghost predicate InOrder(pool: Pool, pol: Policy, turns: seq<TxId>) {
    turns == [] ||
    var k := |turns| - 1;
    InOrder(pool, pol, turns[..k]) && IsNext(pool, pol, turns[..k], turns[k])
  }

  lemma {:induction false} TurnWasNext(pool: Pool, pol: Policy, turns: seq<TxId>, k: nat)
    requires InOrder(pool, pol, turns) && k < |turns|
    ensures IsNext(pool, pol, turns[..k], turns[k])
  {
    hide IsNext;
    if k < |turns| - 1 {
      TurnWasNext(pool, pol, turns[..|turns| - 1], k);
      assert turns[..|turns| - 1][..k] == turns[..k];
    }
  }

  /**
    Whose turn it is: in fee order no other ready transaction pays more per kilobyte, in priority order none has a
    higher priority; the other measure decides between equals.
  */
  lemma TurnIsBest(pool: Pool, pol: Policy, turns: seq<TxId>, k: nat, y: TxId)
    requires InOrder(pool, pol, turns) && k < |turns|
    requires IsReady(pool, turns[..k], IdSet(After(pool, pol, turns[..k]).0), y)
    ensures turns[k] in pool.txs && y in pool.txs
    ensures var byFee, tx, other := After(pool, pol, turns[..k]).1, pool.txs[turns[k]], pool.txs[y];
      if byFee
      then pol.feePerKb(tx) >= pol.feePerKb(other) && (pol.feePerKb(tx) == pol.feePerKb(other) ==> pol.priority(tx) >= pol.priority(other))
      else pol.priority(tx) >= pol.priority(other) && (pol.priority(tx) == pol.priority(other) ==> pol.feePerKb(tx) >= pol.feePerKb(other))
  {
    hide After, Pool.Parents;
    TurnWasNext(pool, pol, turns, k);
  }

  /** While the queue is in priority order, only high-priority transactions have been chosen, and the priority size is not reached. */
  ghost predicate PriorityOnly(pol: Policy, chosen: seq<Transaction>) {
    && (forall i :: 0 <= i < |chosen| ==> pol.priority(chosen[i]) >= HIGH_PRIORITY)
    && (chosen != [] ==> SizeOf(pol, chosen) < pol.prioritySize)
  }

  /** A chosen transaction is timely and connects to those before it; a cheap one fits the minimum size or came in priority order. */
  ghost predicate Deserved(pol: Policy, chosen: seq<Transaction>, i: nat)
    requires i < |chosen|
  {
    && pol.timely(chosen[i]) && pol.connects(chosen[..i], chosen[i])
    && (pol.feePerKb(chosen[i]) >= pol.minFee || SizeOf(pol, chosen[..i + 1]) < pol.minSize || PriorityOnly(pol, chosen[..i]))
  }

  lemma {:induction false} ChosenDeserve(pool: Pool, pol: Policy, turns: seq<TxId>)
    ensures var (chosen, byFee) := After(pool, pol, turns);
      (forall i :: 0 <= i < |chosen| ==> Deserved(pol, chosen, i)) && (!byFee ==> pol.prioritySize > 0 && PriorityOnly(pol, chosen))
  {
    if turns != [] {
      var k := |turns| - 1;
      ChosenDeserve(pool, pol, turns[..k]);
      var (chosen, byFee) := After(pool, pol, turns[..k]);
      if turns[k] in pool.txs {
        var tx := pool.txs[turns[k]];
        if Acceptable(pol, chosen, tx, byFee) {
          hide After, SigOpsOf;
          OneMoreDeserves(pol, chosen, tx, byFee);
        }
      }
    }
  }

  lemma OneMoreDeserves(pol: Policy, chosen: seq<Transaction>, tx: Transaction, byFee: bool)
    requires Acceptable(pol, chosen, tx, byFee) && (forall i :: 0 <= i < |chosen| ==> Deserved(pol, chosen, i))
    requires !byFee ==> pol.prioritySize > 0 && PriorityOnly(pol, chosen)
    ensures var all := chosen + [tx];
      && (forall i :: 0 <= i < |all| ==> Deserved(pol, all, i))
      && (!ByFeeNext(pol, chosen, tx, byFee) ==> PriorityOnly(pol, all))
  {
    hide SizeOf;
    var all := chosen + [tx];
    assert all[..|chosen|] == chosen && all[..|all|] == all;
    forall i | 0 <= i < |chosen| ensures Deserved(pol, all, i) {
      assert Deserved(pol, chosen, i) && all[..i] == chosen[..i] && all[..i + 1] == chosen[..i + 1];
    }
    SigOpsMore(pol, chosen, tx);
  }

  lemma SigOpsMore(pol: Policy, chosen: seq<Transaction>, tx: Transaction)
    ensures SigOpsOf(pol, chosen + [tx]) == SigOpsOf(pol, chosen) + pol.sigOps(tx) + pol.p2shSigOps(chosen, tx)
  {
    assert (chosen + [tx])[..|chosen|] == chosen;
  }

  /** Every eligible transaction has had its turn, is in the queue, or waits for somebody. */
  ghost predicate Placed(pool: Pool, turns: seq<TxId>, vec: seq<Entry>, waiting: map<TxId, set<TxId>>) {
    && (forall x :: pool.Eligible(x) ==> x in turns || x in VecIds(vec) || x in Pending(waiting))
    && (forall x :: x in turns ==> x !in VecIds(vec) && x !in Pending(waiting))
  }

  /** The queue holds exactly the ready transactions. */
  lemma QueueIsReady(pool: Pool, pol: Policy, turns: seq<TxId>, vec: seq<Entry>, waiting: map<TxId, set<TxId>>, ids: set<TxId>, x: TxId)
    requires VecOk(pool, pol, vec, waiting, ids) && WaitingOk(pool, waiting, ids) && Placed(pool, turns, vec, waiting)
    ensures IsReady(pool, turns, ids, x) <==> x in VecIds(vec)
  {
    hide Pool.Parents, Pool.Eligible;
    if x in VecIds(vec) {
      var i :| 0 <= i < |vec| && vec[i].id == x;
      assert EntryOk(pool, pol, vec[i], waiting, ids);
    }
  }

  /** Takes an entry that is below no other off the queue. */
  method TakeNext(vec: seq<Entry>, byFee: bool) returns (e: Entry, rest: seq<Entry>, ghost k: nat)
    requires vec != []
    ensures k < |vec| && e == vec[k] && rest == vec[..k] + vec[k + 1..]
    ensures forall j :: 0 <= j < |vec| ==> !Below(e, vec[j], byFee)
  {
    var i := Best(vec, byFee);
    k := i;
    e, rest := vec[i], vec[..i] + vec[i + 1..];
  }

  lemma Taken(pool: Pool, pol: Policy, vec: seq<Entry>, waiting: map<TxId, set<TxId>>, ids: set<TxId>, k: nat)
    requires VecOk(pool, pol, vec, waiting, ids) && k < |vec|
    ensures var rest := vec[..k] + vec[k + 1..];
      VecOk(pool, pol, rest, waiting, ids) && VecOk(pool, pol, rest, waiting, ids + {vec[k].id})
    ensures EntryOk(pool, pol, vec[k], waiting, ids)
  {
    hide Pool.Parents, Pool.Eligible;
    var rest := vec[..k] + vec[k + 1..];
    forall i | 0 <= i < |rest| ensures rest[i].id != vec[k].id && EntryOk(pool, pol, rest[i], waiting, ids) {
      assert rest[i] == if i < k then vec[i] else vec[i + 1];
    }
  }

  lemma AllSettled(pool: Pool, chosen: seq<Transaction>, waiting: map<TxId, set<TxId>>)
    requires TemplateOk(pool, chosen) && WaitingOk(pool, waiting, IdSet(chosen))
    ensures Settled(waiting, IdSet(chosen))
  {
    hide Pool.Eligible, Pool.Parents;
    forall x | x in IdSet(chosen) && x in waiting ensures waiting[x] == {} {
      var i :| 0 <= i < |chosen| && chosen[i].id == x;
      assert IdSet(chosen[..i]) <= IdSet(chosen);
    }
  }

  lemma Extended(pool: Pool, pol: Policy, chosen: seq<Transaction>, e: Entry, waiting: map<TxId, set<TxId>>)
    requires TemplateOk(pool, chosen) && EntryOk(pool, pol, e, waiting, IdSet(chosen)) && pool.Kept()
    ensures TemplateOk(pool, chosen + [pool.txs[e.id]]) && IdSet(chosen + [pool.txs[e.id]]) == IdSet(chosen) + {e.id}
  {
    hide Pool.Parents;
    var tx := pool.txs[e.id];
    var all := chosen + [tx];
    assert tx.id == e.id;
    assert all[..|chosen|] == chosen;
    forall i | 0 <= i < |chosen| ensures all[i] == chosen[i] && all[..i] == chosen[..i] {
    }
    forall i | 0 <= i < |chosen| ensures chosen[i].id in IdSet(chosen) {
    }
    forall x | x in IdSet(chosen) ensures x in IdSet(all) {
      var i :| 0 <= i < |chosen| && chosen[i].id == x;
      assert all[i].id == x;
    }
    assert all[|chosen|].id == e.id;
  }

  lemma NowWaiting(pool: Pool, was: map<TxId, set<TxId>>, now: map<TxId, set<TxId>>, dependers: map<TxId, seq<TxId>>, ids: set<TxId>, h: TxId)
    requires WaitingOk(pool, was, ids) && DependersOk(pool, was, dependers)
    requires Told(was, now, if h in dependers then dependers[h] else [], h)
    ensures WaitingOk(pool, now, ids + {h}) && DependersOk(pool, now, dependers)
  {
    hide Pool.Eligible, Pool.Parents;
    forall x | x in now ensures pool.Eligible(x) && x in pool.txs && now[x] == pool.Parents(x) - (ids + {h}) {
      assert pool.Eligible(x);
      EligibleIn(pool, x);
      assert Lists(dependers, h, x) <==> h in pool.Parents(x);
    }
  }

  lemma EligibleIn(pool: Pool, x: TxId)
    requires pool.Eligible(x)
    ensures x in pool.txs
  {
  }

  /** Everything the loop of CreateNewBlock keeps. */
  ghost predicate InProgress(pool: Pool, pol: Policy, turns: seq<TxId>, chosen: seq<Transaction>, vec: seq<Entry>,
                             waiting: map<TxId, set<TxId>>, dependers: map<TxId, seq<TxId>>, t: Totals) {
    && TemplateOk(pool, chosen) && VecOk(pool, pol, vec, waiting, IdSet(chosen))
    && WaitingOk(pool, waiting, IdSet(chosen)) && DependersOk(pool, waiting, dependers)
    && t.size == SizeOf(pol, chosen) && t.sigOps == SigOpsOf(pol, chosen) && WithinLimits(pol, chosen)
    && (chosen, t.byFee) == After(pool, pol, turns) && InOrder(pool, pol, turns) && Placed(pool, turns, vec, waiting)
  }

  /**
    CreateNewBlock: the transactions after the coinbase.
    Turn by turn the best ready transaction is taken exactly if it passes the tests, until none is ready.
  */
  method CreateNewBlock(pool: Pool, pol: Policy) returns (chosen: seq<Transaction>, ghost turns: seq<TxId>)
    requires pool.Kept()
    ensures TemplateOk(pool, chosen) && WithinLimits(pol, chosen)
    ensures InOrder(pool, pol, turns) && chosen == After(pool, pol, turns).0
    ensures forall x :: pool.Eligible(x) ==> (x in turns <==> pool.Parents(x) <= IdSet(chosen))
  {
    hide Pool.Parents, Pool.Eligible, Pool.Kept, Collected, InProgress;
    var vec, waiting, dependers := Collect(pool, pol);
    chosen, turns := [], [];
    var t := Totals(RESERVED_SIZE, RESERVED_SIGOPS, pol.prioritySize <= 0);
    Start(pool, pol, vec, waiting, dependers, t);
    while vec != []
      invariant InProgress(pool, pol, turns, chosen, vec, waiting, dependers, t)
      decreases |vec| + |Pending(waiting)|
    {
      chosen, vec, waiting, t, turns := Turn(pool, pol, turns, chosen, vec, waiting, dependers, t);
    }
    Finished(pool, pol, turns, chosen, vec, waiting, dependers, t);
  }

  lemma Start(pool: Pool, pol: Policy, vec: seq<Entry>, waiting: map<TxId, set<TxId>>, dependers: map<TxId, seq<TxId>>, t: Totals)
    requires Collected(pool, pol, pool.txs.Keys, vec, waiting, dependers)
    requires t == Totals(RESERVED_SIZE, RESERVED_SIGOPS, pol.prioritySize <= 0)
    ensures InProgress(pool, pol, [], [], vec, waiting, dependers, t)
  {
    hide Pool.Parents, Pool.Eligible;
    assert IdSet([]) == {};
    forall x | pool.Eligible(x) ensures x in VecIds(vec) || x in Pending(waiting) {
      EligibleIn(pool, x);
    }
  }

  lemma Finished(pool: Pool, pol: Policy, turns: seq<TxId>, chosen: seq<Transaction>, vec: seq<Entry>,
                 waiting: map<TxId, set<TxId>>, dependers: map<TxId, seq<TxId>>, t: Totals)
    requires InProgress(pool, pol, turns, chosen, vec, waiting, dependers, t) && vec == []
    ensures TemplateOk(pool, chosen) && WithinLimits(pol, chosen)
    ensures InOrder(pool, pol, turns) && chosen == After(pool, pol, turns).0
    ensures forall x :: pool.Eligible(x) ==> (x in turns <==> pool.Parents(x) <= IdSet(chosen))
  {
    hide Pool.Parents, After, InOrder, TemplateOk;
    forall x | pool.Eligible(x) ensures x in turns <==> pool.Parents(x) <= IdSet(chosen) {
      QueueIsReady(pool, pol, turns, vec, waiting, IdSet(chosen), x);
      if x in turns {
        TurnHadParents(pool, pol, turns, x);
      }
    }
  }

  /** Whoever had a turn had its parents in the block. */
  lemma {:induction false} TurnHadParents(pool: Pool, pol: Policy, turns: seq<TxId>, x: TxId)
    requires InOrder(pool, pol, turns) && x in turns
    ensures pool.Eligible(x) && pool.Parents(x) <= IdSet(After(pool, pol, turns).0)
  {
    hide Pool.Parents, Pool.Eligible, Acceptable, ByFeeNext;
    var k := |turns| - 1;
    var before, chosen := After(pool, pol, turns[..k]).0, After(pool, pol, turns).0;
    assert IdSet(before) <= IdSet(chosen) by {
      assert forall i :: 0 <= i < |before| ==> before[i] == chosen[i];
    }
    if x != turns[k] {
      assert x in turns[..k];
      TurnHadParents(pool, pol, turns[..k], x);
    }
  }

  lemma NextIs(pool: Pool, pol: Policy, turns: seq<TxId>, chosen: seq<Transaction>, byFee: bool, vec: seq<Entry>, waiting: map<TxId, set<TxId>>, e: Entry)
    requires VecOk(pool, pol, vec, waiting, IdSet(chosen)) && WaitingOk(pool, waiting, IdSet(chosen)) && Placed(pool, turns, vec, waiting)
    requires (chosen, byFee) == After(pool, pol, turns) && Leads(vec, e, byFee)
    ensures IsNext(pool, pol, turns, e.id)
  {
    hide Pool.Parents, Pool.Eligible, After;
    assert e.id in VecIds(vec);
    EligibleIn(pool, e.id);
    QueueIsReady(pool, pol, turns, vec, waiting, IdSet(chosen), e.id);
    forall y | IsReady(pool, turns, IdSet(chosen), y)
      ensures pool.Eligible(y) && y in pool.txs && !Below(EntryOf(pool, pol, e.id), EntryOf(pool, pol, y), byFee)
    {
      EligibleIn(pool, y);
      QueueIsReady(pool, pol, turns, vec, waiting, IdSet(chosen), y);
      var i :| 0 <= i < |vec| && vec[i].id == y;
      assert EntryOk(pool, pol, vec[i], waiting, IdSet(chosen));
    }
  }

  lemma AfterTurn(pool: Pool, pol: Policy, turns: seq<TxId>, x: TxId)
    requires x in pool.txs && InOrder(pool, pol, turns) && IsNext(pool, pol, turns, x)
    ensures InOrder(pool, pol, turns + [x])
    ensures var (chosen, byFee) := After(pool, pol, turns);
      var tx := pool.txs[x];
      After(pool, pol, turns + [x]) == (if Acceptable(pol, chosen, tx, byFee) then chosen + [tx] else chosen, ByFeeNext(pol, chosen, tx, byFee))
  {
    hide IsNext, Acceptable, ByFeeNext;
    assert (turns + [x])[..|turns|] == turns;
  }

  /** Nothing is lost: the one that had its turn is noted, whoever stopped waiting is in the queue. */
  lemma StillPlaced(pool: Pool, turns: seq<TxId>, vec: seq<Entry>, waiting: map<TxId, set<TxId>>, k: nat,
                    vec2: seq<Entry>, waiting2: map<TxId, set<TxId>>)
    requires Placed(pool, turns, vec, waiting) && k < |vec| && DistinctIds(vec) && Pending(waiting2) <= Pending(waiting)
    requires vec[k].id !in Pending(waiting)
    requires VecIds(vec2) == VecIds(vec[..k] + vec[k + 1..]) + (Pending(waiting) - Pending(waiting2))
    ensures Placed(pool, turns + [vec[k].id], vec2, waiting2)
  {
    hide Pool.Eligible, Pending;
    var rest, turns2 := vec[..k] + vec[k + 1..], turns + [vec[k].id];
    assert VecIds(rest) == VecIds(vec) - {vec[k].id} by {
      RestIds(vec, k);
    }
    assert forall x :: x in turns2 <==> x in turns || x == vec[k].id;
  }

  lemma RestIds(vec: seq<Entry>, k: nat)
    requires k < |vec| && DistinctIds(vec)
    ensures VecIds(vec[..k] + vec[k + 1..]) == VecIds(vec) - {vec[k].id}
  {
    var rest := vec[..k] + vec[k + 1..];
    forall x | x in VecIds(rest) ensures x in VecIds(vec) && x != vec[k].id {
      var i :| 0 <= i < |rest| && rest[i].id == x;
      assert rest[i] == if i < k then vec[i] else vec[i + 1];
    }
    forall x | x in VecIds(vec) && x != vec[k].id ensures x in VecIds(rest) {
      var i :| 0 <= i < |vec| && vec[i].id == x;
      assert vec[i] == if i < k then rest[i] else rest[i - 1];
    }
  }

  lemma NotPending(pool: Pool, pol: Policy, e: Entry, waiting: map<TxId, set<TxId>>, ids: set<TxId>)
    requires EntryOk(pool, pol, e, waiting, ids)
    ensures e.id !in Pending(waiting) && e.id in pool.txs && e == EntryOf(pool, pol, e.id)
  {
  }

  lemma StillWithin(pol: Policy, chosen: seq<Transaction>, tx: Transaction, byFee: bool)
    requires Acceptable(pol, chosen, tx, byFee)
    ensures WithinLimits(pol, chosen + [tx])
  {
  }

  /** One turn of the loop: the best ready transaction is considered, and whoever waited only for it becomes ready. */
  method Turn(pool: Pool, pol: Policy, ghost turns: seq<TxId>, chosen: seq<Transaction>, vec: seq<Entry>,
              waiting: map<TxId, set<TxId>>, dependers: map<TxId, seq<TxId>>, t: Totals)
    returns (chosen2: seq<Transaction>, vec2: seq<Entry>, waiting2: map<TxId, set<TxId>>, t2: Totals, ghost turns2: seq<TxId>)
    requires pool.Kept() && InProgress(pool, pol, turns, chosen, vec, waiting, dependers, t) && vec != []
    ensures InProgress(pool, pol, turns2, chosen2, vec2, waiting2, dependers, t2)
    ensures |turns2| == |turns| + 1 && turns2[..|turns|] == turns
    ensures |vec2| + |Pending(waiting2)| == |vec| + |Pending(waiting)| - 1
  {
    hide Pool.Parents, Pool.Eligible, Pool.Kept, TemplateOk, WaitingOk, DependersOk, WithinLimits, Pending, Settled, Placed, IsNext;
    hide After, InOrder, Acceptable, ByFeeNext, SizeOf, SigOpsOf, EntryOk, VecIds, Told;
    ghost var k;
    var e;
    e, vec2, k := TakeNext(vec, t.byFee);
    ghost var ids, rest := IdSet(chosen), vec2;
    Taken(pool, pol, vec, waiting, ids, k);
    NotPending(pool, pol, e, waiting, ids);
    NextIs(pool, pol, turns, chosen, t.byFee, vec, waiting, e);
    AfterTurn(pool, pol, turns, e.id);
    turns2 := turns + [e.id];
    var take;
    take, t2 := Consider(pol, chosen, pool.txs[e.id], e, t);
    chosen2, waiting2 := chosen, waiting;
    if take {
      Extended(pool, pol, chosen, e, waiting);
      StillWithin(pol, chosen, pool.txs[e.id], t.byFee);
      chosen2 := chosen + [pool.txs[e.id]];
      AllSettled(pool, chosen, waiting);
      SettledToo(waiting, ids, e, pool, pol);
      var list := if e.id in dependers then dependers[e.id] else [];
      ListedWait(pool, waiting, dependers, e.id);
      vec2, waiting2 := Release(pool, pol, e.id, list, vec2, waiting, ids);
      NowWaiting(pool, waiting, waiting2, dependers, ids, e.id);
    }
    StillPlaced(pool, turns, vec, waiting, k, vec2, waiting2);
  }

  lemma SettledToo(waiting: map<TxId, set<TxId>>, ids: set<TxId>, e: Entry, pool: Pool, pol: Policy)
    requires Settled(waiting, ids) && EntryOk(pool, pol, e, waiting, ids)
    ensures Settled(waiting, ids + {e.id})
  {
  }

  lemma ListedWait(pool: Pool, waiting: map<TxId, set<TxId>>, dependers: map<TxId, seq<TxId>>, h: TxId)
    requires DependersOk(pool, waiting, dependers)
    ensures h in dependers ==> forall i :: 0 <= i < |dependers[h]| ==> dependers[h][i] in waiting
  {
    if h in dependers {
      forall i | 0 <= i < |dependers[h]| ensures dependers[h][i] in waiting {
        assert Lists(dependers, h, dependers[h][i]);
      }
    }
  }
}
