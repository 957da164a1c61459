/**
  What the address manager writes to disk and how it is rebuilt from that
  (CAddrMan::Serialize and Unserialize in src/addrman.h).
*/
module AddrCodec {
  import opened Collections
  import opened AddrTables

  /** The serialised part of an entry. */
  datatype Stored = Stored(service: Service, services: set<nat>, time: int, source: NetAddr, lastSuccess: int, attempts: int)

  /** The values written, in order.  nUBuckets has bit 30 flipped. */
  datatype Image = Image(
    version: int, key: Key, nNew: int, nTried: int, nUBuckets: int,
    newInfos: seq<Stored>, triedInfos: seq<Stored>, buckets: seq<seq<int>>)

  const BIT30: int := 0x4000_0000

  function FlipBit30(x: int): (r: int) {
    if (x / BIT30) % 2 == 1 then x - BIT30 else x + BIT30
  }

  function Store(i: Info): (r: Stored) {
    Stored(i.service, i.services, i.time, i.source, i.lastSuccess, i.attempts)
  }

  /** An entry as it is read back: statistics that are not serialised start afresh. */
  function Load(st: Stored, inTried: bool, pos: int): (r: Info) {
    Info(st.service, st.services, st.time, st.source, st.lastSuccess, 0, st.attempts, 0, inTried, pos)
  }

  // ------------------------------------------------------------------ saving

  /** Ids below n that have references, in increasing order. */
  function NewSeq(info: map<Id, Info>, n: nat): (r: seq<Id>) {
    if n == 0 then []
    else NewSeq(info, n - 1) + if Id(n - 1) in info && info[Id(n - 1)].refCount != 0 then [Id(n - 1)] else []
  }

  /** Ids below n that are in the tried table, in increasing order. */
  function TriedSeq(info: map<Id, Info>, n: nat): (r: seq<Id>) {
    if n == 0 then []
    else TriedSeq(info, n - 1) + if Id(n - 1) in info && info[Id(n - 1)].inTried then [Id(n - 1)] else []
  }

  /** mapUnkIds: how many referenced entries come before this one. */
  function UnkId(info: map<Id, Info>, id: Id): (r: int) {
    |NewSeq(info, id.n)|
  }

  /** The indexes of the entries in the first i slots of a bucket. */
  function BucketList(s: State, b: int, i: nat): (r: seq<int>) {
    if i == 0 then []
    else BucketList(s, b, i - 1) + if Slot(b, i - 1) in s.new_ then [UnkId(s.info, s.new_[Slot(b, i - 1)])] else []
  }

  function StoreAll(info: map<Id, Info>, ids: seq<Id>): (r: seq<Stored>)
    requires forall i :: 0 <= i < |ids| ==> ids[i] in info
    ensures |r| == |ids| && forall i :: 0 <= i < |ids| ==> r[i] == Store(info[ids[i]])
  {
    seq(|ids|, i requires 0 <= i < |ids| => Store(info[ids[i]]))
  }

  lemma {:induction false} NewSeqIn(info: map<Id, Info>, n: nat)
    ensures forall i :: 0 <= i < |NewSeq(info, n)| ==>
      NewSeq(info, n)[i] in info && NewSeq(info, n)[i].n < n && info[NewSeq(info, n)[i]].refCount != 0
    ensures forall i, j :: 0 <= i < j < |NewSeq(info, n)| ==> NewSeq(info, n)[i] != NewSeq(info, n)[j]
  {
    if n > 0 {
      NewSeqIn(info, n - 1);
    }
  }

  lemma {:induction false} NewSeqRank(info: map<Id, Info>, n: nat, id: Id)
    requires id in info && id.n < n && info[id].refCount != 0
    ensures 0 <= UnkId(info, id) < |NewSeq(info, n)| && NewSeq(info, n)[UnkId(info, id)] == id
  {
    if id.n < n - 1 {
      NewSeqRank(info, n - 1, id);
    } else {
      assert id == Id(n - 1);
    }
  }

  lemma {:induction false} TriedSeqFacts(info: map<Id, Info>, n: nat)
    ensures forall i :: 0 <= i < |TriedSeq(info, n)| ==>
      TriedSeq(info, n)[i] in info && TriedSeq(info, n)[i].n < n && info[TriedSeq(info, n)[i]].inTried
    ensures forall id :: id in info && id.n < n && info[id].inTried ==> id in TriedSeq(info, n)
    ensures forall i, j :: 0 <= i < j < |TriedSeq(info, n)| ==> TriedSeq(info, n)[i] != TriedSeq(info, n)[j]
  {
    if n > 0 {
      TriedSeqFacts(info, n - 1);
      forall id | id in info && id.n < n && info[id].inTried ensures id in TriedSeq(info, n) {
        if id.n == n - 1 {
          assert id == Id(n - 1);
          assert TriedSeq(info, n)[|TriedSeq(info, n)| - 1] == id;
        } else {
          assert id in TriedSeq(info, n - 1);
        }
      }
    }
  }

  /** What Serialize writes. */
  function Save(s: State): (r: Image) {
    NewSeqIn(s.info, s.idCount);
    TriedSeqFacts(s.info, s.idCount);
    Image(1, s.key, s.nNew, s.nTried, FlipBit30(NEW_BUCKET_COUNT),
      StoreAll(s.info, NewSeq(s.info, s.idCount)), StoreAll(s.info, TriedSeq(s.info, s.idCount)),
      seq(NEW_BUCKET_COUNT, b => BucketList(s, b, BUCKET_SIZE)))
  }

  // ----------------------------------------------------------------- loading

  /** The new table's layout in the image can be used. */
  predicate Usable(img: Image) {
    img.version == 1 && FlipBit30(img.nUBuckets) == NEW_BUCKET_COUNT
  }

  /** One entry of the new table; without a usable layout it is placed by its own source. */
  function LoadNew(t: State, st: Stored, usable: bool): (r: State) {
    var id := Id(|t.random|);
    var i := Load(st, false, |t.random|);
    var u := t.(info := t.info[id := i], addr := t.addr[st.service.ip := id], random := t.random + [id]);
    var b := NewBucket(t.key, st.service, st.source);
    var slot := NewSlot(t.key, st.service, b);
    if !usable && slot !in t.new_ then u.(info := u.info[id := i.(refCount := 1)], new_ := u.new_[slot := id]) else u
  }

  /** The first k entries of the new table. */
  function LoadNews(t: State, infos: seq<Stored>, k: nat, usable: bool): (r: State)
    requires k <= |infos|
  {
    if k == 0 then t else LoadNew(LoadNews(t, infos, k - 1, usable), infos[k - 1], usable)
  }

  /** One tried entry, lost if its slot is taken. */
  function LoadTried(t: State, st: Stored): (r: State) {
    var slot := TriedSlot(t.key, st.service);
    if slot in t.tried then t.(nTried := t.nTried - 1)
    else
      var id := Id(t.idCount);
      t.(info := t.info[id := Load(st, true, |t.random|)], addr := t.addr[st.service.ip := id], random := t.random + [id],
         tried := t.tried[slot := id], idCount := t.idCount + 1)
  }

  function LoadTrieds(t: State, infos: seq<Stored>, k: nat): (r: State)
    requires k <= |infos|
  {
    if k == 0 then t else LoadTried(LoadTrieds(t, infos, k - 1), infos[k - 1])
  }

  /** One index found in a bucket's list. */
  function LoadRef(t: State, b: int, index: int, nNew: int, usable: bool): (r: State) {
    if !(0 <= index < nNew) || Id(index) !in t.info then t
    else
      var i := t.info[Id(index)];
      var slot := NewSlot(t.key, i.service, b);
      if usable && slot !in t.new_ && i.refCount < NEW_BUCKETS_PER_ADDRESS
      then t.(info := t.info[Id(index) := i.(refCount := i.refCount + 1)], new_ := t.new_[slot := Id(index)])
      else t
  }

  function LoadBucket(t: State, b: int, list: seq<int>, nNew: int, usable: bool): (r: State)
    decreases |list|
  {
    if list == [] then t
    else LoadRef(LoadBucket(t, b, list[..|list| - 1], nNew, usable), b, list[|list| - 1], nNew, usable)
  }

  function LoadBuckets(t: State, lists: seq<seq<int>>, k: nat, nNew: int, usable: bool): (r: State)
    requires k <= |lists|
  {
    if k == 0 then t else LoadBucket(LoadBuckets(t, lists, k - 1, nNew, usable), k - 1, lists[k - 1], nNew, usable)
  }

  /** The image holds as many entries as it announces. */
  predicate Complete(img: Image) {
    0 <= img.nNew == |img.newInfos| && img.nTried == |img.triedInfos| && (Usable(img) ==> |img.buckets| == NEW_BUCKET_COUNT)
  }

  /** All entries are back, the new table's layout is not. */
  function Entries(img: Image): (r: State)
    requires Complete(img)
  {
    var t0 := Empty(img.key).(nNew := img.nNew, nTried := img.nTried);
    var t1 := LoadNews(t0, img.newInfos, img.nNew, Usable(img)).(idCount := img.nNew);
    LoadTrieds(t1, img.triedInfos, img.nTried)
  }

  /** The state before entries without any reference are pruned. */
  function Rebuild(img: Image): (r: State)
    requires Complete(img)
  {
    LoadBuckets(Entries(img), img.buckets, |img.buckets|, img.nNew, Usable(img))
  }

  // --------------------------------------------------------------- round trip

  /** Old ids in the order in which they are written; the new id is the position. */
  ghost function Order(s: State): (r: seq<Id>) {
    NewSeq(s.info, s.idCount) + TriedSeq(s.info, s.idCount)
  }

  function Elements(ids: seq<Id>): (r: set<Id>) { set i | 0 <= i < |ids| :: ids[i] }

  lemma {:induction false} DistinctSize(ids: seq<Id>)
    requires forall i, j :: 0 <= i < j < |ids| ==> ids[i] != ids[j]
    ensures |Elements(ids)| == |ids|
  {
    if ids != [] {
      var k := |ids| - 1;
      DistinctSize(ids[..k]);
      assert Elements(ids) == Elements(ids[..k]) + {ids[k]};
      assert ids[k] !in Elements(ids[..k]);
    }
  }

  /** order lists every entry once: first the n new ones, then the tried ones. */
  ghost predicate Lists(info: map<Id, Info>, order: seq<Id>, n: int) {
    && 0 <= n <= |order|
    && (forall i :: 0 <= i < |order| ==> order[i] in info && (info[order[i]].inTried <==> i >= n))
    && (forall i, j :: 0 <= i < j < |order| ==> order[i] != order[j])
    && (forall id :: id in info ==> id in order)
  }

  /** An entry is referenced exactly when it is not tried. */
  ghost predicate Sorted(info: map<Id, Info>, n: nat) {
    forall id :: id in info ==> id.n < n && (info[id].refCount != 0 <==> !info[id].inTried)
  }

  lemma CheckSorts(s: State)
    requires Check(s)
    ensures Sorted(s.info, s.idCount)
  {
    hide RandomOk, CountsOk, TimesOk, SlotsOk;
  }

  lemma NewElements(info: map<Id, Info>, n: nat)
    requires Sorted(info, n)
    ensures Elements(NewSeq(info, n)) == NewIds(info)
  {
    NewSeqIn(info, n);
    forall id | id in NewIds(info) ensures id in Elements(NewSeq(info, n)) {
      NewSeqRank(info, n, id);
    }
  }

  lemma TriedElements(info: map<Id, Info>, n: nat)
    requires Sorted(info, n)
    ensures Elements(TriedSeq(info, n)) == TriedIds(info)
  {
    TriedSeqFacts(info, n);
  }

  lemma OrderSizes(info: map<Id, Info>, n: nat)
    requires Sorted(info, n)
    ensures |NewSeq(info, n)| == |NewIds(info)| && |TriedSeq(info, n)| == |TriedIds(info)|
  {
    NewSeqIn(info, n);
    TriedSeqFacts(info, n);
    NewElements(info, n);
    TriedElements(info, n);
    DistinctSize(NewSeq(info, n));
    DistinctSize(TriedSeq(info, n));
  }

  lemma OrderCovers(info: map<Id, Info>, n: nat, id: Id)
    requires Sorted(info, n) && id in info
    ensures id in NewSeq(info, n) + TriedSeq(info, n)
  {
    NewElements(info, n);
    TriedElements(info, n);
    hide NewSeq, TriedSeq;
    if info[id].inTried {
      assert id in TriedIds(info);
    } else {
      assert id in NewIds(info);
    }
  }

  lemma OrderLists(s: State)
    requires Check(s)
    ensures Lists(s.info, Order(s), s.nNew)
    ensures |NewSeq(s.info, s.idCount)| == s.nNew && |TriedSeq(s.info, s.idCount)| == s.nTried
  {
    hide AddrOk, RandomOk, TriedOk, NewOk, TimesOk, NewSeq, TriedSeq, NewIds, TriedIds;
    CheckSorts(s);
    OrderSizes(s.info, s.idCount);
    assert NewIds(s.info) - {} == NewIds(s.info);
    NewSeqIn(s.info, s.idCount);
    TriedSeqFacts(s.info, s.idCount);
    forall id | id in s.info ensures id in Order(s) {
      OrderCovers(s.info, s.idCount, id);
    }
  }

  /** The first k entries have been read back under their new ids. */
  ghost predicate InfoStage(s: State, t: State, order: seq<Id>, k: int) {
    && t.key == s.key && 0 <= k <= |order| && |t.random| == k
    && (forall id :: id in t.info <==> id.n < k)
    && (forall i :: 0 <= i < k ==> order[i] in s.info)
    && (forall i :: 0 <= i < k ==> t.random[i] == Id(i))
    && (forall i :: 0 <= i < k ==> t.info[Id(i)] == Load(Store(s.info[order[i]]), s.info[order[i]].inTried, i))
  }

  /** The address map knows the first k entries ... */
  ghost predicate AddrKnows(s: State, t: State, order: seq<Id>, k: int)
    requires 0 <= k <= |order|
  {
    forall i :: 0 <= i < k ==>
      order[i] in s.info && s.info[order[i]].service.ip in t.addr && t.addr[s.info[order[i]].service.ip] == Id(i)
  }

  /** ... and nothing else. */
  ghost predicate AddrOnly(s: State, t: State, order: seq<Id>, k: int)
    requires 0 <= k <= |order|
  {
    forall ip :: ip in t.addr ==> t.addr[ip].n < k && ip in s.addr && s.addr[ip] == order[t.addr[ip].n]
  }

  ghost predicate TriedKnows(s: State, t: State, order: seq<Id>, k: int)
    requires 0 <= k <= |order|
  {
    forall i :: 0 <= i < k && order[i] in s.info && s.info[order[i]].inTried ==>
      TriedSlot(s.key, s.info[order[i]].service) in t.tried && t.tried[TriedSlot(s.key, s.info[order[i]].service)] == Id(i)
  }

  ghost predicate TriedOnly(s: State, t: State, order: seq<Id>, k: int)
    requires 0 <= k <= |order|
  {
    forall slot :: slot in t.tried ==> t.tried[slot].n < k && slot in s.tried && s.tried[slot] == order[t.tried[slot].n]
  }

  ghost predicate Stage(s: State, t: State, order: seq<Id>, k: int) {
    && InfoStage(s, t, order, k)
    && AddrKnows(s, t, order, k) && AddrOnly(s, t, order, k)
    && TriedKnows(s, t, order, k) && TriedOnly(s, t, order, k)
  }

  lemma StageNew(s: State, t: State, order: seq<Id>, n: int, k: int)
    requires AddrOk(s) && Lists(s.info, order, n) && 0 <= k < n && Stage(s, t, order, k)
    ensures Stage(s, LoadNew(t, Store(s.info[order[k]]), true), order, k + 1)
  {
    hide AddrOk, AddrKnows, AddrOnly, TriedKnows, TriedOnly, NewSlot;
    var u := LoadNew(t, Store(s.info[order[k]]), true);
    InfoStep(s, t, u, order, n, k);
    AddrStep(s, t, u, order, n, k);
    TriedSkip(s, t, u, order, n, k);
  }

  lemma InfoStep(s: State, t: State, u: State, order: seq<Id>, n: int, k: int)
    requires Lists(s.info, order, n) && 0 <= k < |order| && InfoStage(s, t, order, k) && u.key == t.key
    requires u.info == t.info[Id(k) := Load(Store(s.info[order[k]]), s.info[order[k]].inTried, k)] && u.random == t.random + [Id(k)]
    ensures InfoStage(s, u, order, k + 1)
  {
  }

  lemma TriedSkip(s: State, t: State, u: State, order: seq<Id>, n: int, k: int)
    requires Lists(s.info, order, n) && 0 <= k < n && TriedKnows(s, t, order, k) && TriedOnly(s, t, order, k) && u.tried == t.tried
    ensures TriedKnows(s, u, order, k + 1) && TriedOnly(s, u, order, k + 1)
  {
    assert TriedKnows(s, u, order, k + 1) by { hide TriedOnly; }
  }

  lemma AddrStep(s: State, t: State, u: State, order: seq<Id>, n: int, k: int)
    requires AddrOk(s) && Lists(s.info, order, n) && 0 <= k < |order| && AddrKnows(s, t, order, k) && AddrOnly(s, t, order, k)
    requires u.addr == t.addr[s.info[order[k]].service.ip := Id(k)]
    ensures AddrKnows(s, u, order, k + 1) && AddrOnly(s, u, order, k + 1)
  {
    hide AddrKnows, AddrOnly;
    IpFree(s, t, order, n, k);
    AddrStepKnows(s, t, u, order, n, k);
    AddrStepOnly(s, t, u, order, n, k);
  }

  lemma IpFree(s: State, t: State, order: seq<Id>, n: int, k: int)
    requires AddrOk(s) && Lists(s.info, order, n) && 0 <= k < |order| && AddrOnly(s, t, order, k)
    ensures order[k] in s.info
    ensures var ip := s.info[order[k]].service.ip; ip !in t.addr && ip in s.addr && s.addr[ip] == order[k]
  {
  }

  lemma AddrStepKnows(s: State, t: State, u: State, order: seq<Id>, n: int, k: int)
    requires Lists(s.info, order, n) && 0 <= k < |order| && AddrKnows(s, t, order, k)
    requires s.info[order[k]].service.ip !in t.addr && u.addr == t.addr[s.info[order[k]].service.ip := Id(k)]
    ensures AddrKnows(s, u, order, k + 1)
  {
  }

  lemma AddrStepOnly(s: State, t: State, u: State, order: seq<Id>, n: int, k: int)
    requires AddrOk(s) && Lists(s.info, order, n) && 0 <= k < |order| && AddrOnly(s, t, order, k)
    requires u.addr == t.addr[s.info[order[k]].service.ip := Id(k)]
    ensures AddrOnly(s, u, order, k + 1)
  {
    assert s.addr[s.info[order[k]].service.ip] == order[k];
    hide AddrOk, Lists;
  }

  lemma StageTried(s: State, t: State, order: seq<Id>, n: int, k: int)
    requires AddrOk(s) && TriedOk(s) && Lists(s.info, order, n) && n <= k < |order| && Stage(s, t, order, k) && t.idCount == k
    ensures TriedSlot(t.key, s.info[order[k]].service) !in t.tried
    ensures var u := LoadTried(t, Store(s.info[order[k]]));
      Stage(s, u, order, k + 1) && u.idCount == k + 1 && u.nTried == t.nTried && u.nNew == t.nNew && u.new_ == t.new_
  {
    hide AddrOk, TriedOk, AddrKnows, AddrOnly, TriedKnows, TriedOnly;
    SlotFree(s, t, order, n, k);
    var u := LoadTried(t, Store(s.info[order[k]]));
    InfoStep(s, t, u, order, n, k);
    AddrStep(s, t, u, order, n, k);
    TriedStepKnows(s, t, u, order, n, k);
    TriedStepOnly(s, t, u, order, n, k);
  }

  lemma SlotFree(s: State, t: State, order: seq<Id>, n: int, k: int)
    requires TriedOk(s) && Lists(s.info, order, n) && n <= k < |order| && TriedOnly(s, t, order, k)
    ensures order[k] in s.info
    ensures var slot := TriedSlot(s.key, s.info[order[k]].service);
      slot !in t.tried && slot in s.tried && s.tried[slot] == order[k]
  {
  }

  lemma TriedStepKnows(s: State, t: State, u: State, order: seq<Id>, n: int, k: int)
    requires Lists(s.info, order, n) && n <= k < |order| && TriedKnows(s, t, order, k)
    requires TriedSlot(s.key, s.info[order[k]].service) !in t.tried
    requires u.tried == t.tried[TriedSlot(s.key, s.info[order[k]].service) := Id(k)]
    ensures TriedKnows(s, u, order, k + 1)
  {
    hide TriedSlot;
  }

  lemma TriedStepOnly(s: State, t: State, u: State, order: seq<Id>, n: int, k: int)
    requires TriedOk(s) && Lists(s.info, order, n) && n <= k < |order| && TriedOnly(s, t, order, k)
    requires u.tried == t.tried[TriedSlot(s.key, s.info[order[k]].service) := Id(k)]
    ensures TriedOnly(s, u, order, k + 1)
  {
    SlotFree(s, t, order, n, k);
    hide TriedOk, Lists, TriedSlot;
  }

  lemma {:induction false} LoadNewsStage(s: State, order: seq<Id>, n: int, infos: seq<Stored>, t: State, k: nat)
    requires AddrOk(s) && Lists(s.info, order, n) && k <= n == |infos| && Stage(s, t, order, 0)
    requires forall i :: 0 <= i < n ==> infos[i] == Store(s.info[order[i]])
    ensures var u := LoadNews(t, infos, k, true);
      Stage(s, u, order, k) && u.new_ == t.new_ && u.nNew == t.nNew && u.nTried == t.nTried
  {
    hide AddrOk, Stage;
    if k > 0 {
      LoadNewsStage(s, order, n, infos, t, k - 1);
      StageNew(s, LoadNews(t, infos, k - 1, true), order, n, k - 1);
    }
  }

  lemma {:induction false} LoadTriedsStage(s: State, order: seq<Id>, n: int, infos: seq<Stored>, t: State, k: nat)
    requires AddrOk(s) && TriedOk(s) && Lists(s.info, order, n) && k <= |infos| == |order| - n && Stage(s, t, order, n) && t.idCount == n
    requires forall i :: 0 <= i < |infos| ==> infos[i] == Store(s.info[order[n + i]])
    ensures var u := LoadTrieds(t, infos, k);
      Stage(s, u, order, n + k) && u.idCount == n + k && u.new_ == t.new_ && u.nNew == t.nNew && u.nTried == t.nTried
  {
    hide AddrOk, TriedOk, Stage;
    if k > 0 {
      LoadTriedsStage(s, order, n, infos, t, k - 1);
      StageTried(s, LoadTrieds(t, infos, k - 1), order, n, n + k - 1);
    }
  }

  // The new table.

  predicate Before(slot: Slot, b: int, i: int) {
    slot.bucket < b || (slot.bucket == b && slot.pos < i)
  }

  /** The slots of an entry that come before a point. */
  function RefsBefore(table: Table, id: Id, b: int, i: int): (r: set<Slot>) {
    set slot | slot in table && table[slot] == id && Before(slot, b, i)
  }

  ghost predicate SlotsRead(s: State, t: State, order: seq<Id>, n: int, b: int, i: int) {
    && (forall slot :: slot in t.new_ <==> slot in s.new_ && Before(slot, b, i))
    && (forall slot :: slot in t.new_ ==> t.new_[slot].n < n <= |order| && s.new_[slot] == order[t.new_[slot].n])
  }

  ghost predicate CountsRead(s: State, t: State, base: State, order: seq<Id>, b: int, i: int) {
    && t.info.Keys == base.info.Keys
    && forall j :: 0 <= j < |order| && Id(j) in base.info ==>
         t.info[Id(j)] == base.info[Id(j)].(refCount := |RefsBefore(s.new_, order[j], b, i)|)
  }

  /** The table has been read up to a point; base is the state before any reference was read. */
  ghost predicate RefStage(s: State, t: State, base: State, order: seq<Id>, n: int, b: int, i: int) {
    && t == base.(info := t.info, new_ := t.new_)
    && SlotsRead(s, t, order, n, b, i)
    && CountsRead(s, t, base, order, b, i)
  }

  lemma RefsBeforeStep(table: Table, id: Id, b: int, i: int)
    ensures RefsBefore(table, id, b, i + 1) ==
      if Slot(b, i) in table && table[Slot(b, i)] == id then RefsBefore(table, id, b, i) + {Slot(b, i)} else RefsBefore(table, id, b, i)
    ensures Slot(b, i) !in RefsBefore(table, id, b, i)
    ensures RefsBefore(table, id, b, i) <= Refs(table, id)
  {
  }

  /** An entry in the table has room for the reference that is about to be read. */
  lemma RoomForRef(s: State, b: int, i: int)
    requires NewOk(s, {}) && Slot(b, i) in s.new_
    ensures |RefsBefore(s.new_, s.new_[Slot(b, i)], b, i)| < NEW_BUCKETS_PER_ADDRESS
  {
    var id := s.new_[Slot(b, i)];
    RefsBeforeStep(s.new_, id, b, i);
    SubsetSize(RefsBefore(s.new_, id, b, i + 1), Refs(s.new_, id));
    assert RefsBefore(s.new_, id, b, i + 1) <= Refs(s.new_, id);
  }

  /** What is known of the entry whose slot is read next. */
  ghost predicate Next(s: State, base: State, order: seq<Id>, n: int, b: int, i: int, index: int) {
    && Slot(b, i) in s.new_ && 0 <= index < n <= |order| && order[index] == s.new_[Slot(b, i)]
    && order[index] in s.info && Id(index) in base.info && base.info[Id(index)].service == s.info[order[index]].service
    && base.key == s.key && NewSlot(s.key, s.info[order[index]].service, b) == Slot(b, i)
    && |RefsBefore(s.new_, order[index], b, i)| < NEW_BUCKETS_PER_ADDRESS
    && (forall j, k :: 0 <= j < k < |order| ==> order[j] != order[k])
  }

  lemma RefRead(s: State, t: State, base: State, order: seq<Id>, n: int, b: int, i: int, index: int)
    requires RefStage(s, t, base, order, n, b, i) && Next(s, base, order, n, b, i, index)
    ensures RefStage(s, LoadRef(t, b, index, n, true), base, order, n, b, i + 1)
  {
    hide SlotsRead, CountsRead, RefsBefore, LoadRef;
    LoadsRef(s, t, base, order, n, b, i, index);
    var u := LoadRef(t, b, index, n, true);
    SlotReadStep(s, t, u, order, n, b, i, index);
    CountReadStep(s, t, u, base, order, n, b, i, index);
  }

  /** The slot is still free and the entry has room, so the reference is stored. */
  lemma LoadsRef(s: State, t: State, base: State, order: seq<Id>, n: int, b: int, i: int, index: int)
    requires RefStage(s, t, base, order, n, b, i) && Next(s, base, order, n, b, i, index)
    ensures Id(index) in t.info
    ensures LoadRef(t, b, index, n, true) ==
      t.(info := t.info[Id(index) := t.info[Id(index)].(refCount := t.info[Id(index)].refCount + 1)], new_ := t.new_[Slot(b, i) := Id(index)])
  {
    hide RefsBefore;
    assert Slot(b, i) !in t.new_ by { hide CountsRead; }
    hide SlotsRead;
    assert t.info[Id(index)] == base.info[Id(index)].(refCount := |RefsBefore(s.new_, order[index], b, i)|);
  }

  lemma SlotReadStep(s: State, t: State, u: State, order: seq<Id>, n: int, b: int, i: int, index: int)
    requires SlotsRead(s, t, order, n, b, i) && Slot(b, i) in s.new_ && 0 <= index < n <= |order| && order[index] == s.new_[Slot(b, i)]
    requires u.new_ == t.new_[Slot(b, i) := Id(index)]
    ensures SlotsRead(s, u, order, n, b, i + 1)
  {
  }

  lemma CountReadStep(s: State, t: State, u: State, base: State, order: seq<Id>, n: int, b: int, i: int, index: int)
    requires CountsRead(s, t, base, order, b, i) && Next(s, base, order, n, b, i, index) && Id(index) in t.info
    requires u.info == t.info[Id(index) := t.info[Id(index)].(refCount := t.info[Id(index)].refCount + 1)]
    ensures CountsRead(s, u, base, order, b, i + 1)
  {
    hide RefsBefore, NewSlot;
    forall j | 0 <= j < |order| && Id(j) in base.info
      ensures u.info[Id(j)] == base.info[Id(j)].(refCount := |RefsBefore(s.new_, order[j], b, i + 1)|)
    {
      RefsBeforeStep(s.new_, order[j], b, i);
    }
  }

  lemma RefSkipped(s: State, t: State, base: State, order: seq<Id>, n: int, b: int, i: int)
    requires RefStage(s, t, base, order, n, b, i) && Slot(b, i) !in s.new_
    ensures RefStage(s, t, base, order, n, b, i + 1)
  {
    assert SlotsRead(s, t, order, n, b, i + 1) by { hide CountsRead; }
    hide SlotsRead, RefsBefore;
    forall j | 0 <= j < |order| && Id(j) in base.info
      ensures t.info[Id(j)] == base.info[Id(j)].(refCount := |RefsBefore(s.new_, order[j], b, i + 1)|)
    {
      RefsBeforeStep(s.new_, order[j], b, i);
    }
  }

  /** The next bucket starts where this one ends. */
  lemma BucketDone(s: State, t: State, base: State, order: seq<Id>, n: int, b: int)
    requires SlotsOk(s) && RefStage(s, t, base, order, n, b, BUCKET_SIZE)
    ensures RefStage(s, t, base, order, n, b + 1, 0)
  {
    assert forall slot :: slot in s.new_ ==> (Before(slot, b, BUCKET_SIZE) <==> Before(slot, b + 1, 0));
    forall id ensures RefsBefore(s.new_, id, b, BUCKET_SIZE) == RefsBefore(s.new_, id, b + 1, 0) {
    }
    hide RefsBefore, SlotsOk;
    assert SlotsRead(s, t, order, n, b + 1, 0) by { hide CountsRead; }
    assert CountsRead(s, t, base, order, b + 1, 0) by { hide SlotsRead; }
  }

  lemma NextKnown(s: State, base: State, b: int, i: int)
    requires Check(s) && InfoStage(s, base, Order(s), |Order(s)|) && Slot(b, i) in s.new_
    ensures Next(s, base, Order(s), s.nNew, b, i, UnkId(s.info, s.new_[Slot(b, i)]))
  {
    hide AddrOk, RandomOk, TriedOk, CountsOk, TimesOk;
    var id := s.new_[Slot(b, i)];
    RoomForRef(s, b, i);
    CheckSorts(s);
    assert id in s.info && !s.info[id].inTried && NewSlot(s.key, s.info[id].service, b) == Slot(b, i);
    hide SlotsOk, RefsOk;
    OrderLists(s);
    NewSeqRank(s.info, s.idCount, id);
  }

  lemma {:induction false} BucketRead(s: State, t: State, base: State, b: int, i: nat)
    requires Check(s) && InfoStage(s, base, Order(s), |Order(s)|) && RefStage(s, t, base, Order(s), s.nNew, b, 0)
    ensures RefStage(s, LoadBucket(t, b, BucketList(s, b, i), s.nNew, true), base, Order(s), s.nNew, b, i)
  {
    hide Check, InfoStage, RefStage, Order, LoadRef;
    if i > 0 {
      BucketRead(s, t, base, b, i - 1);
      var u := LoadBucket(t, b, BucketList(s, b, i - 1), s.nNew, true);
      if Slot(b, i - 1) in s.new_ {
        NextKnown(s, base, b, i - 1);
        var index := UnkId(s.info, s.new_[Slot(b, i - 1)]);
        RefRead(s, u, base, Order(s), s.nNew, b, i - 1, index);
        assert BucketList(s, b, i)[..|BucketList(s, b, i)| - 1] == BucketList(s, b, i - 1);
      } else {
        RefSkipped(s, u, base, Order(s), s.nNew, b, i - 1);
        assert BucketList(s, b, i) == BucketList(s, b, i - 1);
      }
    }
  }

  lemma {:induction false} BucketsRead(s: State, t: State, lists: seq<seq<int>>, k: nat)
    requires Check(s) && InfoStage(s, t, Order(s), |Order(s)|) && RefStage(s, t, t, Order(s), s.nNew, 0, 0)
    requires k <= |lists| && forall b :: 0 <= b < |lists| ==> lists[b] == BucketList(s, b, BUCKET_SIZE)
    ensures RefStage(s, LoadBuckets(t, lists, k, s.nNew, true), t, Order(s), s.nNew, k, 0)
  {
    hide InfoStage, RefStage, Order, LoadBucket, BucketList, AddrOk, RandomOk, TriedOk, CountsOk, TimesOk, SlotsOk, RefsOk;
    if k > 0 {
      BucketsRead(s, t, lists, k - 1);
      var u := LoadBuckets(t, lists, k - 1, s.nNew, true);
      BucketRead(s, u, t, k - 1, BUCKET_SIZE);
      BucketDone(s, LoadBuckets(t, lists, k, s.nNew, true), t, Order(s), s.nNew, k - 1);
    }
  }

  /** Everything the image keeps, under new ids: nothing else about the manager matters. */
  ghost predicate SameUpToIds(s: State, t: State, order: seq<Id>) {
    && t.key == s.key && t.nNew == s.nNew && t.nTried == s.nTried && t.idCount == |order|
    && SameEntries(s.info, t, order) && SameIps(s.addr, t.addr, order)
    && SameTable(s.new_, t.new_, order) && SameTable(s.tried, t.tried, order)
  }

  /** Entry i of the new manager is entry order[i] of the old one, up to what is not saved. */
  ghost predicate SameEntries(info: map<Id, Info>, t: State, order: seq<Id>) {
    && |t.random| == |order| && (forall id :: id in t.info <==> id.n < |order|)
    && (forall i :: 0 <= i < |order| ==> t.random[i] == Id(i))
    && (forall i :: 0 <= i < |order| ==> order[i] in info && t.info[Id(i)] == info[order[i]].(lastTry := 0, randomPos := i))
  }

  ghost predicate SameIps(a: map<NetAddr, Id>, b: map<NetAddr, Id>, order: seq<Id>) {
    b.Keys == a.Keys && forall ip :: ip in b ==> b[ip].n < |order| && order[b[ip].n] == a[ip]
  }

  ghost predicate SameTable(a: Table, b: Table, order: seq<Id>) {
    b.Keys == a.Keys && forall slot :: slot in b ==> b[slot].n < |order| && order[b[slot].n] == a[slot]
  }

  lemma AddrComplete(s: State, t: State, order: seq<Id>, n: int)
    requires AddrOk(s) && Lists(s.info, order, n) && AddrKnows(s, t, order, |order|) && AddrOnly(s, t, order, |order|)
    ensures t.addr.Keys == s.addr.Keys
  {
    forall ip | ip in s.addr ensures ip in t.addr {
      var id := s.addr[ip];
      assert id in s.info && s.info[id].service.ip == ip;
      var i :| 0 <= i < |order| && order[i] == id;
    }
  }

  lemma TriedComplete(s: State, t: State, order: seq<Id>, n: int)
    requires TriedOk(s) && Lists(s.info, order, n) && TriedKnows(s, t, order, |order|) && TriedOnly(s, t, order, |order|)
    ensures t.tried.Keys == s.tried.Keys
  {
    forall slot | slot in s.tried ensures slot in t.tried {
      var id := s.tried[slot];
      assert id in s.info && s.info[id].inTried && slot == TriedSlot(s.key, s.info[id].service);
      var i :| 0 <= i < |order| && order[i] == id;
    }
  }

  lemma NewComplete(s: State, t: State, base: State, order: seq<Id>, n: int)
    requires SlotsOk(s) && RefStage(s, t, base, order, n, NEW_BUCKET_COUNT, 0)
    ensures t.new_.Keys == s.new_.Keys
    ensures forall id :: RefsBefore(s.new_, id, NEW_BUCKET_COUNT, 0) == Refs(s.new_, id)
  {
    assert forall slot :: slot in s.new_ ==> Before(slot, NEW_BUCKET_COUNT, 0);
    hide SlotsOk;
    assert t.new_.Keys == s.new_.Keys by { hide CountsRead; }
    forall id ensures RefsBefore(s.new_, id, NEW_BUCKET_COUNT, 0) == Refs(s.new_, id) {
    }
  }

  lemma CountsComplete(s: State, t: State, base: State, order: seq<Id>, n: int, i: int)
    requires TriedOk(s) && NewOk(s, {}) && Lists(s.info, order, n) && InfoStage(s, base, order, |order|)
    requires CountsRead(s, t, base, order, NEW_BUCKET_COUNT, 0) && 0 <= i < |order|
    requires RefsBefore(s.new_, order[i], NEW_BUCKET_COUNT, 0) == Refs(s.new_, order[i])
    ensures Id(i) in t.info && t.info[Id(i)] == s.info[order[i]].(lastTry := 0, randomPos := i)
  {
    var id := order[i];
    assert Id(i) in base.info && id in s.info;
    assert |Refs(s.new_, id)| == s.info[id].refCount by {
      if s.info[id].inTried {
        NotReferenced(s, {}, id);
      }
    }
    hide TriedOk, SlotsOk, RefsOk, RefsBefore, Refs;
  }

  /** A state that has been read completely is the saved one, up to ids. */
  lemma ReadIsSame(s: State, t: State, base: State)
    requires Check(s) && Stage(s, base, Order(s), |Order(s)|) && RefStage(s, t, base, Order(s), s.nNew, NEW_BUCKET_COUNT, 0)
    requires base.nNew == s.nNew && base.nTried == s.nTried && base.idCount == |Order(s)|
    ensures SameUpToIds(s, t, Order(s))
  {
    hide AddrOk, RandomOk, TriedOk, CountsOk, TimesOk, SlotsOk, RefsOk, Order, SameEntries, SameIps, SameTable, Lists, CountsRead, SlotsRead;
    OrderLists(s);
    ReadEntries(s, t, base, Order(s));
    ReadIps(s, base, Order(s));
    ReadTriedTable(s, base, Order(s));
    ReadNewTable(s, t, base, Order(s));
  }

  lemma ReadEntries(s: State, t: State, base: State, order: seq<Id>)
    requires TriedOk(s) && NewOk(s, {}) && Lists(s.info, order, s.nNew) && Stage(s, base, order, |order|)
    requires RefStage(s, t, base, order, s.nNew, NEW_BUCKET_COUNT, 0)
    ensures SameEntries(s.info, t, order)
  {
    hide TriedOk, SlotsOk, RefsOk, AddrKnows, AddrOnly, TriedKnows, TriedOnly, Lists, CountsRead, RefsBefore, Refs;
    NewComplete(s, t, base, order, s.nNew);
    forall i | 0 <= i < |order| ensures Id(i) in t.info && t.info[Id(i)] == s.info[order[i]].(lastTry := 0, randomPos := i) {
      CountsComplete(s, t, base, order, s.nNew, i);
    }
    SameKeys(s, t, base, order);
  }

  lemma SameKeys(s: State, t: State, base: State, order: seq<Id>)
    requires Stage(s, base, order, |order|) && RefStage(s, t, base, order, s.nNew, NEW_BUCKET_COUNT, 0)
    ensures |t.random| == |order| && (forall id :: id in t.info <==> id.n < |order|)
    ensures forall i :: 0 <= i < |order| ==> t.random[i] == Id(i) && order[i] in s.info
  {
    hide AddrKnows, AddrOnly, TriedKnows, TriedOnly, SlotsRead, RefsBefore;
  }

  lemma ReadIps(s: State, t: State, order: seq<Id>)
    requires AddrOk(s) && Lists(s.info, order, s.nNew) && Stage(s, t, order, |order|)
    ensures SameIps(s.addr, t.addr, order)
  {
    AddrComplete(s, t, order, s.nNew);
    hide AddrOk, Lists, InfoStage, AddrKnows, TriedKnows, TriedOnly;
  }

  lemma ReadTriedTable(s: State, t: State, order: seq<Id>)
    requires TriedOk(s) && Lists(s.info, order, s.nNew) && Stage(s, t, order, |order|)
    ensures SameTable(s.tried, t.tried, order)
  {
    TriedComplete(s, t, order, s.nNew);
    hide TriedOk, Lists, InfoStage, AddrKnows, AddrOnly, TriedKnows;
  }

  lemma ReadNewTable(s: State, t: State, base: State, order: seq<Id>)
    requires SlotsOk(s) && RefStage(s, t, base, order, s.nNew, NEW_BUCKET_COUNT, 0)
    ensures SameTable(s.new_, t.new_, order)
  {
    NewComplete(s, t, base, order, s.nNew);
    hide SlotsOk, CountsRead, RefsBefore;
  }

  lemma NothingRead(s: State, t: State)
    requires NewOk(s, {}) && InfoStage(s, t, Order(s), |Order(s)|) && t.new_ == map[] && 0 <= s.nNew <= |Order(s)|
    ensures RefStage(s, t, t, Order(s), s.nNew, 0, 0)
  {
    hide Order, RefsOk;
    assert forall slot :: slot in s.new_ ==> !Before(slot, 0, 0);
    hide SlotsOk;
    forall j | 0 <= j < |Order(s)| ensures |RefsBefore(s.new_, Order(s)[j], 0, 0)| == 0 {
      assert RefsBefore(s.new_, Order(s)[j], 0, 0) == {};
    }
  }

  /** What Save puts into the image, in terms of the order. */
  lemma SavedImage(s: State)
    requires Check(s)
    ensures var img := Save(s);
      && Complete(img) && Usable(img) && img.key == s.key && img.nNew == s.nNew && img.nTried == s.nTried
      && s.nNew + s.nTried == |Order(s)| && Lists(s.info, Order(s), s.nNew)
      && (forall i :: 0 <= i < s.nNew ==> img.newInfos[i] == Store(s.info[Order(s)[i]]))
      && (forall i :: 0 <= i < s.nTried ==> img.triedInfos[i] == Store(s.info[Order(s)[s.nNew + i]]))
      && |img.buckets| == NEW_BUCKET_COUNT && (forall b :: 0 <= b < |img.buckets| ==> img.buckets[b] == BucketList(s, b, BUCKET_SIZE))
  {
    hide Check, NewSeq, TriedSeq, BucketList;
    OrderLists(s);
    NewSeqIn(s.info, s.idCount);
    TriedSeqFacts(s.info, s.idCount);
  }

  lemma EntriesStage(s: State)
    requires Check(s)
    ensures Complete(Save(s))
    ensures var t := Entries(Save(s));
      Stage(s, t, Order(s), |Order(s)|) && t.new_ == map[] && t.nNew == s.nNew && t.nTried == s.nTried && t.idCount == |Order(s)|
  {
    hide AddrOk, RandomOk, TriedOk, CountsOk, TimesOk, NewOk, Stage, Save, Order, Lists, Usable;
    SavedImage(s);
    var img := Save(s);
    var order := Order(s);
    var t0 := Empty(img.key).(nNew := img.nNew, nTried := img.nTried);
    StageStart(s, t0, order);
    LoadNewsStage(s, order, s.nNew, img.newInfos, t0, s.nNew);
    var t1 := LoadNews(t0, img.newInfos, s.nNew, true);
    StageIdCount(s, t1, t1.(idCount := s.nNew), order, s.nNew);
    LoadTriedsStage(s, order, s.nNew, img.triedInfos, t1.(idCount := s.nNew), s.nTried);
  }

  /** Unserialize of Serialize loses nothing: same entries, counts, tables and address map, up to ids. */
  lemma RoundTrip(s: State)
    requires Check(s)
    ensures Complete(Save(s)) && SameUpToIds(s, Rebuild(Save(s)), Order(s))
  {
    hide AddrOk, RandomOk, TriedOk, CountsOk, TimesOk, SlotsOk, RefsOk, RefStage, Stage, Save, Entries, Order, LoadBuckets;
    SavedImage(s);
    EntriesStage(s);
    var t := Entries(Save(s));
    StageInfo(s, t, Order(s), |Order(s)|);
    NothingRead(s, t);
    BucketsRead(s, t, Save(s).buckets, NEW_BUCKET_COUNT);
    ReadIsSame(s, Rebuild(Save(s)), t);
  }

  lemma StageStart(s: State, t: State, order: seq<Id>)
    requires t.key == s.key && t.info == map[] && t.addr == map[] && t.tried == map[] && t.random == []
    ensures Stage(s, t, order, 0)
  {
  }

  lemma StageIdCount(s: State, t: State, u: State, order: seq<Id>, k: int)
    requires Stage(s, t, order, k) && u == t.(idCount := u.idCount)
    ensures Stage(s, u, order, k)
  {
  }

  lemma StageInfo(s: State, t: State, order: seq<Id>, k: int)
    requires Stage(s, t, order, k)
    ensures InfoStage(s, t, order, k)
  {
  }

  // The rebuilt manager is consistent, and nothing is left to prune.

  lemma SameAddrOk(s: State, t: State, order: seq<Id>)
    requires AddrOk(s) && SameUpToIds(s, t, order) && Lists(s.info, order, s.nNew)
    ensures AddrOk(t)
  {
    hide SameTable, SameEntries, SameIps, Lists;
    IdsBelow(s, t, order);
    forall id | id in t.info ensures t.info[id].service.ip in t.addr && t.addr[t.info[id].service.ip] == id {
      SameId(s, t, order, id);
    }
    forall ip | ip in t.addr ensures t.addr[ip] in t.info && t.info[t.addr[ip]].service.ip == ip {
      SameIp(s, t, order, ip);
    }
  }

  lemma IdsBelow(s: State, t: State, order: seq<Id>)
    requires SameUpToIds(s, t, order)
    ensures forall id :: id in t.info ==> id.n < t.idCount
  {
  }

  lemma IdAt(s: State, id: Id)
    requires AddrOk(s) && id in s.info
    ensures s.info[id].service.ip in s.addr && s.addr[s.info[id].service.ip] == id
  {
  }

  lemma IpAt(s: State, ip: NetAddr)
    requires AddrOk(s) && ip in s.addr
    ensures s.addr[ip] in s.info && s.info[s.addr[ip]].service.ip == ip
  {
  }

  lemma SameId(s: State, t: State, order: seq<Id>, id: Id)
    requires AddrOk(s) && SameUpToIds(s, t, order) && Lists(s.info, order, s.nNew) && id in t.info
    ensures t.info[id].service.ip in t.addr && t.addr[t.info[id].service.ip] == id
  {
    hide AddrOk, SameTable;
    var i := id.n;
    assert id == Id(i);
    IdAt(s, order[i]);
    var ip := s.info[order[i]].service.ip;
    assert order[t.addr[ip].n] == order[i];
    assert t.addr[ip] == Id(t.addr[ip].n);
  }

  lemma SameIp(s: State, t: State, order: seq<Id>, ip: NetAddr)
    requires AddrOk(s) && SameUpToIds(s, t, order) && ip in t.addr
    ensures t.addr[ip] in t.info && t.info[t.addr[ip]].service.ip == ip
  {
    hide AddrOk, SameTable;
    assert t.addr[ip] == Id(t.addr[ip].n);
    IpAt(s, ip);
  }

  lemma SameTriedOk(s: State, t: State, order: seq<Id>)
    requires TriedOk(s) && SameUpToIds(s, t, order) && Lists(s.info, order, s.nNew)
    ensures TriedOk(t)
  {
    hide SameTable, SameEntries, SameIps, Lists;
    forall slot | slot in t.tried
      ensures t.tried[slot] in t.info && t.info[t.tried[slot]].inTried && slot == TriedSlot(t.key, t.info[t.tried[slot]].service)
    {
      SameTriedSlot(s, t, order, slot);
    }
    forall id | id in t.info && t.info[id].inTried
      ensures TriedSlot(t.key, t.info[id].service) in t.tried && t.tried[TriedSlot(t.key, t.info[id].service)] == id
      ensures t.info[id].refCount == 0 && t.info[id].lastSuccess != 0
    {
      SameTriedId(s, t, order, id);
    }
  }

  lemma TriedAt(s: State, slot: Slot)
    requires TriedOk(s) && slot in s.tried
    ensures s.tried[slot] in s.info && s.info[s.tried[slot]].inTried && slot == TriedSlot(s.key, s.info[s.tried[slot]].service)
  {
  }

  lemma TriedIdAt(s: State, id: Id)
    requires TriedOk(s) && id in s.info && s.info[id].inTried
    ensures TriedSlot(s.key, s.info[id].service) in s.tried && s.tried[TriedSlot(s.key, s.info[id].service)] == id
    ensures s.info[id].refCount == 0 && s.info[id].lastSuccess != 0
  {
  }

  lemma SameTriedSlot(s: State, t: State, order: seq<Id>, slot: Slot)
    requires TriedOk(s) && SameUpToIds(s, t, order) && slot in t.tried
    ensures t.tried[slot] in t.info && t.info[t.tried[slot]].inTried && slot == TriedSlot(t.key, t.info[t.tried[slot]].service)
  {
    hide TriedOk, SameIps, TriedSlot;
    assert t.tried[slot] == Id(t.tried[slot].n);
    TriedAt(s, slot);
  }

  lemma SameTriedId(s: State, t: State, order: seq<Id>, id: Id)
    requires TriedOk(s) && SameUpToIds(s, t, order) && Lists(s.info, order, s.nNew) && id in t.info && t.info[id].inTried
    ensures TriedSlot(t.key, t.info[id].service) in t.tried && t.tried[TriedSlot(t.key, t.info[id].service)] == id
    ensures t.info[id].refCount == 0 && t.info[id].lastSuccess != 0
  {
    hide TriedOk, SameIps, TriedSlot;
    var i := id.n;
    assert id == Id(i);
    TriedIdAt(s, order[i]);
    var slot := TriedSlot(s.key, s.info[order[i]].service);
    assert order[t.tried[slot].n] == order[i];
    assert t.tried[slot] == Id(t.tried[slot].n);
  }

  lemma SameSlotsOk(s: State, t: State, order: seq<Id>)
    requires SlotsOk(s) && SameUpToIds(s, t, order)
    ensures SlotsOk(t)
  {
    hide SameIps;
    forall slot | slot in t.new_
      ensures t.new_[slot] in t.info && !t.info[t.new_[slot]].inTried && 0 <= slot.bucket < NEW_BUCKET_COUNT
      ensures slot == NewSlot(t.key, t.info[t.new_[slot]].service, slot.bucket)
    {
      assert t.new_[slot] == Id(t.new_[slot].n);
      assert !s.info[s.new_[slot]].inTried;
    }
  }

  lemma SameRefs(s: State, t: State, order: seq<Id>, i: int)
    requires SameUpToIds(s, t, order) && Lists(s.info, order, s.nNew) && 0 <= i < |order|
    ensures Refs(t.new_, Id(i)) == Refs(s.new_, order[i])
  {
    hide SameIps;
    forall slot | slot in s.new_ ensures t.new_[slot] == Id(i) <==> s.new_[slot] == order[i] {
      assert t.new_[slot] == Id(t.new_[slot].n);
    }
  }

  lemma SameRefsOk(s: State, t: State, order: seq<Id>)
    requires RefsOk(s.info, s.new_, {}) && SameUpToIds(s, t, order) && Lists(s.info, order, s.nNew)
    ensures RefsOk(t.info, t.new_, {})
  {
    hide Refs;
    forall id | id in t.info && !t.info[id].inTried
      ensures t.info[id].refCount == |Refs(t.new_, id)| && 0 < t.info[id].refCount <= NEW_BUCKETS_PER_ADDRESS
    {
      var i := id.n;
      assert id == Id(i);
      SameRefs(s, t, order, i);
      assert s.info[order[i]].refCount == |Refs(s.new_, order[i])|;
    }
  }

  /** The ids from a up to b. */
  function IdsFrom(a: nat, b: nat): (r: set<Id>)
    ensures forall id :: id in r <==> a <= id.n < b
    ensures a <= b ==> |r| == b - a
    decreases b
  {
    if a >= b then {} else IdsFrom(a, b - 1) + {Id(b - 1)}
  }

  lemma SameFlags(s: State, t: State, order: seq<Id>)
    requires SameUpToIds(s, t, order) && Lists(s.info, order, s.nNew)
    ensures forall id :: id in t.info ==> (t.info[id].inTried <==> id.n >= s.nNew)
    ensures forall id :: id in t.info <==> id.n < |order|
    ensures 0 <= s.nNew <= |order| == |t.random| && t.nNew == s.nNew && t.nTried == s.nTried
  {
    hide SameIps, SameTable;
    forall id | id in t.info ensures t.info[id].inTried <==> id.n >= s.nNew {
      assert id == Id(id.n);
    }
  }

  lemma SameCountsOk(s: State, t: State, order: seq<Id>)
    requires SameUpToIds(s, t, order) && Lists(s.info, order, s.nNew) && s.nTried == |order| - s.nNew
    ensures CountsOk(t, {})
  {
    hide NewIds, TriedIds, SameUpToIds, Lists;
    SameFlags(s, t, order);
    FlagsSplit(t.info, s.nNew, |order|);
    assert NewIds(t.info) - {} == NewIds(t.info);
  }

  lemma FlagsSplit(info: map<Id, Info>, n: nat, m: nat)
    requires n <= m && (forall id :: id in info <==> id.n < m) && (forall id :: id in info ==> (info[id].inTried <==> id.n >= n))
    ensures NewIds(info) == IdsFrom(0, n) && TriedIds(info) == IdsFrom(n, m)
  {
  }

  lemma SameRandomOk(s: State, t: State, order: seq<Id>)
    requires SameUpToIds(s, t, order) && TimesOk(s)
    ensures RandomOk(t) && TimesOk(t)
  {
    hide SameIps, SameTable;
    forall id | id in t.info
      ensures 0 <= t.info[id].randomPos < |t.random| && t.random[t.info[id].randomPos] == id
      ensures t.info[id].lastTry >= 0 && t.info[id].lastSuccess >= 0
    {
      assert id == Id(id.n);
    }
  }

  /** The rebuilt manager passes Check_, so the pruning loop at the end deletes nothing. */
  lemma RebuiltChecks(s: State)
    requires Check(s)
    ensures Complete(Save(s)) && Check(Rebuild(Save(s)))
  {
    hide AddrOk, RandomOk, TriedOk, TimesOk, SlotsOk, RefsOk, SameUpToIds, Lists, Rebuild, CountsOk, Save, NewSeq, TriedSeq;
    RoundTrip(s);
    OrderLists(s);
    var t := Rebuild(Save(s));
    SameAddrOk(s, t, Order(s));
    SameTriedOk(s, t, Order(s));
    SameSlotsOk(s, t, Order(s));
    SameRefsOk(s, t, Order(s));
    SameCountsOk(s, t, Order(s));
    SameRandomOk(s, t, Order(s));
  }
}
