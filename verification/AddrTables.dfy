/**
  The address manager's five linked indexes as one value, the consistency that
  CAddrMan::Check_ tests, and the elementary changes every operation is made of
  (src/addrman.cpp, src/addrman.h).
*/
module AddrTables {
  const TRIED_BUCKET_COUNT: int := 256
  const NEW_BUCKET_COUNT: int := 1024
  const BUCKET_SIZE: int := 64
  const NEW_BUCKETS_PER_ADDRESS: int := 8

  /** A network address without port. */
  datatype NetAddr = NetAddr(code: nat)

  /** An address with port (CService). */
  datatype Service = Service(ip: NetAddr, port: nat)

  /** What a peer announces (CAddress). */
  datatype Address = Address(service: Service, services: set<nat>, time: int, routable: bool)

  /** The bucket hashes that a secret key selects. */
  datatype Key = Key(
    triedHash: Service -> nat,
    newHash: (Service, NetAddr) -> nat,
    positionHash: (bool, int, Service) -> nat)

  datatype Slot = Slot(bucket: int, pos: int)

  /** Ids are given out in increasing order. */
  datatype Id = Id(n: nat)

  /** One entry of mapInfo (CAddrInfo). */
  datatype Info = Info(
    service: Service, services: set<nat>, time: int, source: NetAddr,
    lastSuccess: int, lastTry: int, attempts: int,
    refCount: int, inTried: bool, randomPos: int)

  type Table = map<Slot, Id>

  datatype State = State(
    key: Key, idCount: nat, info: map<Id, Info>, addr: map<NetAddr, Id>, random: seq<Id>,
    nTried: int, tried: Table, nNew: int, new_: Table)

  function TriedSlot(k: Key, sv: Service): (r: Slot) {
    var b := k.triedHash(sv) % TRIED_BUCKET_COUNT;
    Slot(b, k.positionHash(false, b, sv) % BUCKET_SIZE)
  }

  function NewBucket(k: Key, sv: Service, source: NetAddr): (r: int) {
    k.newHash(sv, source) % NEW_BUCKET_COUNT
  }

  /** Where an address would sit in a given new bucket. */
  function NewSlot(k: Key, sv: Service, b: int): (r: Slot) {
    Slot(b, k.positionHash(true, b, sv) % BUCKET_SIZE)
  }

  // -------------------------------------------------------------- consistency

  /** mapInfo and mapAddr are inverse, and ids are below the counter. */
  ghost predicate AddrOk(s: State) {
    && (forall id :: id in s.info ==> id.n < s.idCount)
    && (forall id :: id in s.info ==> s.info[id].service.ip in s.addr && s.addr[s.info[id].service.ip] == id)
    && (forall ip :: ip in s.addr ==> s.addr[ip] in s.info && s.info[s.addr[ip]].service.ip == ip)
  }

  /** vRandom and nRandomPos are inverse. */
  ghost predicate RandomOk(s: State) {
    && (forall id :: id in s.info ==> 0 <= s.info[id].randomPos < |s.random| && s.random[s.info[id].randomPos] == id)
    && (forall i :: 0 <= i < |s.random| ==> s.random[i] in s.info && s.info[s.random[i]].randomPos == i)
  }

  /** Tried entries sit exactly in their computed slots. */
  ghost predicate TriedOk(s: State) {
    && (forall slot :: slot in s.tried ==>
          && s.tried[slot] in s.info && s.info[s.tried[slot]].inTried
          && slot == TriedSlot(s.key, s.info[s.tried[slot]].service))
    && (forall id :: id in s.info && s.info[id].inTried ==>
          && TriedSlot(s.key, s.info[id].service) in s.tried && s.tried[TriedSlot(s.key, s.info[id].service)] == id
          && s.info[id].refCount == 0 && s.info[id].lastSuccess != 0)
  }

  /** The new slots that hold an entry. */
  function Refs(table: Table, id: Id): (r: set<Slot>) {
    set slot | slot in table && table[slot] == id
  }

  /** Every occupied new slot is the computed slot of its entry in that bucket. */
  ghost predicate SlotsOk(s: State) {
    forall slot :: slot in s.new_ ==>
      && s.new_[slot] in s.info && !s.info[s.new_[slot]].inTried && 0 <= slot.bucket < NEW_BUCKET_COUNT
      && slot == NewSlot(s.key, s.info[s.new_[slot]].service, slot.bucket)
  }

  /** Reference counts are bucket occurrences; only the listed entries may have none. */
  ghost predicate RefsOk(info: map<Id, Info>, table: Table, limbo: set<Id>) {
    forall id :: id in info && !info[id].inTried ==>
      && info[id].refCount == |Refs(table, id)|
      && info[id].refCount <= NEW_BUCKETS_PER_ADDRESS
      && (info[id].refCount == 0 <==> id in limbo)
  }

  ghost predicate NewOk(s: State, limbo: set<Id>) {
    SlotsOk(s) && RefsOk(s.info, s.new_, limbo)
  }

  function TriedIds(info: map<Id, Info>): (r: set<Id>) { set id | id in info && info[id].inTried }

  function NewIds(info: map<Id, Info>): (r: set<Id>) { set id | id in info && !info[id].inTried }

  ghost predicate CountsOk(s: State, limbo: set<Id>) {
    && limbo <= NewIds(s.info)
    && s.nTried == |TriedIds(s.info)|
    && s.nNew == |NewIds(s.info) - limbo|
    && |s.random| == s.nTried + s.nNew + |limbo|
  }

  ghost predicate TimesOk(s: State) {
    forall id :: id in s.info ==> s.info[id].lastTry >= 0 && s.info[id].lastSuccess >= 0
  }

  /** Consistent, except that the entries in limbo are in neither table and not counted. */
  ghost predicate Consistent(s: State, limbo: set<Id>) {
    AddrOk(s) && RandomOk(s) && TriedOk(s) && NewOk(s, limbo) && CountsOk(s, limbo) && TimesOk(s)
  }

  /** Everything CAddrMan::Check_ tests. */
  ghost predicate Check(s: State) { Consistent(s, {}) }

  function Empty(key: Key): (r: State) {
    State(key, 0, map[], map[], [], 0, map[], 0, map[])
  }

  lemma EmptyChecks(key: Key)
    ensures Check(Empty(key))
  {
  }

  // ------------------------------------------------------- elementary changes

  function SetPos(info: map<Id, Info>, id: Id, pos: int): (r: map<Id, Info>)
    requires id in info
  {
    info[id := info[id].(randomPos := pos)]
  }

  function SwapRandom(s: State, i: int, j: int): (r: State)
    requires 0 <= i < |s.random| && 0 <= j < |s.random| && s.random[i] in s.info && s.random[j] in s.info
  {
    if i == j then s
    else
      var a, b := s.random[i], s.random[j];
      s.(info := SetPos(SetPos(s.info, a, j), b, i), random := s.random[i := b][j := a])
  }

  /** Same entries as far as tables, counts and addresses are concerned. */
  ghost predicate SameEntries(a: map<Id, Info>, b: map<Id, Info>) {
    && a.Keys == b.Keys
    && forall id :: id in a ==>
         && b[id].service == a[id].service && b[id].inTried == a[id].inTried && b[id].refCount == a[id].refCount
         && (b[id].lastSuccess == a[id].lastSuccess || b[id].lastSuccess != 0)
  }

  lemma TriedKept(s: State, t: State)
    requires TriedOk(s) && SameEntries(s.info, t.info) && t.key == s.key && t.tried == s.tried
    ensures TriedOk(t)
  {
  }

  lemma NewKept(s: State, t: State, limbo: set<Id>)
    requires NewOk(s, limbo) && SameEntries(s.info, t.info) && t.key == s.key && t.new_ == s.new_
    ensures NewOk(t, limbo)
  {
  }

  lemma CountsKept(s: State, t: State, limbo: set<Id>)
    requires CountsOk(s, limbo) && SameEntries(s.info, t.info)
    requires t.nTried == s.nTried && t.nNew == s.nNew && |t.random| == |s.random|
    ensures CountsOk(t, limbo)
  {
    assert TriedIds(t.info) == TriedIds(s.info) && NewIds(t.info) == NewIds(s.info);
  }

  lemma AddrKept(s: State, t: State)
    requires AddrOk(s) && SameEntries(s.info, t.info) && t.idCount == s.idCount && t.addr == s.addr
    ensures AddrOk(t)
  {
  }

  /** Changing statistics only. */
  lemma StatsKeep(s: State, t: State, limbo: set<Id>)
    requires Consistent(s, limbo) && SameEntries(s.info, t.info) && t == s.(info := t.info)
    requires RandomOk(t) && TimesOk(t)
    ensures Consistent(t, limbo)
  {
    hide AddrOk, RandomOk, TriedOk, NewOk, CountsOk, TimesOk, SameEntries;
    AddrKept(s, t);
    TriedKept(s, t);
    NewKept(s, t, limbo);
    CountsKept(s, t, limbo);
  }

  lemma RandomInInfo(s: State, i: int)
    requires RandomOk(s) && 0 <= i < |s.random|
    ensures s.random[i] in s.info
  {
  }

  lemma SwapKeeps(s: State, limbo: set<Id>, i: int, j: int)
    requires Consistent(s, limbo) && 0 <= i < |s.random| && 0 <= j < |s.random|
    ensures s.random[i] in s.info && s.random[j] in s.info
    ensures Consistent(SwapRandom(s, i, j), limbo) && MovedOnly(s.info, SwapRandom(s, i, j).info)
  {
    hide AddrOk, RandomOk, TriedOk, NewOk, CountsOk, TimesOk, MovedOnly, SameEntries, SetPos;
    RandomInInfo(s, i);
    RandomInInfo(s, j);
    var t := SwapRandom(s, i, j);
    SwapRandomOk(s, i, j);
    SwapMoves(s, i, j);
    MovedSame(s.info, t.info);
    MovedTimes(s, t);
    AddrKept(s, t);
    TriedKept(s, t);
    NewKept(s, t, limbo);
    CountsKept(s, t, limbo);
  }

  lemma SwapRandomOk(s: State, i: int, j: int)
    requires RandomOk(s) && 0 <= i < |s.random| && 0 <= j < |s.random|
    ensures RandomOk(SwapRandom(s, i, j))
  {
    if i != j {
      var t := SwapRandom(s, i, j);
      var a, b := s.random[i], s.random[j];
      assert s.info[a].randomPos == i && s.info[b].randomPos == j;
      forall id | id in t.info
        ensures 0 <= t.info[id].randomPos < |t.random| && t.random[t.info[id].randomPos] == id
      {
        if id != a && id != b {
          assert t.info[id] == s.info[id];
          assert s.random[s.info[id].randomPos] == id;
        }
      }
      forall k | 0 <= k < |t.random| ensures t.random[k] in t.info && t.info[t.random[k]].randomPos == k {
        if k != i && k != j {
          assert t.random[k] == s.random[k];
          assert s.info[s.random[k]].randomPos == k;
        }
      }
    }
  }

  /** Equal but for the position in vRandom. */
  ghost predicate MovedOnly(a: map<Id, Info>, b: map<Id, Info>) {
    a.Keys == b.Keys && forall id :: id in a ==> b[id] == a[id].(randomPos := b[id].randomPos)
  }

  lemma SetPosMoves(info: map<Id, Info>, id: Id, pos: int)
    requires id in info
    ensures MovedOnly(info, SetPos(info, id, pos))
  {
  }

  lemma MovedSame(a: map<Id, Info>, b: map<Id, Info>)
    requires MovedOnly(a, b)
    ensures SameEntries(a, b)
  {
  }

  lemma MovedTimes(s: State, t: State)
    requires MovedOnly(s.info, t.info) && TimesOk(s)
    ensures TimesOk(t)
  {
  }

  lemma SwapMoves(s: State, i: int, j: int)
    requires 0 <= i < |s.random| && 0 <= j < |s.random| && s.random[i] in s.info && s.random[j] in s.info
    ensures MovedOnly(s.info, SwapRandom(s, i, j).info)
  {
    if i != j {
      SetPosMoves(s.info, s.random[i], j);
      SetPosMoves(SetPos(s.info, s.random[i], j), s.random[j], i);
    }
  }

  /** Create: a new entry, not yet in any table and not yet counted. */
  function Create(s: State, a: Address, source: NetAddr): (r: State) {
    var info := Info(a.service, a.services, a.time, source, 0, 0, 0, 0, false, |s.random|);
    var id := Id(s.idCount);
    s.(idCount := s.idCount + 1, info := s.info[id := info], addr := s.addr[a.service.ip := id], random := s.random + [id])
  }

  lemma CreateKeeps(s: State, limbo: set<Id>, a: Address, source: NetAddr)
    requires Consistent(s, limbo) && a.service.ip !in s.addr
    ensures Id(s.idCount) !in s.info && Consistent(Create(s, a, source), limbo + {Id(s.idCount)})
  {
    hide RandomOk, TriedOk, NewOk, CountsOk;
    assert Id(s.idCount) !in s.info;
    CreateAddrOk(s, a, source);
    CreateRandomOk(s, a, source);
    CreateTablesOk(s, limbo, a, source);
    CreateCountsOk(s, limbo, a, source);
  }

  lemma CreateAddrOk(s: State, a: Address, source: NetAddr)
    requires AddrOk(s) && a.service.ip !in s.addr
    ensures AddrOk(Create(s, a, source))
  {
    assert Id(s.idCount) !in s.info;
  }

  lemma CreateRandomOk(s: State, a: Address, source: NetAddr)
    requires RandomOk(s) && Id(s.idCount) !in s.info
    ensures RandomOk(Create(s, a, source))
  {
    var t := Create(s, a, source);
    forall id | id in t.info ensures 0 <= t.info[id].randomPos < |t.random| && t.random[t.info[id].randomPos] == id {
      if id != Id(s.idCount) {
        assert t.info[id] == s.info[id];
      }
    }
  }

  lemma CreateCountsOk(s: State, limbo: set<Id>, a: Address, source: NetAddr)
    requires CountsOk(s, limbo) && Id(s.idCount) !in s.info
    ensures CountsOk(Create(s, a, source), limbo + {Id(s.idCount)})
  {
    var t := Create(s, a, source);
    assert TriedIds(t.info) == TriedIds(s.info) && NewIds(t.info) == NewIds(s.info) + {Id(s.idCount)};
    assert NewIds(t.info) - (limbo + {Id(s.idCount)}) == NewIds(s.info) - limbo;
  }

  lemma CreateTablesOk(s: State, limbo: set<Id>, a: Address, source: NetAddr)
    requires TriedOk(s) && NewOk(s, limbo) && Id(s.idCount) !in s.info
    ensures TriedOk(Create(s, a, source)) && NewOk(Create(s, a, source), limbo + {Id(s.idCount)})
  {
    var t := Create(s, a, source);
    assert Refs(t.new_, Id(s.idCount)) == {};
  }

  /** Only reference counts, tried flags, tables and counters may differ. */
  ghost predicate SameRest(s: State, t: State) {
    && t.key == s.key && t.idCount == s.idCount && t.addr == s.addr && t.random == s.random && t.info.Keys == s.info.Keys
    && forall id :: id in s.info ==> t.info[id] == s.info[id].(refCount := t.info[id].refCount, inTried := t.info[id].inTried)
  }

  lemma RestKept(s: State, t: State)
    requires SameRest(s, t) && AddrOk(s) && RandomOk(s) && TimesOk(s)
    ensures AddrOk(t) && RandomOk(t) && TimesOk(t)
  {
    assert AddrOk(t) by { hide RandomOk, TimesOk; }
    assert RandomOk(t) by { hide AddrOk, TimesOk; }
  }

  /** Change one entry's count or flag. */
  function Mark(s: State, id: Id, refCount: int, inTried: bool): (r: State)
    requires id in s.info
    ensures r == s.(info := r.info) && SameRest(s, r)
    ensures r.info[id].refCount == refCount && r.info[id].inTried == inTried
    ensures forall k :: k in s.info && k != id ==> r.info[k] == s.info[k]
  {
    s.(info := s.info[id := s.info[id].(refCount := refCount, inTried := inTried)])
  }

  lemma RefsCleared(table: Table, slot: Slot, id: Id)
    requires slot in table
    ensures Refs(table - {slot}, id) == if table[slot] == id then Refs(table, id) - {slot} else Refs(table, id)
  {
  }

  lemma RefsSet(table: Table, slot: Slot, owner: Id, id: Id)
    requires slot !in table
    ensures slot !in Refs(table, id)
    ensures Refs(table[slot := owner], id) == if owner == id then Refs(table, id) + {slot} else Refs(table, id)
  {
  }

  /** Empty one new slot; the entry that was there loses a reference. */
  function ClearSlot(s: State, slot: Slot): (r: State)
    requires slot in s.new_ && s.new_[slot] in s.info
  {
    var id := s.new_[slot];
    Mark(s, id, s.info[id].refCount - 1, s.info[id].inTried).(new_ := s.new_ - {slot})
  }

  lemma ClearSlotSlots(s: State, slot: Slot)
    requires SlotsOk(s) && slot in s.new_
    ensures SlotsOk(ClearSlot(s, slot))
  {
    hide Mark;
  }

  lemma ClearSlotRefs(s: State, limbo: set<Id>, slot: Slot)
    requires RefsOk(s.info, s.new_, limbo) && slot in s.new_ && s.new_[slot] in s.info && !s.info[s.new_[slot]].inTried
    ensures var id := s.new_[slot];
      RefsOk(ClearSlot(s, slot).info, ClearSlot(s, slot).new_, if s.info[id].refCount == 1 then limbo + {id} else limbo)
  {
    var id := s.new_[slot];
    assert slot in Refs(s.new_, id);
    var t := ClearSlot(s, slot);
    hide Mark, Refs;
    forall k | k in t.info && !t.info[k].inTried ensures t.info[k].refCount == |Refs(t.new_, k)| {
      RefsCleared(s.new_, slot, k);
    }
  }

  lemma ClearSlotNew(s: State, limbo: set<Id>, slot: Slot)
    requires NewOk(s, limbo) && slot in s.new_
    ensures var id := s.new_[slot];
      && id in s.info && !s.info[id].inTried && s.info[id].refCount > 0 && id !in limbo
      && NewOk(ClearSlot(s, slot), if s.info[id].refCount == 1 then limbo + {id} else limbo)
  {
    var id := s.new_[slot];
    assert slot in Refs(s.new_, id);
    ClearSlotSlots(s, slot);
    ClearSlotRefs(s, limbo, slot);
    hide SlotsOk, RefsOk, Refs, Mark;
  }

  /** Put an entry into a free new slot. */
  function FillSlot(s: State, id: Id, b: int): (r: State)
    requires id in s.info
  {
    Mark(s, id, s.info[id].refCount + 1, s.info[id].inTried).(new_ := s.new_[NewSlot(s.key, s.info[id].service, b) := id])
  }

  lemma FillSlotNew(s: State, limbo: set<Id>, id: Id, b: int)
    requires NewOk(s, limbo) && id in s.info && !s.info[id].inTried && s.info[id].refCount < NEW_BUCKETS_PER_ADDRESS
    requires 0 <= b < NEW_BUCKET_COUNT && NewSlot(s.key, s.info[id].service, b) !in s.new_
    ensures NewOk(FillSlot(s, id, b), limbo - {id})
  {
    hide SlotsOk, RefsOk, Mark, Refs;
    FillSlotSlots(s, id, b);
    FillSlotRefs(s, limbo, id, b);
  }

  lemma FillSlotSlots(s: State, id: Id, b: int)
    requires SlotsOk(s) && id in s.info && !s.info[id].inTried && 0 <= b < NEW_BUCKET_COUNT
    ensures SlotsOk(FillSlot(s, id, b))
  {
    hide Mark;
  }

  lemma FillSlotRefs(s: State, limbo: set<Id>, id: Id, b: int)
    requires RefsOk(s.info, s.new_, limbo) && id in s.info && !s.info[id].inTried && s.info[id].refCount < NEW_BUCKETS_PER_ADDRESS
    requires NewSlot(s.key, s.info[id].service, b) !in s.new_
    ensures RefsOk(FillSlot(s, id, b).info, FillSlot(s, id, b).new_, limbo - {id})
  {
    hide Mark, Refs;
    var slot := NewSlot(s.key, s.info[id].service, b);
    var t := FillSlot(s, id, b);
    forall k | k in t.info && !t.info[k].inTried
      ensures t.info[k].refCount == |Refs(t.new_, k)| <= NEW_BUCKETS_PER_ADDRESS && (t.info[k].refCount == 0 <==> k in limbo - {id})
    {
      assert s.info[k].refCount == |Refs(s.new_, k)|;
      RefsSet(s.new_, slot, id, k);
    }
  }

  lemma SameFlagsCounts(s: State, t: State)
    requires SameRest(s, t) && forall id :: id in s.info ==> t.info[id].inTried == s.info[id].inTried
    ensures TriedIds(t.info) == TriedIds(s.info) && NewIds(t.info) == NewIds(s.info)
  {
  }

  lemma SameFlagsTried(s: State, t: State)
    requires SameRest(s, t) && t.tried == s.tried && TriedOk(s)
    requires forall id :: id in s.info ==> t.info[id].inTried == s.info[id].inTried && (s.info[id].inTried ==> t.info[id] == s.info[id])
    ensures TriedOk(t)
  {
  }

  /** Emptying a slot leaves everything consistent; an entry that lost its last reference is in limbo. */
  lemma ClearSlotKeeps(s: State, limbo: set<Id>, slot: Slot)
    requires Consistent(s, limbo) && slot in s.new_
    ensures var id := s.new_[slot];
      && id in s.info && !s.info[id].inTried && s.info[id].refCount > 0 && id !in limbo
      && var t := ClearSlot(s, slot);
         if s.info[id].refCount == 1 then Consistent(t.(nNew := s.nNew - 1), limbo + {id}) else Consistent(t, limbo)
  {
    hide AddrOk, RandomOk, TriedOk, NewOk, TimesOk, TriedIds, NewIds, Mark;
    var id := s.new_[slot];
    ClearSlotNew(s, limbo, slot);
    var t := ClearSlot(s, slot);
    RestKept(s, t);
    SameFlagsCounts(s, t);
    SameFlagsTried(s, t);
    var u := t.(nNew := s.nNew - 1);
    if s.info[id].refCount == 1 {
      OnlyCounters(t, u, limbo + {id});
      InNewIds(s.info, id);
      assert NewIds(s.info) - (limbo + {id}) == (NewIds(s.info) - limbo) - {id};
    }
  }

  lemma InNewIds(info: map<Id, Info>, id: Id)
    requires id in info && !info[id].inTried
    ensures id in NewIds(info)
  {
  }

  /** The counters do not enter the table conditions. */
  lemma OnlyCounters(s: State, t: State, limbo: set<Id>)
    requires t == s.(nNew := t.nNew, nTried := t.nTried)
    requires AddrOk(s) && RandomOk(s) && TriedOk(s) && NewOk(s, limbo) && TimesOk(s)
    ensures AddrOk(t) && RandomOk(t) && TriedOk(t) && NewOk(t, limbo) && TimesOk(t)
  {
  }

  /** Filling a slot takes an entry out of limbo. */
  lemma FillSlotKeeps(s: State, limbo: set<Id>, id: Id, b: int)
    requires Consistent(s, limbo) && id in s.info && !s.info[id].inTried && s.info[id].refCount < NEW_BUCKETS_PER_ADDRESS
    requires 0 <= b < NEW_BUCKET_COUNT && NewSlot(s.key, s.info[id].service, b) !in s.new_
    ensures var t := FillSlot(s, id, b);
      Consistent(if id in limbo then t.(nNew := s.nNew + 1) else t, limbo - {id})
  {
    hide AddrOk, RandomOk, TriedOk, NewOk, TimesOk, CountsOk, Mark;
    FillSlotNew(s, limbo, id, b);
    var t := FillSlot(s, id, b);
    RestKept(s, t);
    SameFlagsTried(s, t);
    FillSlotCounts(s, limbo, id, b);
    OnlyCounters(t, if id in limbo then t.(nNew := s.nNew + 1) else t, limbo - {id});
  }

  lemma FillSlotCounts(s: State, limbo: set<Id>, id: Id, b: int)
    requires CountsOk(s, limbo) && id in s.info && !s.info[id].inTried
    ensures var t := FillSlot(s, id, b); CountsOk(if id in limbo then t.(nNew := s.nNew + 1) else t, limbo - {id})
  {
    hide Mark, TriedIds, NewIds;
    SameFlagsCounts(s, FillSlot(s, id, b));
    InNewIds(s.info, id);
    if id in limbo {
      assert NewIds(s.info) - (limbo - {id}) == (NewIds(s.info) - limbo) + {id};
    } else {
      assert limbo - {id} == limbo;
    }
  }

  /** Take an entry out of all new slots at once. */
  function DropRefs(s: State, id: Id): (r: State)
    requires id in s.info
  {
    Mark(s, id, 0, s.info[id].inTried).(new_ := map slot | slot in s.new_ && s.new_[slot] != id :: s.new_[slot])
  }

  lemma RefsDropped(a: Table, b: Table, id: Id, k: Id)
    requires b == map slot | slot in a && a[slot] != id :: a[slot]
    ensures Refs(b, k) == if k == id then {} else Refs(a, k)
  {
  }

  lemma DropRefsNew(s: State, limbo: set<Id>, id: Id)
    requires NewOk(s, limbo) && id in s.info && !s.info[id].inTried
    ensures NewOk(DropRefs(s, id), limbo + {id})
  {
    hide Mark, Refs;
    var t := DropRefs(s, id);
    forall k ensures Refs(t.new_, k) == if k == id then {} else Refs(s.new_, k) {
      RefsDropped(s.new_, t.new_, id, k);
    }
    assert SlotsOk(t) by { hide RefsOk; }
    assert RefsOk(t.info, t.new_, limbo + {id}) by { hide SlotsOk; }
  }

  lemma DropRefsKeeps(s: State, limbo: set<Id>, id: Id)
    requires Consistent(s, limbo) && id in s.info && !s.info[id].inTried && id !in limbo
    ensures Consistent(DropRefs(s, id).(nNew := s.nNew - 1), limbo + {id})
  {
    hide AddrOk, RandomOk, TriedOk, NewOk, TimesOk, CountsOk, Mark;
    DropRefsNew(s, limbo, id);
    var t := DropRefs(s, id);
    RestKept(s, t);
    SameFlagsTried(s, t);
    DropRefsCounts(s, limbo, id);
    OnlyCounters(t, t.(nNew := s.nNew - 1), limbo + {id});
  }

  lemma DropRefsCounts(s: State, limbo: set<Id>, id: Id)
    requires CountsOk(s, limbo) && id in s.info && !s.info[id].inTried && id !in limbo
    ensures CountsOk(DropRefs(s, id).(nNew := s.nNew - 1), limbo + {id})
  {
    hide Mark, TriedIds, NewIds;
    SameFlagsCounts(s, DropRefs(s, id));
    InNewIds(s.info, id);
    assert NewIds(s.info) - (limbo + {id}) == (NewIds(s.info) - limbo) - {id};
  }

  /** Move an entry that is in no table into its tried slot. */
  function ToTried(s: State, id: Id): (r: State)
    requires id in s.info
  {
    Mark(s, id, s.info[id].refCount, true).(tried := s.tried[TriedSlot(s.key, s.info[id].service) := id], nTried := s.nTried + 1)
  }

  lemma ToTriedKeeps(s: State, limbo: set<Id>, id: Id)
    requires Consistent(s, limbo) && id in limbo && s.info[id].lastSuccess != 0
    requires TriedSlot(s.key, s.info[id].service) !in s.tried
    ensures Consistent(ToTried(s, id), limbo - {id})
  {
    var t := ToTried(s, id);
    assert id in s.info && !s.info[id].inTried;
    hide AddrOk, RandomOk, TimesOk, Mark;
    RestKept(s, t);
    ToTriedTables(s, limbo, id);
    ToTriedCounts(s, limbo, id);
  }

  /** An entry in limbo occupies no new slot. */
  lemma NotReferenced(s: State, limbo: set<Id>, id: Id)
    requires NewOk(s, limbo) && id in s.info && (s.info[id].inTried || id in limbo)
    ensures forall slot :: slot in s.new_ ==> s.new_[slot] != id
    ensures Refs(s.new_, id) == {}
  {
    assert forall slot :: slot in Refs(s.new_, id) <==> slot in s.new_ && s.new_[slot] == id;
    if !s.info[id].inTried {
      assert |Refs(s.new_, id)| == 0;
    }
  }

  lemma ZeroCount(s: State, limbo: set<Id>, id: Id)
    requires NewOk(s, limbo) && id in s.info && !s.info[id].inTried && id in limbo
    ensures s.info[id].refCount == 0
  {
  }

  lemma ToTriedTried(s: State, id: Id)
    requires TriedOk(s) && id in s.info && !s.info[id].inTried && s.info[id].lastSuccess != 0 && s.info[id].refCount == 0
    requires TriedSlot(s.key, s.info[id].service) !in s.tried
    ensures TriedOk(ToTried(s, id))
  {
    hide Mark;
  }

  /** Flipping the flag of an unreferenced entry does not disturb the new slots. */
  lemma FlagSlots(s: State, t: State, id: Id)
    requires SlotsOk(s) && SameRest(s, t) && t.new_ == s.new_
    requires forall slot :: slot in s.new_ ==> s.new_[slot] != id
    requires forall k :: k in s.info && k != id ==> t.info[k] == s.info[k]
    ensures SlotsOk(t)
  {
  }

  lemma FlagRefs(s: State, t: State, limbo: set<Id>, limbo': set<Id>, id: Id)
    requires RefsOk(s.info, s.new_, limbo) && SameRest(s, t) && t.new_ == s.new_ && id in s.info
    requires Refs(s.new_, id) == {} && t.info[id].refCount == 0
    requires limbo' - {id} == limbo - {id} && (!t.info[id].inTried ==> id in limbo')
    requires forall k :: k in s.info && k != id ==> t.info[k] == s.info[k]
    ensures RefsOk(t.info, t.new_, limbo')
  {
    forall k | k in t.info && !t.info[k].inTried ensures t.info[k].refCount == 0 <==> k in limbo' {
      if k != id {
        assert k in limbo' <==> k in limbo' - {id};
        assert k in limbo <==> k in limbo - {id};
      }
    }
  }

  lemma ToTriedTables(s: State, limbo: set<Id>, id: Id)
    requires TriedOk(s) && NewOk(s, limbo) && id in s.info && id in limbo && !s.info[id].inTried && s.info[id].lastSuccess != 0
    requires TriedSlot(s.key, s.info[id].service) !in s.tried
    ensures TriedOk(ToTried(s, id)) && NewOk(ToTried(s, id), limbo - {id})
  {
    hide SlotsOk, RefsOk, Mark, Refs, TriedOk;
    NotReferenced(s, limbo, id);
    ZeroCount(s, limbo, id);
    ToTriedTried(s, id);
    FlagSlots(s, ToTried(s, id), id);
    FlagRefs(s, ToTried(s, id), limbo, limbo - {id}, id);
  }

  /** The id sets after one flag changed. */
  lemma FlagSets(a: map<Id, Info>, b: map<Id, Info>, id: Id)
    requires a.Keys == b.Keys && id in a && forall k :: k in a && k != id ==> b[k].inTried == a[k].inTried
    ensures TriedIds(b) == if b[id].inTried then TriedIds(a) + {id} else TriedIds(a) - {id}
    ensures NewIds(b) == if b[id].inTried then NewIds(a) - {id} else NewIds(a) + {id}
    ensures id in TriedIds(a) <==> a[id].inTried
    ensures id in NewIds(a) <==> !a[id].inTried
  {
  }

  lemma ToTriedCounts(s: State, limbo: set<Id>, id: Id)
    requires CountsOk(s, limbo) && id in limbo && id in s.info && !s.info[id].inTried
    ensures CountsOk(ToTried(s, id), limbo - {id})
  {
    hide Mark, TriedIds, NewIds;
    FlagSets(s.info, ToTried(s, id).info, id);
    assert (NewIds(s.info) - {id}) - (limbo - {id}) == NewIds(s.info) - limbo;
  }

  /** Take an entry out of its tried slot. */
  function FromTried(s: State, slot: Slot): (r: State)
    requires slot in s.tried && s.tried[slot] in s.info
  {
    Mark(s, s.tried[slot], s.info[s.tried[slot]].refCount, false).(tried := s.tried - {slot}, nTried := s.nTried - 1)
  }

  lemma FromTriedKeeps(s: State, limbo: set<Id>, slot: Slot)
    requires Consistent(s, limbo) && slot in s.tried
    ensures s.tried[slot] in s.info && s.tried[slot] !in limbo && Consistent(FromTried(s, slot), limbo + {s.tried[slot]})
  {
    assert s.tried[slot] in s.info && s.info[s.tried[slot]].inTried;
    hide AddrOk, RandomOk, TimesOk, Mark;
    var t := FromTried(s, slot);
    RestKept(s, t);
    FromTriedTables(s, limbo, slot);
    FromTriedCounts(s, limbo, slot);
  }

  lemma FromTriedTried(s: State, slot: Slot)
    requires TriedOk(s) && slot in s.tried
    ensures s.tried[slot] in s.info && s.info[s.tried[slot]].inTried && s.info[s.tried[slot]].refCount == 0
    ensures TriedOk(FromTried(s, slot))
  {
    hide Mark;
  }

  lemma FromTriedTables(s: State, limbo: set<Id>, slot: Slot)
    requires TriedOk(s) && NewOk(s, limbo) && slot in s.tried
    ensures TriedOk(FromTried(s, slot)) && NewOk(FromTried(s, slot), limbo + {s.tried[slot]})
  {
    FromTriedTried(s, slot);
    hide SlotsOk, RefsOk, Mark, Refs, TriedOk;
    var id := s.tried[slot];
    NotReferenced(s, limbo, id);
    FlagSlots(s, FromTried(s, slot), id);
    FlagRefs(s, FromTried(s, slot), limbo, limbo + {id}, id);
  }

  lemma FromTriedCounts(s: State, limbo: set<Id>, slot: Slot)
    requires CountsOk(s, limbo) && slot in s.tried && s.tried[slot] in s.info && s.info[s.tried[slot]].inTried
    ensures s.tried[slot] !in limbo && CountsOk(FromTried(s, slot), limbo + {s.tried[slot]})
  {
    hide Mark, TriedIds, NewIds;
    var id := s.tried[slot];
    FlagSets(s.info, FromTried(s, slot).info, id);
    assert (NewIds(s.info) + {id}) - (limbo + {id}) == NewIds(s.info) - limbo;
  }

  /** Remove an entry whose id is last in vRandom. */
  function Remove(s: State, id: Id): (r: State)
    requires id in s.info && |s.random| > 0
  {
    s.(random := s.random[..|s.random| - 1], addr := s.addr - {s.info[id].service.ip}, info := s.info - {id})
  }

  lemma RemoveKeeps(s: State, limbo: set<Id>, id: Id)
    requires Consistent(s, limbo) && id in limbo && |s.random| > 0 && s.random[|s.random| - 1] == id
    ensures id in s.info && Consistent(Remove(s, id), limbo - {id})
  {
    hide AddrOk, RandomOk, TriedOk, NewOk, TimesOk, TriedIds;
    InLimbo(s, limbo, id);
    RemoveAddr(s, id);
    RemoveRandom(s, id);
    RemoveTables(s, limbo, id);
    RemoveCounts(s, limbo, id);
  }

  lemma InLimbo(s: State, limbo: set<Id>, id: Id)
    requires CountsOk(s, limbo) && id in limbo
    ensures id in s.info && !s.info[id].inTried
  {
  }

  lemma RemoveAddr(s: State, id: Id)
    requires AddrOk(s) && TimesOk(s) && id in s.info && |s.random| > 0
    ensures AddrOk(Remove(s, id)) && TimesOk(Remove(s, id))
  {
  }

  lemma RemoveRandom(s: State, id: Id)
    requires RandomOk(s) && id in s.info && |s.random| > 0 && s.random[|s.random| - 1] == id
    ensures RandomOk(Remove(s, id))
  {
    var t := Remove(s, id);
    forall k | k in t.info ensures 0 <= t.info[k].randomPos < |t.random| && t.random[t.info[k].randomPos] == k {
      assert s.random[s.info[k].randomPos] == k;
    }
    forall i | 0 <= i < |t.random| ensures t.random[i] in t.info && t.info[t.random[i]].randomPos == i {
      assert s.info[s.random[i]].randomPos == i;
      assert s.info[s.random[|s.random| - 1]].randomPos == |s.random| - 1;
    }
  }

  lemma RemoveTables(s: State, limbo: set<Id>, id: Id)
    requires TriedOk(s) && NewOk(s, limbo) && id in limbo && id in s.info && !s.info[id].inTried && |s.random| > 0
    ensures TriedOk(Remove(s, id)) && NewOk(Remove(s, id), limbo - {id})
  {
    NotReferenced(s, limbo, id);
    hide Refs;
    var t := Remove(s, id);
    assert TriedOk(t) by { hide SlotsOk, RefsOk; }
    assert SlotsOk(t) by { hide TriedOk, RefsOk; }
    assert RefsOk(t.info, t.new_, limbo - {id}) by { hide TriedOk, SlotsOk; }
  }

  lemma RemoveCounts(s: State, limbo: set<Id>, id: Id)
    requires CountsOk(s, limbo) && id in limbo && id in s.info && !s.info[id].inTried && |s.random| > 0
    ensures CountsOk(Remove(s, id), limbo - {id})
  {
    var t := Remove(s, id);
    assert TriedIds(t.info) == TriedIds(s.info);
    assert NewIds(t.info) == NewIds(s.info) - {id};
    assert NewIds(t.info) - (limbo - {id}) == NewIds(s.info) - limbo;
  }
}
