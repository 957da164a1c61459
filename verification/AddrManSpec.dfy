/**
  The operations of CAddrMan as functions on the tables, and the proof that each
  of them keeps everything Check_ tests.
*/
module AddrManSpec {
  import opened AddrTables
  import opened BitStrings

  const HORIZON_DAYS: int := 30
  const RETRIES: int := 3
  const MAX_FAILURES: int := 10
  const MIN_FAIL_DAYS: int := 7
  const DAY: int := 24 * 60 * 60

  /** CAddrInfo::IsTerrible. */
  predicate IsTerrible(i: Info, now: int) {
    if i.lastTry != 0 && i.lastTry >= now - 60 then false
    else if i.time > now + 10 * 60 then true
    else if i.time == 0 || now - i.time > HORIZON_DAYS * DAY then true
    else if i.lastSuccess == 0 && i.attempts >= RETRIES then true
    else now - i.lastSuccess > MIN_FAIL_DAYS * DAY && i.attempts >= MAX_FAILURES
  }

  // ------------------------------------------------------------------ Delete

  predicate Deletable(s: State, id: Id) {
    && id in s.info && 0 <= s.info[id].randomPos < |s.random|
    && s.random[s.info[id].randomPos] in s.info && s.random[|s.random| - 1] in s.info
  }

  /** CAddrMan::Delete: swap to the end of vRandom, pop, erase, and count down. */
  function Delete(s: State, id: Id): (r: State)
    requires Deletable(s, id)
  {
    Remove(SwapRandom(s, s.info[id].randomPos, |s.random| - 1), id).(nNew := s.nNew - 1)
  }

  lemma DeletableIn(s: State, id: Id)
    requires RandomOk(s) && id in s.info
    ensures Deletable(s, id)
  {
  }

  /** Everything but the erased entry stays, up to the position in vRandom. */
  ghost predicate OnlyErased(s: State, t: State, gone: set<Id>) {
    && t.key == s.key && t.idCount == s.idCount && t.nTried == s.nTried && t.tried == s.tried
    && t.info.Keys == s.info.Keys - gone
    && forall id :: id in t.info ==> t.info[id] == s.info[id].(randomPos := t.info[id].randomPos)
  }

  lemma DeleteKeeps(s: State, limbo: set<Id>, id: Id)
    requires Consistent(s.(nNew := s.nNew - 1), limbo) && id in limbo
    ensures Deletable(s, id)
    ensures Consistent(Delete(s, id), limbo - {id}) && OnlyErased(s, Delete(s, id), {id}) && Delete(s, id).new_ == s.new_
  {
    hide AddrOk, RandomOk, TriedOk, NewOk, CountsOk, TimesOk, MovedOnly;
    var u := s.(nNew := s.nNew - 1);
    InLimbo(u, limbo, id);
    LastPosition(u, id);
    var t := SwapRandom(u, u.info[id].randomPos, |u.random| - 1);
    SwapKeeps(u, limbo, u.info[id].randomPos, |u.random| - 1);
    RemoveKeeps(t, limbo, id);
    SwapErases(u, t, id);
  }

  lemma LastPosition(s: State, id: Id)
    requires RandomOk(s) && id in s.info
    ensures 0 <= s.info[id].randomPos < |s.random| && Deletable(s, id)
    ensures var t := SwapRandom(s, s.info[id].randomPos, |s.random| - 1);
      |t.random| == |s.random| && t.random[|t.random| - 1] == id
  {
  }

  lemma SwapErases(s: State, t: State, id: Id)
    requires MovedOnly(s.info, t.info) && id in s.info
    requires t.key == s.key && t.idCount == s.idCount && t.nTried == s.nTried && t.tried == s.tried
    requires |t.random| > 0
    ensures OnlyErased(s, Remove(t, id), {id})
  {
  }

  // ---------------------------------------------------------------- ClearNew

  ghost predicate Clearable(s: State, slot: Slot) {
    && (slot in s.new_ ==> s.new_[slot] in s.info)
    && (slot in s.new_ && s.info[s.new_[slot]].refCount == 1 ==> Deletable(ClearSlot(s, slot), s.new_[slot]))
  }

  /** CAddrMan::ClearNew: empty a new slot, deleting the entry if this was its last reference. */
  ghost function ClearNew(s: State, slot: Slot): (r: State)
    requires Clearable(s, slot)
  {
    if slot !in s.new_ then s
    else
      var id := s.new_[slot];
      var t := ClearSlot(s, slot);
      if t.info[id].refCount == 0 then Delete(t, id) else t
  }

  lemma ClearNewKeeps(s: State, limbo: set<Id>, slot: Slot)
    requires Consistent(s, limbo)
    ensures Clearable(s, slot)
    ensures var t := ClearNew(s, slot);
      && Consistent(t, limbo) && t.key == s.key && t.tried == s.tried && t.new_ == s.new_ - {slot}
      && t.info.Keys <= s.info.Keys
      && (forall id :: id in s.info && (slot in s.new_ ==> id != s.new_[slot]) ==>
            id in t.info && t.info[id] == s.info[id].(randomPos := t.info[id].randomPos))
  {
    hide AddrOk, RandomOk, TriedOk, NewOk, CountsOk, TimesOk;
    if slot in s.new_ {
      ClearSlotKeeps(s, limbo, slot);
      var id := s.new_[slot];
      var t := ClearSlot(s, slot);
      if s.info[id].refCount == 1 {
        DeleteKeeps(t, limbo + {id}, id);
        NoLimbo(s, limbo, id);
        assert limbo + {id} - {id} == limbo;
      }
    } else {
      assert s.new_ - {slot} == s.new_;
    }
  }

  lemma NoLimbo(s: State, limbo: set<Id>, id: Id)
    requires NewOk(s, limbo) && id in s.info && !s.info[id].inTried && s.info[id].refCount > 0
    ensures id !in limbo
  {
  }

  // --------------------------------------------------------------- MakeTried

  /** The entry has left the new table; its tried slot may still be taken. */
  ghost function Vacated(s: State, id: Id): (r: State)
    requires id in s.info
  {
    DropRefs(s, id).(nNew := s.nNew - 1)
  }

  /** Move the occupant of a tried slot back into the new table. */
  ghost function Evict(s: State, slot: Slot): (r: State)
    requires slot in s.tried && s.tried[slot] in s.info
    requires Clearable(FromTried(s, slot), EvictSlot(s, slot))
    requires s.tried[slot] in ClearNew(FromTried(s, slot), EvictSlot(s, slot)).info
  {
    var id := s.tried[slot];
    var old_ := s.info[id];
    var t := ClearNew(FromTried(s, slot), EvictSlot(s, slot));
    FillSlot(t, id, NewBucket(s.key, old_.service, old_.source)).(nNew := t.nNew + 1)
  }

  /** Where the occupant of a tried slot goes when it is evicted. */
  function EvictSlot(s: State, slot: Slot): (r: Slot)
    requires slot in s.tried && s.tried[slot] in s.info
  {
    var i := s.info[s.tried[slot]];
    NewSlot(s.key, i.service, NewBucket(s.key, i.service, i.source))
  }

  lemma EvictKeeps(s: State, id: Id, slot: Slot)
    requires Consistent(s, {id}) && slot in s.tried && s.tried[slot] != id && id in s.info
    ensures s.tried[slot] in s.info && Clearable(FromTried(s, slot), EvictSlot(s, slot))
    ensures s.tried[slot] in ClearNew(FromTried(s, slot), EvictSlot(s, slot)).info
    ensures Consistent(Evict(s, slot), {id})
    ensures Evict(s, slot).key == s.key && Evict(s, slot).tried == s.tried - {slot}
    ensures id in Evict(s, slot).info && Evict(s, slot).info[id] == s.info[id].(randomPos := Evict(s, slot).info[id].randomPos)
  {
    hide AddrOk, RandomOk, TriedOk, NewOk, CountsOk, TimesOk, Clearable, ClearNew, OnlyErased;
    var e := s.tried[slot];
    FromTriedKeeps(s, {id}, slot);
    var a := FromTried(s, slot);
    LimboCount(s, {id}, id);
    LimboCount(a, {id} + {e}, e);
    LimboCount(a, {id} + {e}, id);
    ClearNewKeeps(a, {id} + {e}, EvictSlot(s, slot));
    var t := ClearNew(a, EvictSlot(s, slot));
    FillSlotKeeps(t, {id} + {e}, e, NewBucket(s.key, s.info[e].service, s.info[e].source));
    assert {id} + {e} - {e} == {id};
  }

  /** Entries in limbo have no references, so no slot points to them. */
  lemma LimboCount(s: State, limbo: set<Id>, id: Id)
    requires Consistent(s, limbo) && id in limbo
    ensures id in s.info && !s.info[id].inTried && s.info[id].refCount == 0
    ensures forall slot :: slot in s.new_ ==> s.new_[slot] != id
    ensures forall slot :: slot in s.tried ==> s.tried[slot] != id
  {
    hide AddrOk, RandomOk, TimesOk;
    InLimbo(s, limbo, id);
    ZeroCount(s, limbo, id);
    NotReferenced(s, limbo, id);
  }

  ghost predicate Movable(s: State, id: Id) {
    Check(s) && id in s.info && !s.info[id].inTried && s.info[id].lastSuccess != 0
  }

  /** CAddrMan::MakeTried. */
  ghost function MakeTried(s: State, id: Id): (r: State)
    requires Movable(s, id)
  {
    var slot := TriedSlot(s.key, s.info[id].service);
    MakeTriedReady(s, id);
    var v := Vacated(s, id);
    ToTried(if slot in v.tried then Evict(v, slot) else v, id)
  }

  /** Everything MakeTried asserts on its way holds. */
  lemma MakeTriedReady(s: State, id: Id)
    requires Movable(s, id)
    ensures Vacated(s, id).info.Keys == s.info.Keys
    ensures var slot := TriedSlot(s.key, s.info[id].service);
      var v := Vacated(s, id);
      && Consistent(v, {id}) && id in v.info && v.key == s.key && v.info[id] == s.info[id].(refCount := 0)
      && (slot in v.tried ==>
            && v.tried[slot] in v.info && v.tried[slot] != id && Clearable(FromTried(v, slot), EvictSlot(v, slot))
            && v.tried[slot] in ClearNew(FromTried(v, slot), EvictSlot(v, slot)).info
            && Consistent(Evict(v, slot), {id}) && Evict(v, slot).key == v.key && slot !in Evict(v, slot).tried
            && id in Evict(v, slot).info && Evict(v, slot).info[id] == v.info[id].(randomPos := Evict(v, slot).info[id].randomPos))
  {
    hide AddrOk, RandomOk, TriedOk, NewOk, CountsOk, TimesOk, Mark, Evict, Clearable, ClearNew;
    DropRefsKeeps(s, {}, id);
    var v := Vacated(s, id);
    LimboCount(v, {} + {id}, id);
    assert {} + {id} == {id};
    var slot := TriedSlot(s.key, s.info[id].service);
    if slot in v.tried {
      EvictKeeps(v, id, slot);
    }
  }

  lemma MakeTriedKeeps(s: State, id: Id)
    requires Movable(s, id)
    ensures Check(MakeTried(s, id))
  {
    hide AddrOk, RandomOk, TriedOk, NewOk, CountsOk, TimesOk, Mark, Evict, Vacated, Clearable, ClearNew;
    MakeTriedReady(s, id);
    var slot := TriedSlot(s.key, s.info[id].service);
    var v := Vacated(s, id);
    ToTriedKeeps(if slot in v.tried then Evict(v, slot) else v, {id}, id);
    assert {id} - {id} == {};
  }

  // ------------------------------------------------------------------- Good_

  /** Find, together with the check for the same port. */
  predicate Known(s: State, sv: Service) {
    sv.ip in s.addr && s.addr[sv.ip] in s.info && s.info[s.addr[sv.ip]].service == sv
  }

  function SetInfo(s: State, id: Id, i: Info): (r: State) {
    s.(info := s.info[id := i])
  }

  ghost function Good(s: State, sv: Service, time: int): (r: State)
    requires Check(s) && time > 0
  {
    if !Known(s, sv) then s
    else
      var id := s.addr[sv.ip];
      var t := SetInfo(s, id, s.info[id].(lastSuccess := time, lastTry := time, attempts := 0));
      if t.info[id].inTried then t
      else
        SetStatsKeeps(s, id, t.info[id]);
        MakeTried(t, id)
  }

  /** Statistics may change freely as long as the times stay sensible. */
  lemma SetStatsKeeps(s: State, id: Id, i: Info)
    requires Check(s) && id in s.info
    requires i == s.info[id].(services := i.services, time := i.time, lastSuccess := i.lastSuccess, lastTry := i.lastTry, attempts := i.attempts)
    requires i.lastTry >= 0 && i.lastSuccess >= 0 && (s.info[id].lastSuccess == i.lastSuccess || i.lastSuccess != 0)
    ensures Check(SetInfo(s, id, i))
  {
    var t := SetInfo(s, id, i);
    assert RandomOk(t) by { hide AddrOk, TriedOk, NewOk, CountsOk, TimesOk; SetStatsRandom(s, id, i); }
    assert TimesOk(t) by { hide AddrOk, TriedOk, NewOk, CountsOk, RandomOk; }
    hide AddrOk, RandomOk, TriedOk, NewOk, CountsOk, TimesOk;
    StatsKeep(s, t, {});
  }

  lemma SetStatsRandom(s: State, id: Id, i: Info)
    requires RandomOk(s) && id in s.info && i.randomPos == s.info[id].randomPos
    ensures RandomOk(SetInfo(s, id, i))
  {
  }

  lemma GoodKeeps(s: State, sv: Service, time: int)
    requires Check(s) && time > 0
    ensures Check(Good(s, sv, time))
  {
    hide AddrOk, RandomOk, TriedOk, NewOk, CountsOk, TimesOk, MakeTried;
    if Known(s, sv) {
      var id := s.addr[sv.ip];
      var i := s.info[id].(lastSuccess := time, lastTry := time, attempts := 0);
      SetStatsKeeps(s, id, i);
      if !i.inTried {
        MakeTriedKeeps(SetInfo(s, id, i), id);
      }
    }
  }

  // ------------------------------------------------------ Attempt_, Connected_

  function Attempt(s: State, sv: Service, time: int): (r: State) {
    if !Known(s, sv) then s
    else
      var id := s.addr[sv.ip];
      SetInfo(s, id, s.info[id].(lastTry := time, attempts := s.info[id].attempts + 1))
  }

  function Connected(s: State, sv: Service, time: int): (r: State) {
    if !Known(s, sv) then s
    else
      var id := s.addr[sv.ip];
      if time - s.info[id].time > 20 * 60 then SetInfo(s, id, s.info[id].(time := time)) else s
  }

  lemma AttemptKeeps(s: State, sv: Service, time: int)
    requires Check(s) && time >= 0
    ensures Check(Attempt(s, sv, time)) && Check(Connected(s, sv, time))
  {
    hide AddrOk, RandomOk, TriedOk, NewOk, CountsOk;
    if Known(s, sv) {
      var id := s.addr[sv.ip];
      SetStatsKeeps(s, id, s.info[id].(lastTry := time, attempts := s.info[id].attempts + 1));
      SetStatsKeeps(s, id, s.info[id].(time := time));
    }
  }

  // -------------------------------------------------------------------- Add_

  function Max(a: int, b: int): (r: int) { if a < b then b else a }

  /** An announced address that is already known refreshes the entry's time and services. */
  function Refreshed(i: Info, a: Address, penalty: int, now: int): (r: Info) {
    var interval := if now - a.time < DAY then 60 * 60 else DAY;
    var time := if a.time != 0 && (i.time == 0 || i.time < a.time - interval - penalty) then Max(0, a.time - penalty) else i.time;
    i.(time := time, services := i.services + a.services)
  }

  /** A refreshed entry is offered another bucket: news, not tried, below the maximum, and the dice agree. */
  predicate Offered(i: Info, a: Address, rnd: nat) {
    && a.time != 0 && (i.time == 0 || a.time > i.time) && !i.inTried && i.refCount != NEW_BUCKETS_PER_ADDRESS
    && (i.refCount > 0 ==> rnd % Pow2(i.refCount) == 0)
  }

  /** The entry may take the slot: it is free, or its occupant is terrible or better placed elsewhere. */
  predicate Yields(s: State, slot: Slot, id: Id, now: int)
    requires id in s.info && (slot in s.new_ ==> s.new_[slot] in s.info)
  {
    slot in s.new_ ==>
      var e := s.info[s.new_[slot]];
      IsTerrible(e, now) || (e.refCount > 1 && s.info[id].refCount == 0)
  }

  /** The slot an entry gets from a source. */
  function SourceSlot(s: State, id: Id, source: NetAddr): (r: Slot)
    requires id in s.info
  {
    NewSlot(s.key, s.info[id].service, NewBucket(s.key, s.info[id].service, source))
  }

  /** The entry is already in the slot it would get. */
  predicate Settled(s: State, id: Id, source: NetAddr)
    requires id in s.info
  {
    SourceSlot(s, id, source) in s.new_ && s.new_[SourceSlot(s, id, source)] == id
  }

  ghost predicate Placeable(s: State, id: Id, source: NetAddr) {
    && id in s.info
    && Clearable(s, SourceSlot(s, id, source)) && id in ClearNew(s, SourceSlot(s, id, source)).info
    && Deletable(s, id)
  }

  /** The second half of Add_: put the entry into the bucket of this source, or drop it if it has no place at all. */
  ghost function Place(s: State, id: Id, source: NetAddr, now: int): (r: State)
    requires id in s.info
    requires Settled(s, id, source) || Placeable(s, id, source)
  {
    var slot := SourceSlot(s, id, source);
    if Settled(s, id, source) then s
    else if Yields(s, slot, id, now) then
      FillSlot(ClearNew(s, slot), id, NewBucket(s.key, s.info[id].service, source))
    else if s.info[id].refCount == 0 then Delete(s, id)
    else s
  }

  lemma DeleteShift(s: State, id: Id)
    requires Deletable(s, id)
    ensures var u := s.(nNew := s.nNew - 1); Deletable(u, id) && Delete(u, id) == Delete(s, id).(nNew := Delete(s, id).nNew - 1)
  {
    hide SetPos;
  }

  lemma ClearNewShift(s: State, slot: Slot)
    requires Clearable(s, slot)
    ensures var u := s.(nNew := s.nNew - 1);
      Clearable(u, slot) && ClearNew(u, slot) == ClearNew(s, slot).(nNew := ClearNew(s, slot).nNew - 1)
  {
    hide Delete, Deletable, ClearSlot;
    if slot in s.new_ {
      ClearSlotShift(s, slot);
      if s.info[s.new_[slot]].refCount == 1 {
        DeleteShift(ClearSlot(s, slot), s.new_[slot]);
      }
    }
  }

  lemma ClearSlotShift(s: State, slot: Slot)
    requires slot in s.new_ && s.new_[slot] in s.info
    ensures ClearSlot(s.(nNew := s.nNew - 1), slot) == ClearSlot(s, slot).(nNew := s.nNew - 1)
    ensures ClearSlot(s, slot).nNew == s.nNew
    ensures s.new_[slot] in ClearSlot(s, slot).info && ClearSlot(s, slot).info[s.new_[slot]].refCount == s.info[s.new_[slot]].refCount - 1
  {
  }

  lemma FillShift(s: State, id: Id, b: int)
    requires id in s.info
    ensures FillSlot(s.(nNew := s.nNew - 1), id, b).(nNew := s.nNew) == FillSlot(s, id, b)
  {
  }

  lemma ClearableShift(s: State, slot: Slot)
    requires Clearable(s.(nNew := s.nNew - 1), slot)
    ensures Clearable(s, slot)
  {
  }

  /** A new entry, counted but still in limbo, finds its place or disappears. */
  lemma PlaceNewKeeps(s: State, id: Id, source: NetAddr, now: int)
    requires Consistent(s.(nNew := s.nNew - 1), {id})
    ensures id in s.info && Placeable(s, id, source) && Check(Place(s, id, source, now))
  {
    hide AddrOk, RandomOk, TriedOk, NewOk, CountsOk, TimesOk, Clearable, ClearNew, Deletable, Mark, IsTerrible, Delete;
    var u := s.(nNew := s.nNew - 1);
    LimboCount(u, {id}, id);
    var slot := SourceSlot(s, id, source);
    DeleteKeeps(s, {id}, id);
    ClearNewKeeps(u, {id}, slot);
    ClearableShift(s, slot);
    ClearNewShift(s, slot);
    var c := ClearNew(u, slot);
    FillSlotKeeps(c, {id}, id, NewBucket(s.key, s.info[id].service, source));
    FillShift(ClearNew(s, slot), id, NewBucket(s.key, s.info[id].service, source));
    assert {id} - {id} == {};
  }

  /** An entry that has references may gain one. */
  lemma PlaceKnownKeeps(s: State, id: Id, source: NetAddr, now: int)
    requires Check(s) && id in s.info && !s.info[id].inTried && s.info[id].refCount < NEW_BUCKETS_PER_ADDRESS
    ensures Settled(s, id, source) || Placeable(s, id, source)
    ensures Check(Place(s, id, source, now))
  {
    hide AddrOk, TriedOk, CountsOk, TimesOk, Clearable, ClearNew, Deletable, Mark, IsTerrible, Delete, SlotsOk;
    var slot := SourceSlot(s, id, source);
    DeletableIn(s, id);
    hide RandomOk;
    assert s.info[id].refCount > 0;
    hide NewOk;
    ClearNewKeeps(s, {}, slot);
    if !Settled(s, id, source) {
      FillSlotKeeps(ClearNew(s, slot), {}, id, NewBucket(s.key, s.info[id].service, source));
      assert {} - {id} == {};
    }
  }

  /** CAddrMan::Add_; rnd stands for the random draw. */
  ghost function Add(s: State, a: Address, source: NetAddr, penalty: int, now: int, rnd: nat): (r: (State, bool))
    requires Check(s)
  {
    if !a.routable then (s, false)
    else if a.service.ip in s.addr then
      KnownIp(s, a.service.ip);
      var id := s.addr[a.service.ip];
      var i := Refreshed(s.info[id], a, penalty, now);
      var t := SetInfo(s, id, i);
      if !Offered(i, a, rnd) then (t, false)
      else
        RefreshKeeps(s, id, a, penalty, now);
        OfferedRoom(t, id, a, rnd);
        PlaceKnownKeeps(t, id, source, now);
        (Place(t, id, source, now), false)
    else
      var t := Created(s, a, source, penalty);
      CreatedKeeps(s, a, source, penalty);
      PlaceNewKeeps(t, Id(s.idCount), source, now);
      (Place(t, Id(s.idCount), source, now), true)
  }

  function Created(s: State, a: Address, source: NetAddr, penalty: int): (r: State) {
    var c := Create(s, a, source);
    var id := Id(s.idCount);
    SetInfo(c, id, c.info[id].(time := Max(0, c.info[id].time - penalty))).(nNew := s.nNew + 1)
  }

  lemma KnownIp(s: State, ip: NetAddr)
    requires AddrOk(s) && ip in s.addr
    ensures s.addr[ip] in s.info
  {
  }

  lemma RefreshKeeps(s: State, id: Id, a: Address, penalty: int, now: int)
    requires Check(s) && id in s.info
    ensures Check(SetInfo(s, id, Refreshed(s.info[id], a, penalty, now)))
  {
    assert s.info[id].lastTry >= 0 && s.info[id].lastSuccess >= 0 by { hide AddrOk, RandomOk, TriedOk, NewOk, CountsOk; }
    hide AddrOk, RandomOk, TriedOk, NewOk, CountsOk, TimesOk;
    SetStatsKeeps(s, id, Refreshed(s.info[id], a, penalty, now));
  }

  lemma OfferedRoom(s: State, id: Id, a: Address, rnd: nat)
    requires NewOk(s, {}) && id in s.info && Offered(s.info[id], a, rnd)
    ensures !s.info[id].inTried && 0 < s.info[id].refCount < NEW_BUCKETS_PER_ADDRESS
  {
  }

  lemma CreatedKeeps(s: State, a: Address, source: NetAddr, penalty: int)
    requires Check(s) && a.service.ip !in s.addr
    ensures var t := Created(s, a, source, penalty); Consistent(t.(nNew := t.nNew - 1), {Id(s.idCount)})
  {
    hide RandomOk, TriedOk, NewOk, CountsOk, AddrOk, TimesOk;
    CreateKeeps(s, {}, a, source);
    var c := Create(s, a, source);
    var id := Id(s.idCount);
    assert {} + {id} == {id};
    var t := Created(s, a, source, penalty).(nNew := s.nNew);
    SetStatsRandom(c, id, t.info[id]);
    TimeOnly(c, t);
    StatsKeep(c, t, {id});
  }

  lemma TimeOnly(s: State, t: State)
    requires TimesOk(s) && t.info.Keys == s.info.Keys && forall id :: id in s.info ==> t.info[id] == s.info[id].(time := t.info[id].time)
    ensures TimesOk(t) && SameEntries(s.info, t.info)
  {
  }

  lemma AddKeeps(s: State, a: Address, source: NetAddr, penalty: int, now: int, rnd: nat)
    requires Check(s)
    ensures Check(Add(s, a, source, penalty, now, rnd).0)
  {
    hide Place, Placeable, Refreshed, Offered;
    if a.routable && a.service.ip in s.addr {
      KnownIp(s, a.service.ip);
      hide RandomOk, TriedOk, NewOk, CountsOk, AddrOk, TimesOk;
      var id := s.addr[a.service.ip];
      RefreshKeeps(s, id, a, penalty, now);
      var t := SetInfo(s, id, Refreshed(s.info[id], a, penalty, now));
      if Offered(t.info[id], a, rnd) {
        OfferedRoom(t, id, a, rnd);
        PlaceKnownKeeps(t, id, source, now);
      }
    } else if a.routable {
      hide RandomOk, TriedOk, NewOk, CountsOk, AddrOk, TimesOk;
      CreatedKeeps(s, a, source, penalty);
      PlaceNewKeeps(Created(s, a, source, penalty), Id(s.idCount), source, now);
    }
  }

  // --------------------------------------------------------------------- key

  /** No operation touches the secret key. */
  lemma GoodKeepsKey(s: State, sv: Service, time: int)
    requires Check(s) && time > 0
    ensures Good(s, sv, time).key == s.key
  {
    hide Consistent;
  }

  lemma AttemptKeepsKey(s: State, sv: Service, time: int)
    ensures Attempt(s, sv, time).key == s.key && Connected(s, sv, time).key == s.key
  {
  }

  lemma AddKeepsKey(s: State, a: Address, source: NetAddr, penalty: int, now: int, rnd: nat)
    requires Check(s)
    ensures Add(s, a, source, penalty, now, rnd).0.key == s.key
  {
    hide Consistent;
  }
}
