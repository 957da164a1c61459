/**
  What the address manager's operations achieve, beyond keeping its tables consistent
  (src/addrman.cpp): a good address ends up tried, a new one is kept exactly when its slot
  can be had, and only a terrible entry is ever forgotten.
*/
module AddrEffects {
  import opened AddrTables
  import opened AddrManSpec
  import opened BitStrings

  /** The tried slot an address gets belongs to it afterwards, and no other tried slot changes. */
  lemma GoodIsTried(s: State, sv: Service, time: int)
    requires Check(s) && time > 0 && Known(s, sv)
    ensures var t := Good(s, sv, time);
      var id := s.addr[sv.ip];
      && id in t.info && t.info[id].inTried && t.info[id].service == sv
      && t.info[id].lastSuccess == time && t.info[id].lastTry == time && t.info[id].attempts == 0
      && t.tried == s.tried[TriedSlot(s.key, sv) := id]
  {
    hide AddrOk, RandomOk, NewOk, CountsOk, TimesOk, MakeTried, Mark;
    var id := s.addr[sv.ip];
    var i := s.info[id].(lastSuccess := time, lastTry := time, attempts := 0);
    SetStatsKeeps(s, id, i);
    if i.inTried {
      assert s.tried[TriedSlot(s.key, sv) := id] == s.tried;
    } else {
      MakeTriedPlaces(SetInfo(s, id, i), id);
    }
  }

  lemma MakeTriedPlaces(s: State, id: Id)
    requires Movable(s, id)
    ensures var t := MakeTried(s, id);
      && id in t.info && t.info[id] == s.info[id].(refCount := 0, inTried := true, randomPos := t.info[id].randomPos)
      && t.tried == s.tried[TriedSlot(s.key, s.info[id].service) := id]
  {
    hide AddrOk, RandomOk, TriedOk, NewOk, CountsOk, TimesOk, Evict, Clearable, ClearNew;
    MakeTriedReady(s, id);
    var slot := TriedSlot(s.key, s.info[id].service);
    var v := Vacated(s, id);
    if slot in v.tried {
      EvictKeeps(v, id, slot);
      assert (s.tried - {slot})[slot := id] == s.tried[slot := id];
    }
  }

  // ---------------------------------------------------------------- terrible

  /** An entry that was tried within the last minute is never terrible; otherwise it is for any one of five reasons. */
  lemma TerribleWhen(i: Info, now: int)
    ensures i.lastTry != 0 && now - i.lastTry <= 60 ==> !IsTerrible(i, now)
    ensures i.lastTry == 0 || now - i.lastTry > 60 ==>
      (IsTerrible(i, now) <==>
       || i.time - now > 600
       || i.time == 0
       || now - i.time > 2_592_000
       || (i.lastSuccess == 0 && i.attempts >= 3)
       || (now - i.lastSuccess > 604_800 && i.attempts >= 10))
  {
  }

  /** Which fields of which entry an attempt and a connection change. */
  lemma AttemptChanges(s: State, sv: Service, time: int)
    ensures var t := Attempt(s, sv, time);
      && t == s.(info := t.info) && t.info.Keys == s.info.Keys
      && (forall id :: id in s.info && !(Known(s, sv) && id == s.addr[sv.ip]) ==> t.info[id] == s.info[id])
      && (Known(s, sv) ==> var id := s.addr[sv.ip];
            && t.info[id] == s.info[id].(lastTry := t.info[id].lastTry, attempts := t.info[id].attempts)
            && t.info[id].lastTry == time && t.info[id].attempts == s.info[id].attempts + 1)
    ensures var t := Connected(s, sv, time);
      && t == s.(info := t.info) && t.info.Keys == s.info.Keys
      && (forall id :: id in s.info && !(Known(s, sv) && id == s.addr[sv.ip]) ==> t.info[id] == s.info[id])
      && (Known(s, sv) ==> var id := s.addr[sv.ip];
            && t.info[id] == s.info[id].(time := t.info[id].time) && t.info[id].time >= time - 20 * 60
            && (t.info[id].time == s.info[id].time || (t.info[id].time == time && time > s.info[id].time + 20 * 60)))
  {
  }

  /** Attempts at the given times, one after the other. */
  function Attempts(s: State, sv: Service, times: seq<int>): (r: State) {
    if times == [] then s else Attempt(Attempts(s, sv, times[..|times| - 1]), sv, times[|times| - 1])
  }

  lemma {:induction false} AttemptsCount(s: State, sv: Service, times: seq<int>)
    requires Known(s, sv)
    ensures var t := Attempts(s, sv, times);
      && Known(t, sv) && t.addr == s.addr
      && var i, j := s.info[s.addr[sv.ip]], t.info[s.addr[sv.ip]];
         && j.attempts == i.attempts + |times| && j.lastSuccess == i.lastSuccess
         && j.lastTry == if times == [] then i.lastTry else times[|times| - 1]
  {
    if times != [] {
      AttemptsCount(s, sv, times[..|times| - 1]);
    }
  }

  /** Three attempts on an address that never answered make it terrible, a minute after the last one. */
  lemma UnansweredIsTerrible(s: State, sv: Service, times: seq<int>, now: int)
    requires Known(s, sv) && |times| >= 3 && now - times[|times| - 1] > 60
    requires var i := s.info[s.addr[sv.ip]]; i.lastSuccess == 0 && i.attempts >= 0
    ensures var t := Attempts(s, sv, times); Known(t, sv) && IsTerrible(t.info[t.addr[sv.ip]], now)
  {
    AttemptsCount(s, sv, times);
    TerribleWhen(Attempts(s, sv, times).info[s.addr[sv.ip]], now);
  }

  // ------------------------------------------------------------------- places

  /** Emptying a slot costs its entry one reference, and the entry itself if that was the last; all others stay. */
  ghost predicate Cleared(s: State, t: State, slot: Slot) {
    && t.tried == s.tried && t.new_ == s.new_ - {slot} && t.info.Keys <= s.info.Keys && t.key == s.key
    && (forall id :: id in s.info && (slot in s.new_ ==> id != s.new_[slot]) ==>
          id in t.info && t.info[id] == s.info[id].(randomPos := t.info[id].randomPos))
    && (slot in s.new_ && s.new_[slot] in s.info ==>
          var id := s.new_[slot];
          && !s.info[id].inTried && (id in t.info <==> s.info[id].refCount > 1)
          && (id in t.info ==> t.info[id] == s.info[id].(refCount := s.info[id].refCount - 1, randomPos := t.info[id].randomPos)))
  }

  lemma ClearNewClears(s: State, limbo: set<Id>, slot: Slot)
    requires Consistent(s, limbo)
    ensures Clearable(s, slot) && Cleared(s, ClearNew(s, slot), slot) && (slot in s.new_ ==> s.new_[slot] in s.info)
  {
    hide AddrOk, RandomOk, TriedOk, NewOk, CountsOk, TimesOk, Delete, Deletable, Mark;
    ClearNewKeeps(s, limbo, slot);
    if slot in s.new_ {
      ClearSlotKeeps(s, limbo, slot);
      var id := s.new_[slot];
      if s.info[id].refCount == 1 {
        DeleteKeeps(ClearSlot(s, slot), limbo + {id}, id);
      }
    }
  }

  /** An entry left the tried table for a new slot, which cost the entry there a place; nothing else changed. */
  ghost predicate Evicted(s: State, t: State, e: Id, home: Slot) {
    && e in s.info && e in t.info && t.new_ == s.new_[home := e]
    && t.info[e] == s.info[e].(inTried := false, refCount := 1, randomPos := t.info[e].randomPos)
    && forall x :: x in s.info && x != e ==>
         var lost := if home in s.new_ && s.new_[home] == x then 1 else 0;
         && (x !in t.info ==> lost == 1 && s.info[x].refCount == 1)
         && (x in t.info ==> t.info[x] == s.info[x].(refCount := s.info[x].refCount - lost, randomPos := t.info[x].randomPos))
  }

  lemma EvictFills(s: State, f: State, c: State, e: Id, home: Slot, b: int)
    requires e in s.info && f.info == s.info[e := s.info[e].(inTried := false)] && f.new_ == s.new_ && f.key == s.key
    requires Cleared(f, c, home) && (home in f.new_ ==> f.new_[home] in f.info && f.new_[home] != e && f.info[f.new_[home]].refCount > 0)
    requires e in c.info && s.info[e].refCount == 0 && home == NewSlot(s.key, s.info[e].service, b)
    ensures Evicted(s, FillSlot(c, e, b), e, home)
  {
    assert (s.new_ - {home})[home := e] == s.new_[home := e];
  }

  /** The occupant of the tried slot goes back to the new slot of its own source. */
  lemma EvictMeans(s: State, id: Id, slot: Slot)
    requires Consistent(s, {id}) && slot in s.tried && s.tried[slot] != id && id in s.info
    ensures s.tried[slot] in s.info && Clearable(FromTried(s, slot), EvictSlot(s, slot))
    ensures s.tried[slot] in ClearNew(FromTried(s, slot), EvictSlot(s, slot)).info
    ensures var e := s.tried[slot];
      Evicted(s, Evict(s, slot), e, NewSlot(s.key, s.info[e].service, NewBucket(s.key, s.info[e].service, s.info[e].source)))
  {
    hide AddrOk, RandomOk, TriedOk, NewOk, CountsOk, TimesOk, Clearable, ClearNew, Cleared, Evicted, Mark;
    EvictKeeps(s, id, slot);
    var e, home := s.tried[slot], EvictSlot(s, slot);
    FromTriedKeeps(s, {id}, slot);
    var f := FromTried(s, slot);
    OutOfTried(s, slot);
    LimboCount(f, {id} + {e}, e);
    ClearNewClears(f, {id} + {e}, home);
    Occupied(f, {id} + {e}, home);
    var c, b := ClearNew(f, home), NewBucket(s.key, s.info[e].service, s.info[e].source);
    EvictFills(s, f, c, e, home, b);
    SameEviction(s, FillSlot(c, e, b), e, home, c.nNew + 1);
  }

  lemma OutOfTried(s: State, slot: Slot)
    requires slot in s.tried && s.tried[slot] in s.info
    ensures var f, e := FromTried(s, slot), s.tried[slot];
      f.info == s.info[e := s.info[e].(inTried := false)] && f.new_ == s.new_ && f.key == s.key
  {
  }

  lemma Occupied(s: State, limbo: set<Id>, slot: Slot)
    requires Consistent(s, limbo)
    ensures slot in s.new_ ==> s.new_[slot] in s.info && s.info[s.new_[slot]].refCount > 0
  {
    if slot in s.new_ {
      ClearSlotNew(s, limbo, slot);
    }
  }

  lemma SameEviction(s: State, t: State, e: Id, home: Slot, nNew: int)
    requires Evicted(s, t, e, home)
    ensures Evicted(s, t.(nNew := nNew), e, home)
  {
  }

  /**
    When an address becomes tried, only the entry in its tried slot loses that status; it goes back to the new
    slot of its own source with one place.  Only an entry whose single place that was is forgotten.
  */
  lemma MakeTriedEvicts(s: State, id: Id)
    requires Movable(s, id)
    ensures var t, slot := MakeTried(s, id), TriedSlot(s.key, s.info[id].service);
      if slot !in s.tried then
        t.new_ == Without(s.new_, id) && forall x :: x in s.info && x != id ==> x in t.info && t.info[x] == s.info[x]
      else
        var e := s.tried[slot];
        && e in s.info && e in t.info && e != id
        && var home := NewSlot(s.key, s.info[e].service, NewBucket(s.key, s.info[e].service, s.info[e].source));
           && t.new_ == Without(s.new_, id)[home := e]
           && t.info[e] == s.info[e].(inTried := false, refCount := 1, randomPos := t.info[e].randomPos)
           && forall x :: x in s.info && x != id && x != e ==>
                if x in t.info then t.info[x] == s.info[x].(refCount := t.info[x].refCount, randomPos := t.info[x].randomPos)
                else home in s.new_ && s.new_[home] == x && s.info[x].refCount == 1
  {
    hide AddrOk, RandomOk, TriedOk, NewOk, CountsOk, TimesOk, Clearable, ClearNew, Evict, Mark;
    MakeTriedReady(s, id);
    var slot, v := TriedSlot(s.key, s.info[id].service), Vacated(s, id);
    VacatedIs(s, id);
    if slot in v.tried {
      EvictMeans(v, id, slot);
      ToTriedIs(Evict(v, slot), id);
    } else {
      ToTriedIs(v, id);
    }
  }

  /** The new table without an entry's references. */
  function Without(table: Table, id: Id): (r: Table) { map slot | slot in table && table[slot] != id :: table[slot] }

  lemma VacatedIs(s: State, id: Id)
    requires id in s.info
    ensures var v := Vacated(s, id);
      && v.key == s.key && v.tried == s.tried && v.new_ == Without(s.new_, id) && v.info.Keys == s.info.Keys
      && forall x :: x in s.info && x != id ==> v.info[x] == s.info[x]
  {
  }

  lemma ToTriedIs(s: State, id: Id)
    requires id in s.info
    ensures ToTried(s, id).new_ == s.new_ && ToTried(s, id).info.Keys == s.info.Keys
    ensures forall x :: x in s.info && x != id ==> ToTried(s, id).info[x] == s.info[x]
  {
  }

  /** The slot is free, its entry is terrible, or that entry has other places while the newcomer has none. */
  predicate CanHave(s: State, slot: Slot, refCount: int, now: int)
    requires slot in s.new_ ==> s.new_[slot] in s.info
  {
    || slot !in s.new_
    || IsTerrible(s.info[s.new_[slot]], now)
    || (s.info[s.new_[slot]].refCount > 1 && refCount == 0)
  }

  /** An entry that is gone was terrible and had no other place; one that stays may have lost a place. */
  ghost predicate OthersKept(s: State, t: State, id: Id, now: int) {
    forall x :: x in s.info && x != id ==>
      && (x !in t.info ==> IsTerrible(s.info[x], now) && !s.info[x].inTried && s.info[x].refCount <= 1)
      && (x in t.info ==>
            && t.info[x] == s.info[x].(refCount := t.info[x].refCount, randomPos := t.info[x].randomPos)
            && s.info[x].refCount - 1 <= t.info[x].refCount <= s.info[x].refCount)
  }

  /** What placing an entry does. */
  ghost predicate PlacedIn(s: State, t: State, id: Id, slot: Slot, now: int) {
    && id in s.info && (slot in s.new_ ==> s.new_[slot] in s.info)
    && t.tried == s.tried && OthersKept(s, t, id, now)
    && if CanHave(s, slot, s.info[id].refCount, now)
       then id in t.info && t.new_ == s.new_[slot := id]
         && t.info[id] == s.info[id].(refCount := s.info[id].refCount + 1, randomPos := t.info[id].randomPos)
       else t.new_ == s.new_ && if s.info[id].refCount == 0 then t.info.Keys == s.info.Keys - {id} else t == s
  }

  lemma PlaceMeans(s: State, id: Id, source: NetAddr, now: int)
    requires Placeable(s, id, source) && !Settled(s, id, source)
    requires var slot := SourceSlot(s, id, source);
      Cleared(s, ClearNew(s, slot), slot) && (slot in s.new_ ==> s.new_[slot] in s.info)
    requires s.info[id].refCount == 0 ==> OnlyErased(s, Delete(s, id), {id}) && Delete(s, id).new_ == s.new_
    ensures PlacedIn(s, Place(s, id, source, now), id, SourceSlot(s, id, source), now)
  {
    hide IsTerrible, ClearNew, Delete, Clearable, Deletable, Mark, OthersKept, Cleared, OnlyErased;
    var slot := SourceSlot(s, id, source);
    if CanHave(s, slot, s.info[id].refCount, now) {
      TakenKeeps(s, ClearNew(s, slot), id, slot, NewBucket(s.key, s.info[id].service, source), now);
    } else {
      RefusedKeeps(s, id, now);
    }
  }

  lemma TakenKeeps(s: State, c: State, id: Id, slot: Slot, b: int, now: int)
    requires id in s.info && Cleared(s, c, slot) && (slot in s.new_ ==> s.new_[slot] in s.info && s.new_[slot] != id)
    requires slot == NewSlot(s.key, s.info[id].service, b) && CanHave(s, slot, s.info[id].refCount, now)
    ensures id in c.info
    ensures var t := FillSlot(c, id, b);
      && t.tried == s.tried && OthersKept(s, t, id, now) && id in t.info && t.new_ == s.new_[slot := id]
      && t.info[id] == s.info[id].(refCount := s.info[id].refCount + 1, randomPos := t.info[id].randomPos)
  {
    hide IsTerrible;
    assert (s.new_ - {slot})[slot := id] == s.new_[slot := id];
  }

  lemma RefusedKeeps(s: State, id: Id, now: int)
    requires id in s.info && Deletable(s, id)
    requires s.info[id].refCount == 0 ==> OnlyErased(s, Delete(s, id), {id})
    ensures OthersKept(s, s, id, now)
    ensures s.info[id].refCount == 0 ==>
      OthersKept(s, Delete(s, id), id, now) && Delete(s, id).tried == s.tried && Delete(s, id).info.Keys == s.info.Keys - {id}
  {
    hide IsTerrible, Delete, Deletable;
  }

  /**
    Add_ reports a new address exactly for routable, unknown ones.  It is kept exactly when its slot can be
    had, and then with what was announced.
  */
  lemma AddStores(s: State, a: Address, source: NetAddr, penalty: int, now: int, rnd: nat)
    requires Check(s)
    ensures Add(s, a, source, penalty, now, rnd).1 <==> a.routable && a.service.ip !in s.addr
    ensures !a.routable ==> Add(s, a, source, penalty, now, rnd).0 == s
    ensures a.routable && a.service.ip !in s.addr ==>
      var t, slot, id := Add(s, a, source, penalty, now, rnd).0, NewSlot(s.key, a.service, NewBucket(s.key, a.service, source)), Id(s.idCount);
      && id !in s.info && t.tried == s.tried && OthersKept(s, t, id, now) && (slot in s.new_ ==> s.new_[slot] in s.info)
      && if CanHave(s, slot, 0, now)
         then id in t.info && t.new_ == s.new_[slot := id]
           && t.info[id] == Info(a.service, a.services, Max(0, a.time - penalty), source, 0, 0, 0, 1, false, t.info[id].randomPos)
         else t.new_ == s.new_ && t.info.Keys == s.info.Keys
  {
    hide AddrOk, RandomOk, TriedOk, NewOk, CountsOk, TimesOk, IsTerrible, Place, Placeable, Settled, Refreshed, Offered;
    if a.routable && a.service.ip !in s.addr {
      var c, id := Created(s, a, source, penalty), Id(s.idCount);
      CreatedKeeps(s, a, source, penalty);
      NewId(s);
      PlaceNewKeeps(c, id, source, now);
      PlaceNewMeans(s, c, id, source, now);
      NotSettled(s, c, id, SourceSlot(c, id, source));
    }
  }

  lemma PlaceNewMeans(s: State, c: State, id: Id, source: NetAddr, now: int)
    requires Check(s) && Consistent(c.(nNew := c.nNew - 1), {id}) && id !in s.info && c.new_ == s.new_
    ensures id in c.info && Placeable(c, id, source) && c.info[id].refCount == 0
    ensures PlacedIn(c, Place(c, id, source, now), id, SourceSlot(c, id, source), now)
  {
    hide AddrOk, RandomOk, TriedOk, NewOk, CountsOk, TimesOk, IsTerrible, ClearNew, Delete, Clearable, Deletable, Place, PlacedIn, Cleared;
    PlaceNewKeeps(c, id, source, now);
    var u, slot := c.(nNew := c.nNew - 1), SourceSlot(c, id, source);
    LimboCount(u, {id}, id);
    ClearNewClears(u, {id}, slot);
    ClearNewShift(c, slot);
    ClearedShift(c, slot);
    DeleteKeeps(c, {id}, id);
    NotSettled(s, c, id, slot);
    PlaceMeans(c, id, source, now);
  }

  lemma ClearedShift(c: State, slot: Slot)
    requires Clearable(c, slot) && Clearable(c.(nNew := c.nNew - 1), slot)
    requires ClearNew(c.(nNew := c.nNew - 1), slot) == ClearNew(c, slot).(nNew := ClearNew(c, slot).nNew - 1)
    requires Cleared(c.(nNew := c.nNew - 1), ClearNew(c.(nNew := c.nNew - 1), slot), slot)
    ensures Cleared(c, ClearNew(c, slot), slot)
  {
    hide ClearNew, Clearable;
  }

  lemma NewId(s: State)
    requires AddrOk(s)
    ensures Id(s.idCount) !in s.info
  {
  }

  lemma NotSettled(s: State, c: State, id: Id, slot: Slot)
    requires NewOk(s, {}) && id !in s.info && c.new_ == s.new_
    ensures slot in c.new_ ==> c.new_[slot] != id && c.new_[slot] in s.info
  {
  }

  /** A known address is refreshed, and gets one more place exactly when the news, the dice and the slot allow it. */
  lemma KnownRefreshed(s: State, a: Address, source: NetAddr, penalty: int, now: int, rnd: nat)
    requires Check(s) && a.routable && a.service.ip in s.addr
    ensures var t, id := Add(s, a, source, penalty, now, rnd).0, s.addr[a.service.ip];
      && id in s.info && id in t.info && t.tried == s.tried && OthersKept(s, t, id, now)
      && var slot, i := NewSlot(s.key, s.info[id].service, NewBucket(s.key, s.info[id].service, source)), Refreshed(s.info[id], a, penalty, now);
         && t.info[id] == i.(refCount := t.info[id].refCount, randomPos := t.info[id].randomPos)
         && (slot in s.new_ ==> s.new_[slot] in s.info)
         && if GetsAnother(i, a, rnd) && !(slot in s.new_ && s.new_[slot] == id) && CanHave(s, slot, i.refCount, now)
            then t.new_ == s.new_[slot := id] && t.info[id].refCount == i.refCount + 1
            else t.new_ == s.new_ && t.info[id].refCount == i.refCount
  {
    hide AddrOk, RandomOk, TriedOk, NewOk, CountsOk, TimesOk, IsTerrible, ClearNew, Delete, Clearable, Deletable, Place, Refreshed, Pow2, Cleared;
    KnownIp(s, a.service.ip);
    var id := s.addr[a.service.ip];
    var i := Refreshed(s.info[id], a, penalty, now);
    var c := SetInfo(s, id, i);
    RefreshOnly(s.info[id], a, penalty, now);
    RefreshKeeps(s, id, a, penalty, now);
    var slot := SourceSlot(c, id, source);
    ClearNewClears(c, {}, slot);
    if Offered(i, a, rnd) {
      OfferedRoom(c, id, a, rnd);
      PlaceKnownKeeps(c, id, source, now);
      SameVerdict(s, c, id, slot, i.refCount, now);
      if !Settled(c, id, source) {
        PlaceMeans(c, id, source, now);
      } else {
        PlaceSettled(c, id, source, now);
      }
    }
  }

  /** The announcement is newer, the entry untried with fewer than eight places, and one in 2^places draws allows it. */
  predicate GetsAnother(i: Info, a: Address, rnd: nat) {
    a.time != 0 && (i.time == 0 || a.time > i.time) && !i.inTried && i.refCount != 8 && rnd % Pow2(if i.refCount > 0 then i.refCount else 0) == 0
  }

  lemma PlaceSettled(s: State, id: Id, source: NetAddr, now: int)
    requires id in s.info && Settled(s, id, source)
    ensures Place(s, id, source, now) == s
  {
  }

  lemma SameVerdict(s: State, c: State, id: Id, slot: Slot, refCount: int, now: int)
    requires id in s.info && c == s.(info := c.info) && c.info.Keys == s.info.Keys
    requires forall x :: x in s.info && x != id ==> c.info[x] == s.info[x]
    requires slot in s.new_ ==> s.new_[slot] in s.info
    ensures !(slot in s.new_ && s.new_[slot] == id) ==> (CanHave(s, slot, refCount, now) <==> CanHave(c, slot, refCount, now))
  {
  }

  lemma RefreshOnly(i: Info, a: Address, penalty: int, now: int)
    ensures var r := Refreshed(i, a, penalty, now); r == i.(time := r.time, services := i.services + a.services)
  {
  }

  /** The time of a known address never goes back, and is never behind an announcement by more than an hour or a day and the penalty. */
  lemma RefreshedTime(i: Info, a: Address, penalty: int, now: int)
    ensures var r, allowed := Refreshed(i, a, penalty, now).time, penalty + if now - a.time < DAY then 60 * 60 else DAY;
      && r >= i.time && (a.time != 0 ==> r >= a.time - allowed)
      && (r == i.time || (r == Max(0, a.time - penalty) && (i.time == 0 || i.time < a.time - allowed)))
  {
  }

  /** Whatever is announced, an entry that is forgotten was terrible, and tried entries stay as they are. */
  lemma AddForgets(s: State, a: Address, source: NetAddr, penalty: int, now: int, rnd: nat, x: Id)
    requires Check(s) && x in s.info
    ensures var t := Add(s, a, source, penalty, now, rnd).0;
      && t.tried == s.tried
      && (x !in t.info ==> IsTerrible(s.info[x], now) && !s.info[x].inTried && s.info[x].refCount <= 1)
  {
    hide Consistent, IsTerrible, Place, Refreshed, Offered;
    if a.routable && a.service.ip !in s.addr {
      AddStores(s, a, source, penalty, now, rnd);
    } else if a.routable {
      KnownRefreshed(s, a, source, penalty, now, rnd);
    }
  }
}
