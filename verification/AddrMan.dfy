/**
  CAddrMan as it runs: maps, a vector and two fixed tables changed in place
  (src/addrman.cpp).  Every method is proved against its function in AddrManSpec.
*/
module AddrManager {
  import opened Primitives
  import opened AddrTables
  import opened BitStrings
  import Spec = AddrManSpec

  /** The table as an array of cells: None stands for the source's -1. */
  ghost predicate Holds(cells: array2<Option<Id>>, rows: int, table: Table)
    reads cells
  {
    && cells.Length0 == rows && cells.Length1 == BUCKET_SIZE
    && (forall b, p :: 0 <= b < rows && 0 <= p < BUCKET_SIZE ==>
          cells[b, p] == if Slot(b, p) in table then Some(table[Slot(b, p)]) else None)
    && (forall slot :: slot in table ==> 0 <= slot.bucket < rows && 0 <= slot.pos < BUCKET_SIZE)
  }

  lemma CellAt(cells: array2<Option<Id>>, rows: int, table: Table, slot: Slot)
    requires Holds(cells, rows, table) && 0 <= slot.bucket < rows && 0 <= slot.pos < BUCKET_SIZE
    ensures cells.Length0 == rows && cells.Length1 == BUCKET_SIZE
    ensures cells[slot.bucket, slot.pos] == if slot in table then Some(table[slot]) else None
  {
  }

  class AddrMan {
    var nKey: Key
    const vvTried: array2<Option<Id>>
    const vvNew: array2<Option<Id>>
    var nIdCount: nat
    var mapInfo: map<Id, Info>
    var mapAddr: map<NetAddr, Id>
    var vRandom: seq<Id>
    var nTried: int
    var nNew: int
    ghost var tried: Table
    ghost var new_: Table

    ghost function St(): State
      reads this
    {
      State(nKey, nIdCount, mapInfo, mapAddr, vRandom, nTried, tried, nNew, new_)
    }

    ghost predicate Rep()
      reads this, vvTried, vvNew
    {
      vvTried != vvNew && Holds(vvTried, TRIED_BUCKET_COUNT, tried) && Holds(vvNew, NEW_BUCKET_COUNT, new_)
    }

    constructor (key: Key)
      ensures Rep() && St() == Empty(key) && fresh(vvTried) && fresh(vvNew)
    {
      nKey := key;
      vvTried := new Option<Id>[TRIED_BUCKET_COUNT, BUCKET_SIZE]((_, _) => None);
      vvNew := new Option<Id>[NEW_BUCKET_COUNT, BUCKET_SIZE]((_, _) => None);
      nIdCount, mapInfo, mapAddr, vRandom, nTried, nNew := 0, map[], map[], [], 0, 0;
      tried, new_ := map[], map[];
    }

    method SetNew(slot: Slot, cell: Option<Id>)
      requires Rep() && 0 <= slot.bucket < NEW_BUCKET_COUNT && 0 <= slot.pos < BUCKET_SIZE
      modifies this`new_, vvNew
      ensures Rep()
      ensures new_ == if cell.Some? then old(new_)[slot := cell.value] else old(new_) - {slot}
    {
      vvNew[slot.bucket, slot.pos] := cell;
      new_ := if cell.Some? then new_[slot := cell.value] else new_ - {slot};
    }

    method SetTried(slot: Slot, cell: Option<Id>)
      requires Rep() && 0 <= slot.bucket < TRIED_BUCKET_COUNT && 0 <= slot.pos < BUCKET_SIZE
      modifies this`tried, vvTried
      ensures Rep()
      ensures tried == if cell.Some? then old(tried)[slot := cell.value] else old(tried) - {slot}
    {
      vvTried[slot.bucket, slot.pos] := cell;
      tried := if cell.Some? then tried[slot := cell.value] else tried - {slot};
    }

    method Find(ip: NetAddr) returns (r: Option<Id>)
      ensures r == if ip in mapAddr && mapAddr[ip] in mapInfo then Some(mapAddr[ip]) else None
    {
      if ip !in mapAddr {
        return None;
      }
      r := if mapAddr[ip] in mapInfo then Some(mapAddr[ip]) else None;
    }

    method Create(a: Address, source: NetAddr) returns (id: Id)
      modifies this`nIdCount, this`mapInfo, this`mapAddr, this`vRandom
      ensures id == Id(old(nIdCount)) && St() == AddrTables.Create(old(St()), a, source)
    {
      id := Id(nIdCount);
      nIdCount := nIdCount + 1;
      mapInfo := mapInfo[id := Info(a.service, a.services, a.time, source, 0, 0, 0, 0, false, -1)];
      mapAddr := mapAddr[a.service.ip := id];
      mapInfo := mapInfo[id := mapInfo[id].(randomPos := |vRandom|)];
      vRandom := vRandom + [id];
    }

    method SwapRandom(pos1: int, pos2: int)
      requires 0 <= pos1 < |vRandom| && 0 <= pos2 < |vRandom|
      requires vRandom[pos1] in mapInfo && vRandom[pos2] in mapInfo
      modifies this`mapInfo, this`vRandom
      ensures St() == AddrTables.SwapRandom(old(St()), pos1, pos2)
    {
      if pos1 == pos2 {
        return;
      }
      var id1 := vRandom[pos1];
      var id2 := vRandom[pos2];
      mapInfo := mapInfo[id1 := mapInfo[id1].(randomPos := pos2)];
      mapInfo := mapInfo[id2 := mapInfo[id2].(randomPos := pos1)];
      vRandom := vRandom[pos1 := id2];
      vRandom := vRandom[pos2 := id1];
    }

    /** The requires are what the source asserts. */
    method Delete(id: Id)
      requires Spec.Deletable(St(), id) && !mapInfo[id].inTried && mapInfo[id].refCount == 0
      modifies this`mapInfo, this`vRandom, this`mapAddr, this`nNew
      ensures St() == Spec.Delete(old(St()), id)
    {
      SwapRandom(mapInfo[id].randomPos, |vRandom| - 1);
      vRandom := vRandom[..|vRandom| - 1];
      mapAddr := mapAddr - {mapInfo[id].service.ip};
      mapInfo := mapInfo - {id};
      nNew := nNew - 1;
    }

    method ClearNew(slot: Slot)
      requires Rep() && 0 <= slot.bucket < NEW_BUCKET_COUNT && 0 <= slot.pos < BUCKET_SIZE
      requires Spec.Clearable(St(), slot)
      requires slot in new_ ==> mapInfo[new_[slot]].refCount > 0 && !mapInfo[new_[slot]].inTried
      modifies this, vvNew
      ensures Rep() && St() == Spec.ClearNew(old(St()), slot) && new_ == old(new_) - {slot}
    {
      hide Holds, Spec.Delete, Spec.Deletable;
      CellAt(vvNew, NEW_BUCKET_COUNT, new_, slot);
      if vvNew[slot.bucket, slot.pos].Some? {
        var id := vvNew[slot.bucket, slot.pos].value;
        mapInfo := mapInfo[id := mapInfo[id].(refCount := mapInfo[id].refCount - 1)];
        SetNew(slot, None);
        if mapInfo[id].refCount == 0 {
          Delete(id);
        }
      }
      assert slot !in old(new_) ==> old(new_) - {slot} == old(new_);
    }

    /** The first loop of MakeTried: the entry leaves every new bucket, and its count reaches zero. */
    method LeaveNew(id: Id)
      requires Rep() && SlotsOk(St()) && id in mapInfo && mapInfo[id].refCount == |Refs(new_, id)|
      modifies this`mapInfo, this`new_, vvNew
      ensures Rep() && St() == DropRefs(old(St()), id)
    {
      hide Holds, Refs, SlotsOk, Left;
      ghost var s := St();
      LeftStart(s, id);
      for bucket := 0 to NEW_BUCKET_COUNT
        invariant Rep() && id in mapInfo && mapInfo[id].service == s.info[id].service
        invariant St() == Left(s, id, bucket)
      {
        var slot := NewSlot(nKey, mapInfo[id].service, bucket);
        LeftStep(s, id, bucket);
        var here := IsAt(slot, id);
        if here {
          SetNew(slot, None);
          mapInfo := mapInfo[id := mapInfo[id].(refCount := mapInfo[id].refCount - 1)];
        }
      }
      LeftEnd(s, id);
    }

    method IsAt(slot: Slot, id: Id) returns (here: bool)
      requires Rep() && 0 <= slot.bucket < NEW_BUCKET_COUNT && 0 <= slot.pos < BUCKET_SIZE
      ensures here <==> slot in new_ && new_[slot] == id
    {
      here := vvNew[slot.bucket, slot.pos] == Some(id);
    }

    /** The occupant of a tried slot leaves the tried table. */
    method LeaveTried(slot: Slot) returns (id: Id)
      requires Rep() && slot in tried && tried[slot] in mapInfo
      modifies this`mapInfo, this`nTried, this`tried, vvTried
      ensures Rep() && id == old(tried)[slot] && St() == FromTried(old(St()), slot)
    {
      assert 0 <= slot.bucket < TRIED_BUCKET_COUNT && 0 <= slot.pos < BUCKET_SIZE;
      id := vvTried[slot.bucket, slot.pos].value;
      hide Holds, Mark;
      FromTriedIs(St(), slot);
      mapInfo := mapInfo[id := mapInfo[id].(inTried := false)];
      SetTried(slot, None);
      nTried := nTried - 1;
    }

    /** An entry without references enters the bucket of its own source, making space there first. */
    method ReenterNew(id: Id, ghost limbo: set<Id>)
      requires Rep() && Consistent(St(), limbo) && id in limbo && id in mapInfo
      modifies this, vvNew
      ensures Rep()
      ensures var i := old(St()).info[id];
        var b := NewBucket(old(nKey), i.service, i.source);
        var slot := NewSlot(old(nKey), i.service, b);
        && Spec.Clearable(old(St()), slot)
        && var t := Spec.ClearNew(old(St()), slot);
           id in t.info && St() == FillSlot(t, id, b).(nNew := t.nNew + 1)
    {
      hide Holds, Consistent, Check, AddrOk, RandomOk, TriedOk, NewOk, CountsOk, TimesOk;
      hide Spec.Clearable, Spec.ClearNew, Mark;
      ghost var s := St();
      var bucket := NewBucket(nKey, mapInfo[id].service, mapInfo[id].source);
      var slot := NewSlot(nKey, mapInfo[id].service, bucket);
      Spec.LimboCount(s, limbo, id);
      ClearableHere(s, limbo, slot);
      Spec.ClearNewKeeps(s, limbo, slot);
      ClearNew(slot);
      assert slot !in new_;
      FillSlotIs(St(), id, bucket);
      mapInfo := mapInfo[id := mapInfo[id].(refCount := 1)];
      SetNew(slot, Some(id));
      nNew := nNew + 1;
    }

    /** The occupant of the wanted tried slot goes back to the new table. */
    method EvictTried(slot: Slot, ghost id: Id)
      requires Rep() && Consistent(St(), {id}) && id in mapInfo && slot in tried && tried[slot] != id
      modifies this, vvNew, vvTried
      ensures Rep() && old(tried[slot] in mapInfo && Spec.Clearable(FromTried(St(), slot), Spec.EvictSlot(St(), slot)))
      ensures old(tried[slot] in Spec.ClearNew(FromTried(St(), slot), Spec.EvictSlot(St(), slot)).info)
      ensures St() == Spec.Evict(old(St()), slot)
    {
      hide Holds, Consistent, Check, AddrOk, RandomOk, TriedOk, NewOk, CountsOk, TimesOk;
      hide Spec.Clearable, Spec.ClearNew, Mark, FillSlot;
      ghost var s := St();
      Spec.EvictKeeps(s, id, slot);
      FromTriedKeeps(s, {id}, slot);
      var evict := LeaveTried(slot);
      FromTriedIs(s, slot);
      ReenterNew(evict, {id} + {evict});
    }

    /** An entry that is in no table takes its free tried slot. */
    method EnterTried(id: Id)
      requires Rep() && id in mapInfo
      modifies this`mapInfo, this`nTried, this`tried, vvTried
      ensures Rep() && St() == ToTried(old(St()), id)
    {
      hide Holds, Mark;
      ToTriedIs(St(), id);
      SetTried(TriedSlot(nKey, mapInfo[id].service), Some(id));
      nTried := nTried + 1;
      mapInfo := mapInfo[id := mapInfo[id].(inTried := true)];
    }

    method MakeTried(id: Id)
      requires Rep() && Spec.Movable(St(), id)
      modifies this, vvNew, vvTried
      ensures Rep() && St() == Spec.MakeTried(old(St()), id)
    {
      hide Holds, Consistent, Check, AddrOk, RandomOk, TriedOk, NewOk, CountsOk, TimesOk;
      hide Spec.Evict, Spec.Clearable, Spec.ClearNew, Mark, ToTried;
      ghost var s := St();
      Spec.MakeTriedReady(s, id);
      CountHere(s, id);
      LeaveNew(id);
      nNew := nNew - 1;
      assert mapInfo[id].refCount == 0;
      var slot := TriedSlot(nKey, mapInfo[id].service);
      var taken := IsTaken(slot);
      if taken {
        EvictTried(slot, id);
      }
      assert slot !in tried;
      EnterTried(id);
    }

    method IsTaken(slot: Slot) returns (taken: bool)
      requires Rep() && 0 <= slot.bucket < TRIED_BUCKET_COUNT && 0 <= slot.pos < BUCKET_SIZE
      ensures taken <==> slot in tried
    {
      taken := vvTried[slot.bucket, slot.pos].Some?;
    }

    /** The search of Good_ from a random bucket on: finds one exactly when the entry is in some bucket. */
    method FindBucket(id: Id, rnd: nat) returns (bucket: int)
      requires Rep() && SlotsOk(St()) && id in mapInfo && rnd < NEW_BUCKET_COUNT
      ensures bucket == -1 <==> Refs(new_, id) == {}
    {
      hide Holds;
      for n := 0 to NEW_BUCKET_COUNT
        invariant forall slot :: slot in Refs(new_, id) ==> (slot.bucket + NEW_BUCKET_COUNT - rnd) % NEW_BUCKET_COUNT >= n
      {
        var b := (n + rnd) % NEW_BUCKET_COUNT;
        var here := IsAt(NewSlot(nKey, mapInfo[id].service, b), id);
        if here {
          assert NewSlot(nKey, mapInfo[id].service, b) in Refs(new_, id);
          return b;
        }
        forall slot | slot in Refs(new_, id) ensures (slot.bucket + NEW_BUCKET_COUNT - rnd) % NEW_BUCKET_COUNT >= n + 1 {
          Around(slot.bucket, n, rnd);
        }
      }
      assert Refs(new_, id) == {};
      bucket := -1;
    }

    /** Good_; rnd is the random bucket to start from. */
    method Good(sv: Service, time: int, rnd: nat)
      requires Rep() && Check(St()) && time > 0 && rnd < NEW_BUCKET_COUNT
      modifies this, vvNew, vvTried
      ensures Rep() && Check(St()) && St() == Spec.Good(old(St()), sv, time)
    {
      hide Holds, Consistent, Check, AddrOk, RandomOk, TriedOk, NewOk, CountsOk, TimesOk;
      hide Spec.MakeTried;
      ghost var s := St();
      Spec.GoodKeeps(s, sv, time);
      var found := Find(sv.ip);
      if found.None? || mapInfo[found.value].service != sv {
        return;
      }
      var id := found.value;
      Spec.SetStatsKeeps(s, id, s.info[id].(lastSuccess := time, lastTry := time, attempts := 0));
      mapInfo := mapInfo[id := mapInfo[id].(lastSuccess := time, lastTry := time, attempts := 0)];
      if mapInfo[id].inTried {
        return;
      }
      ReferencedSomewhere(St(), id);
      var bucket := FindBucket(id, rnd);
      if bucket == -1 {
        return;
      }
      MakeTried(id);
    }

    method Attempt(sv: Service, time: int)
      requires Rep() && Check(St()) && time >= 0
      modifies this`mapInfo
      ensures Rep() && Check(St()) && St() == Spec.Attempt(old(St()), sv, time)
    {
      hide Holds, Consistent, Check, AddrOk, RandomOk, TriedOk, NewOk, CountsOk, TimesOk;
      Spec.AttemptKeeps(St(), sv, time);
      var found := Find(sv.ip);
      if found.None? || mapInfo[found.value].service != sv {
        return;
      }
      var id := found.value;
      mapInfo := mapInfo[id := mapInfo[id].(lastTry := time, attempts := mapInfo[id].attempts + 1)];
    }

    method Connected(sv: Service, time: int)
      requires Rep() && Check(St()) && time >= 0
      modifies this`mapInfo
      ensures Rep() && Check(St()) && St() == Spec.Connected(old(St()), sv, time)
    {
      hide Holds, Consistent, Check, AddrOk, RandomOk, TriedOk, NewOk, CountsOk, TimesOk;
      Spec.AttemptKeeps(St(), sv, time);
      var found := Find(sv.ip);
      if found.None? || mapInfo[found.value].service != sv {
        return;
      }
      var id := found.value;
      if time - mapInfo[id].time > 20 * 60 {
        mapInfo := mapInfo[id := mapInfo[id].(time := time)];
      }
    }

    /** The second half of Add_. */
    method Place(id: Id, source: NetAddr, now: int)
      requires Rep() && id in mapInfo && !mapInfo[id].inTried
      requires Spec.Settled(St(), id, source) || Spec.Placeable(St(), id, source)
      requires var slot := Spec.SourceSlot(St(), id, source);
        slot in new_ ==> new_[slot] in mapInfo && mapInfo[new_[slot]].refCount > 0 && !mapInfo[new_[slot]].inTried
      modifies this, vvNew
      ensures Rep() && St() == Spec.Place(old(St()), id, source, now)
    {
      hide Holds, Mark, Spec.Clearable, Spec.ClearNew, Spec.Delete, Spec.Deletable, Spec.IsTerrible;
      ghost var s := St();
      var bucket := NewBucket(nKey, mapInfo[id].service, source);
      var slot := NewSlot(nKey, mapInfo[id].service, bucket);
      var occupant := NewAt(slot);
      if occupant != Some(id) {
        var insert := occupant.None?;
        if !insert {
          var existing := mapInfo[occupant.value];
          if Spec.IsTerrible(existing, now) || (existing.refCount > 1 && mapInfo[id].refCount == 0) {
            insert := true;
          }
        }
        if insert {
          ClearNew(slot);
          ClearNewSameService(s, slot, id);
          FillSlotSteps(St(), id, bucket);
          mapInfo := mapInfo[id := mapInfo[id].(refCount := mapInfo[id].refCount + 1)];
          SetNew(slot, Some(id));
        } else {
          if mapInfo[id].refCount == 0 {
            Delete(id);
          }
        }
      }
    }

    method NewAt(slot: Slot) returns (cell: Option<Id>)
      requires Rep() && 0 <= slot.bucket < NEW_BUCKET_COUNT && 0 <= slot.pos < BUCKET_SIZE
      ensures cell == if slot in new_ then Some(new_[slot]) else None
    {
      cell := vvNew[slot.bucket, slot.pos];
    }

    /** The dice of Add_: an entry with N references gains another with chance one in 2^N. */
    static method Dice(refCount: int, rnd: nat) returns (ok: bool)
      ensures ok <==> (refCount > 0 ==> rnd % Pow2(refCount) == 0)
    {
      var factor, n := 1, 0;
      while n < refCount
        invariant 0 <= n && (n <= refCount || n == 0) && factor == Pow2(n)
      {
        factor := factor * 2;
        n := n + 1;
      }
      ok := !(factor > 1 && rnd % factor != 0);
    }

    /** A known address is refreshed; tells whether it may be offered another bucket. */
    method Refresh(id: Id, a: Address, penalty: int, now: int, rnd: nat) returns (offered: bool)
      requires id in mapInfo
      modifies this`mapInfo
      ensures St() == Spec.SetInfo(old(St()), id, Spec.Refreshed(old(mapInfo)[id], a, penalty, now))
      ensures offered <==> Spec.Offered(mapInfo[id], a, rnd)
    {
      var online := now - a.time < 24 * 60 * 60;
      var interval := if online then 60 * 60 else 24 * 60 * 60;
      var i := mapInfo[id];
      if a.time != 0 && (i.time == 0 || i.time < a.time - interval - penalty) {
        i := i.(time := Spec.Max(0, a.time - penalty));
      }
      i := i.(services := i.services + a.services);
      mapInfo := mapInfo[id := i];
      if a.time == 0 || (i.time != 0 && a.time <= i.time) {
        return false;
      }
      if i.inTried {
        return false;
      }
      if i.refCount == NEW_BUCKETS_PER_ADDRESS {
        return false;
      }
      offered := Dice(i.refCount, rnd);
    }

    /** Add_ for an address that is known. */
    method AddKnown(id: Id, a: Address, source: NetAddr, penalty: int, now: int, rnd: nat)
      requires Rep() && Check(St()) && a.routable && a.service.ip in mapAddr && mapAddr[a.service.ip] == id && id in mapInfo
      modifies this, vvNew
      ensures Rep() && (St(), false) == Spec.Add(old(St()), a, source, penalty, now, rnd)
    {
      hide Holds, AddrOk, RandomOk, TriedOk, NewOk, CountsOk, TimesOk;
      hide Spec.Place, Spec.Placeable, Spec.Settled, Spec.Refreshed, Spec.Offered;
      ghost var s := St();
      Spec.RefreshKeeps(s, id, a, penalty, now);
      var offered := Refresh(id, a, penalty, now, rnd);
      if offered {
        Spec.OfferedRoom(St(), id, a, rnd);
        Spec.PlaceKnownKeeps(St(), id, source, now);
        ClearableHere(St(), {}, Spec.SourceSlot(St(), id, source));
        ClearableIn(St(), Spec.SourceSlot(St(), id, source));
        Place(id, source, now);
      }
    }

    /** Add_ for a new address. */
    method AddNew(a: Address, source: NetAddr, penalty: int, now: int, ghost rnd: nat)
      requires Rep() && Check(St()) && a.routable && a.service.ip !in mapAddr
      modifies this, vvNew
      ensures Rep() && (St(), true) == Spec.Add(old(St()), a, source, penalty, now, rnd)
    {
      hide Holds, AddrOk, RandomOk, TriedOk, NewOk, CountsOk, TimesOk;
      hide Spec.Place, Spec.Placeable, Spec.Settled, Spec.Refreshed, Spec.Offered, AddrTables.Create;
      ghost var s := St();
      Spec.CreatedKeeps(s, a, source, penalty);
      CreatedIn(s, a, source);
      var id := Create(a, source);
      mapInfo := mapInfo[id := mapInfo[id].(time := Spec.Max(0, mapInfo[id].time - penalty))];
      nNew := nNew + 1;
      assert St() == Spec.Created(s, a, source, penalty);
      ghost var u := St().(nNew := nNew - 1);
      Spec.LimboCount(u, {id}, id);
      Spec.PlaceNewKeeps(St(), id, source, now);
      ClearableHere(u, {id}, Spec.SourceSlot(St(), id, source));
      ClearableIn(u, Spec.SourceSlot(St(), id, source));
      Place(id, source, now);
    }

    /** Add_: penalty is nTimePenalty, now the adjusted time, rnd the random draw. */
    method Add(a: Address, source: NetAddr, penalty: int, now: int, rnd: nat) returns (added: bool)
      requires Rep() && Check(St())
      modifies this, vvNew
      ensures Rep() && Check(St()) && (St(), added) == Spec.Add(old(St()), a, source, penalty, now, rnd)
    {
      hide Holds, Consistent, AddrOk, RandomOk, TriedOk, NewOk, CountsOk, TimesOk;
      Spec.AddKeeps(St(), a, source, penalty, now, rnd);
      FindsKnown(St(), a.service.ip);
      added := false;
      if !a.routable {
        return;
      }
      var found := Find(a.service.ip);
      if found.Some? {
        hide Spec.Add;
        AddKnown(found.value, a, source, penalty, now, rnd);
      } else {
        hide Spec.Add;
        AddNew(a, source, penalty, now, rnd);
        added := true;
      }
    }

    /** GetAddr_: a random selection of entries worth passing on, while only vRandom is reordered. */
    method GetAddr(now: int) returns (list: seq<Info>, ghost pos: seq<int>)
      requires Rep() && Check(St())
      modifies this`mapInfo, this`vRandom
      ensures Rep() && Check(St()) && MovedOnly(old(mapInfo), mapInfo) && |vRandom| == old(|vRandom|)
      ensures Sampled(mapInfo, vRandom, now, list, pos, |vRandom|) && |list| <= GetAddrLimit(|vRandom|)
      ensures |list| < GetAddrLimit(|vRandom|) ==> forall k :: 0 <= k < |vRandom| && !Spec.IsTerrible(mapInfo[vRandom[k]], now) ==> k in pos
    {
      hide Holds, Consistent, AddrOk, TriedOk, NewOk, CountsOk, TimesOk, Spec.IsTerrible, MovedOnly, SampledAll;
      list, pos := [], [];
      MovedSelf(mapInfo);
      NoneSampled(St(), now);
      var limit := 23 * |vRandom| / 100;
      if limit > 2500 {
        limit := 2500;
      }
      var n := 0;
      while n < |vRandom| && |list| < limit
        invariant 0 <= n <= |vRandom| == old(|vRandom|)
        invariant Rep() && Check(St()) && MovedOnly(old(mapInfo), mapInfo)
        invariant SampledAll(mapInfo, vRandom, now, list, pos, n) && |list| <= limit
      {
        var k: nat :| n <= k < |vRandom|;
        SwapAhead(St(), now, list, pos, n, k);
        ghost var was := mapInfo;
        SwapRandom(n, k);
        MovedTwice(old(mapInfo), was, mapInfo);
        NextSampled(mapInfo, vRandom, now, list, pos, n);
        if !Spec.IsTerrible(mapInfo[vRandom[n]], now) {
          list := list + [mapInfo[vRandom[n]]];
          pos := pos + [n];
        }
        n := n + 1;
      }
      SampleFacts(mapInfo, vRandom, now, list, pos, n);
    }
  }

  // -------------------------------------------------------------------- runs

  /** The public operations, with the clock and the dice as parameters. */
  datatype Op =
    | OpAdd(a: Address, source: NetAddr, penalty: int, now: int, rnd: nat)
    | OpGood(sv: Service, time: int, bucket: nat)
    | OpAttempt(sv: Service, time: int)
    | OpConnected(sv: Service, time: int)
    | OpGetAddr(now: int)

  /** Times come from a clock after 1970; the random bucket is in range. */
  predicate Sane(op: Op) {
    match op
    case OpGood(_, time, bucket) => time > 0 && bucket < NEW_BUCKET_COUNT
    case OpAttempt(_, time) => time >= 0
    case OpConnected(_, time) => time >= 0
    case _ => true
  }

  /**
    Every run from a new manager keeps the key and everything else that Check_ tests, and no assertion
    on the way fails.
  */
  method Run(key: Key, ops: seq<Op>) returns (m: AddrMan)
    requires forall i :: 0 <= i < |ops| ==> Sane(ops[i])
    ensures m.Rep() && Check(m.St()) && m.nKey == key
  {
    m := new AddrMan(key);
    EmptyChecks(key);
    hide Holds, Consistent, Spec.Add, Spec.Good, Spec.Attempt, Spec.Connected, MovedOnly, Sampled;
    for i := 0 to |ops|
      invariant m.Rep() && Check(m.St()) && m.St().key == key && fresh(m) && fresh(m.vvNew) && fresh(m.vvTried)
    {
      assert Sane(ops[i]);
      match ops[i] {
        case OpAdd(a, source, penalty, now, rnd) =>
          Spec.AddKeepsKey(m.St(), a, source, penalty, now, rnd);
          var _ := m.Add(a, source, penalty, now, rnd);
        case OpGood(sv, time, bucket) =>
          Spec.GoodKeepsKey(m.St(), sv, time);
          m.Good(sv, time, bucket);
        case OpAttempt(sv, time) =>
          Spec.AttemptKeepsKey(m.St(), sv, time);
          m.Attempt(sv, time);
        case OpConnected(sv, time) =>
          Spec.AttemptKeepsKey(m.St(), sv, time);
          m.Connected(sv, time);
        case OpGetAddr(now) => var _, _ := m.GetAddr(now);
      }
    }
  }

  /** How many entries GetAddr_ may return. */
  function GetAddrLimit(size: nat): (r: int) {
    if 23 * size / 100 > 2500 then 2500 else 23 * size / 100
  }

  /** The list holds entries at increasing positions below a bound, none of them terrible. */
  ghost predicate Sampled(info: map<Id, Info>, random: seq<Id>, now: int, list: seq<Info>, pos: seq<int>, bound: int) {
    && |list| == |pos| && bound <= |random|
    && (forall k :: 0 <= k < |random| ==> random[k] in info)
    && (forall i, j :: 0 <= i < j < |pos| ==> pos[i] < pos[j])
    && (forall i :: 0 <= i < |pos| ==>
          0 <= pos[i] < bound && list[i] == info[random[pos[i]]] && !Spec.IsTerrible(list[i], now))
  }

  lemma MovedSelf(info: map<Id, Info>)
    ensures MovedOnly(info, info)
  {
  }

  lemma MovedTwice(a: map<Id, Info>, b: map<Id, Info>, c: map<Id, Info>)
    requires MovedOnly(a, b) && MovedOnly(b, c)
    ensures MovedOnly(a, c)
  {
  }

  /** ... and none below the bound is missing. */
  ghost predicate SampledAll(info: map<Id, Info>, random: seq<Id>, now: int, list: seq<Info>, pos: seq<int>, n: int) {
    && Sampled(info, random, now, list, pos, n)
    && forall k :: 0 <= k < n && !Spec.IsTerrible(info[random[k]], now) ==> k in pos
  }

  lemma NoneSampled(s: State, now: int)
    requires Check(s)
    ensures SampledAll(s.info, s.random, now, [], [], 0)
  {
  }

  lemma NextSampled(info: map<Id, Info>, random: seq<Id>, now: int, list: seq<Info>, pos: seq<int>, n: int)
    requires SampledAll(info, random, now, list, pos, n) && 0 <= n < |random|
    ensures random[n] in info
    ensures if Spec.IsTerrible(info[random[n]], now) then SampledAll(info, random, now, list, pos, n + 1)
            else SampledAll(info, random, now, list + [info[random[n]]], pos + [n], n + 1)
  {
    hide Spec.IsTerrible;
  }

  lemma SampleFacts(info: map<Id, Info>, random: seq<Id>, now: int, list: seq<Info>, pos: seq<int>, n: int)
    requires SampledAll(info, random, now, list, pos, n) && 0 <= n <= |random|
    ensures Sampled(info, random, now, list, pos, |random|)
    ensures n == |random| ==> forall k :: 0 <= k < |random| && !Spec.IsTerrible(info[random[k]], now) ==> k in pos
  {
    hide Spec.IsTerrible;
  }

  /** Swapping two positions leaves the ones before them alone. */
  lemma SwapBehind(s: State, n: int, k: int)
    requires Check(s) && 0 <= n <= k < |s.random|
    ensures s.random[n] in s.info && s.random[k] in s.info
    ensures var t := SwapRandom(s, n, k);
      && Check(t) && MovedOnly(s.info, t.info) && |t.random| == |s.random|
      && (forall i :: 0 <= i < |t.random| ==> t.random[i] in t.info)
      && forall i :: 0 <= i < n ==> t.random[i] == s.random[i] && s.random[i] in s.info && t.info[t.random[i]] == s.info[s.random[i]]
  {
    hide AddrOk, TriedOk, NewOk, CountsOk, TimesOk;
    SwapKeeps(s, {}, n, k);
    var t := SwapRandom(s, n, k);
    forall i | 0 <= i < n ensures t.random[i] == s.random[i] && s.random[i] in s.info && t.info[t.random[i]] == s.info[s.random[i]] {
      assert s.random[i] != s.random[n] && s.random[i] != s.random[k];
    }
  }

  /** ... and so the sample taken from them. */
  lemma SwapAhead(s: State, now: int, list: seq<Info>, pos: seq<int>, n: int, k: int)
    requires Check(s) && 0 <= n <= k < |s.random| && SampledAll(s.info, s.random, now, list, pos, n)
    ensures s.random[n] in s.info && s.random[k] in s.info
    ensures var t := SwapRandom(s, n, k);
      Check(t) && MovedOnly(s.info, t.info) && SampledAll(t.info, t.random, now, list, pos, n)
  {
    hide Consistent, Spec.IsTerrible, MovedOnly;
    SwapBehind(s, n, k);
    hide AddrTables.SwapRandom;
  }

  lemma FindsKnown(s: State, ip: NetAddr)
    requires Check(s)
    ensures ip in s.addr ==> s.addr[ip] in s.info
  {
  }

  lemma ClearableIn(s: State, slot: Slot)
    requires Spec.Clearable(s, slot)
    ensures slot in s.new_ ==> s.new_[slot] in s.info
  {
  }

  lemma CreatedIn(s: State, a: Address, source: NetAddr)
    ensures Id(s.idCount) in Create(s, a, source).info
  {
  }

  lemma ClearNewSameService(s: State, slot: Slot, id: Id)
    requires Spec.Clearable(s, slot) && id in Spec.ClearNew(s, slot).info
    ensures Spec.ClearNew(s, slot).info[id].service == s.info[id].service && Spec.ClearNew(s, slot).key == s.key
  {
  }

  lemma FillSlotSteps(s: State, id: Id, b: int)
    requires id in s.info
    ensures FillSlot(s, id, b) ==
      s.(info := s.info[id := s.info[id].(refCount := s.info[id].refCount + 1)], new_ := s.new_[NewSlot(s.key, s.info[id].service, b) := id])
  {
  }

  /** Going round from rnd, step n reaches exactly one bucket. */
  lemma Around(b: int, n: int, rnd: nat)
    requires 0 <= b < NEW_BUCKET_COUNT && 0 <= n < NEW_BUCKET_COUNT && rnd < NEW_BUCKET_COUNT
    ensures (b + NEW_BUCKET_COUNT - rnd) % NEW_BUCKET_COUNT == n <==> b == (n + rnd) % NEW_BUCKET_COUNT
  {
  }

  lemma FromTriedIs(s: State, slot: Slot)
    requires slot in s.tried && s.tried[slot] in s.info
    ensures FromTried(s, slot) ==
      s.(info := s.info[s.tried[slot] := s.info[s.tried[slot]].(inTried := false)], tried := s.tried - {slot}, nTried := s.nTried - 1)
  {
  }

  lemma FillSlotIs(s: State, id: Id, b: int)
    requires id in s.info && s.info[id].refCount == 0
    ensures FillSlot(s, id, b) ==
      s.(info := s.info[id := s.info[id].(refCount := 1)], new_ := s.new_[NewSlot(s.key, s.info[id].service, b) := id])
  {
  }

  lemma ToTriedIs(s: State, id: Id)
    requires id in s.info
    ensures ToTried(s, id) ==
      s.(info := s.info[id := s.info[id].(inTried := true)], tried := s.tried[TriedSlot(s.key, s.info[id].service) := id], nTried := s.nTried + 1)
  {
  }

  /** ClearNew may be called on any slot of a consistent table. */
  lemma ClearableHere(s: State, limbo: set<Id>, slot: Slot)
    requires Consistent(s, limbo)
    ensures Spec.Clearable(s, slot)
    ensures slot in s.new_ ==> s.info[s.new_[slot]].refCount > 0 && !s.info[s.new_[slot]].inTried
  {
    Spec.ClearNewKeeps(s, limbo, slot);
    if slot in s.new_ {
      ClearSlotKeeps(s, limbo, slot);
    }
  }

  lemma CountHere(s: State, id: Id)
    requires Check(s) && id in s.info && !s.info[id].inTried
    ensures SlotsOk(s) && s.info[id].refCount == |Refs(s.new_, id)|
  {
  }

  lemma ReferencedSomewhere(s: State, id: Id)
    requires Check(s) && id in s.info && !s.info[id].inTried
    ensures SlotsOk(s) && Refs(s.new_, id) != {}
  {
  }

  /** The new table after an entry has left the buckets below a bound. */
  function LeftTable(table: Table, id: Id, bound: int): (r: Table) {
    map slot | slot in table && (table[slot] == id ==> slot.bucket >= bound) :: table[slot]
  }

  ghost function Left(s: State, id: Id, bound: int): (r: State)
    requires id in s.info
  {
    var table := LeftTable(s.new_, id, bound);
    s.(info := s.info[id := s.info[id].(refCount := |Refs(table, id)|)], new_ := table)
  }

  lemma LeftStart(s: State, id: Id)
    requires SlotsOk(s) && id in s.info && s.info[id].refCount == |Refs(s.new_, id)|
    ensures Left(s, id, 0) == s
  {
    assert LeftTable(s.new_, id, 0) == s.new_;
  }

  lemma LeftTableStep(table: Table, id: Id, bucket: int, slot: Slot)
    requires slot.bucket == bucket && forall k :: k in table && table[k] == id && k.bucket == bucket ==> k == slot
    ensures var a, b := LeftTable(table, id, bucket), LeftTable(table, id, bucket + 1);
      if slot in a && a[slot] == id
      then b == a - {slot} && |Refs(b, id)| == |Refs(a, id)| - 1
      else b == a
  {
    var a, b := LeftTable(table, id, bucket), LeftTable(table, id, bucket + 1);
    if slot in a && a[slot] == id {
      assert b == a - {slot};
      RefsCleared(a, slot, id);
      assert slot in Refs(a, id);
    } else {
      assert b == a;
    }
  }

  lemma LeftStep(s: State, id: Id, bucket: int)
    requires SlotsOk(s) && id in s.info && 0 <= bucket < NEW_BUCKET_COUNT
    ensures var a, b := Left(s, id, bucket), Left(s, id, bucket + 1);
      var slot := NewSlot(s.key, s.info[id].service, bucket);
      if slot in a.new_ && a.new_[slot] == id
      then b == a.(new_ := a.new_ - {slot}, info := a.info[id := a.info[id].(refCount := a.info[id].refCount - 1)])
      else b == a
  {
    hide LeftTable, Refs;
    LeftTableStep(s.new_, id, bucket, NewSlot(s.key, s.info[id].service, bucket));
  }

  lemma LeftEnd(s: State, id: Id)
    requires SlotsOk(s) && id in s.info
    ensures Left(s, id, NEW_BUCKET_COUNT) == DropRefs(s, id)
  {
    var table := LeftTable(s.new_, id, NEW_BUCKET_COUNT);
    assert table == map slot | slot in s.new_ && s.new_[slot] != id :: s.new_[slot];
    assert Refs(table, id) == {};
  }
}
