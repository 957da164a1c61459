/**
  CAddrMan::Serialize and Unserialize on the manager itself, loop by loop.
*/
module AddrManIO {
  import opened Primitives
  import opened AddrTables
  import opened AddrCodec
  import opened AddrManager

  // --------------------------------------------------------------- Serialize

  /** The list holds the stored form of these entries. */
  ghost predicate Written(info: map<Id, Info>, ids: seq<Id>, list: seq<Stored>) {
    && |list| == |ids|
    && forall i :: 0 <= i < |list| ==> ids[i] in info && list[i] == Store(info[ids[i]])
  }

  lemma WrittenIs(info: map<Id, Info>, ids: seq<Id>, list: seq<Stored>)
    requires Written(info, ids, list) && forall i :: 0 <= i < |ids| ==> ids[i] in info
    ensures list == StoreAll(info, ids)
  {
  }

  /** The first loop over mapInfo; ids is mapUnkIds. */
  method WriteNew(m: AddrMan) returns (list: seq<Stored>, ids: map<Id, int>)
    requires Sorted(m.mapInfo, m.nIdCount) && |NewSeq(m.mapInfo, m.nIdCount)| == m.nNew
    ensures Written(m.mapInfo, NewSeq(m.mapInfo, m.nIdCount), list)
    ensures forall id :: id in m.mapInfo ==> id in ids && ids[id] == UnkId(m.mapInfo, id)
  {
    hide Ranked, Sorted;
    list, ids := [], map[];
    RankStart(m.mapInfo, ids);
    for n := 0 to m.nIdCount
      invariant Written(m.mapInfo, NewSeq(m.mapInfo, n), list)
      invariant Ranked(m.mapInfo, ids, n)
    {
      NewSeqShorter(m.mapInfo, n + 1, m.nIdCount);
      RankStep(m.mapInfo, ids, n);
      if Id(n) in m.mapInfo {
        ids := ids[Id(n) := |list|];
        var info := m.mapInfo[Id(n)];
        if info.refCount != 0 {
          assert |list| != m.nNew;
          list := list + [Store(info)];
        }
      }
    }
    RankEnd(m.mapInfo, ids, m.nIdCount);
  }

  /** mapUnkIds is right for the ids below n. */
  ghost predicate Ranked(info: map<Id, Info>, ids: map<Id, int>, n: nat) {
    forall id :: id in info && id.n < n ==> id in ids && ids[id] == UnkId(info, id)
  }

  lemma RankStart(info: map<Id, Info>, ids: map<Id, int>)
    ensures Ranked(info, ids, 0)
  {
  }

  lemma RankStep(info: map<Id, Info>, ids: map<Id, int>, n: nat)
    requires Ranked(info, ids, n)
    ensures Id(n) in info ==> Ranked(info, ids[Id(n) := |NewSeq(info, n)|], n + 1)
    ensures Id(n) !in info ==> Ranked(info, ids, n + 1)
  {
    hide NewSeq;
    assert forall id: Id :: id.n == n ==> id == Id(n);
  }

  lemma RankEnd(info: map<Id, Info>, ids: map<Id, int>, n: nat)
    requires Ranked(info, ids, n) && Sorted(info, n)
    ensures forall id :: id in info ==> id in ids && ids[id] == UnkId(info, id)
  {
    hide NewSeq;
  }

  /** The second loop over mapInfo. */
  method WriteTried(m: AddrMan) returns (list: seq<Stored>)
    requires |TriedSeq(m.mapInfo, m.nIdCount)| == m.nTried
    ensures Written(m.mapInfo, TriedSeq(m.mapInfo, m.nIdCount), list)
  {
    list := [];
    for n := 0 to m.nIdCount
      invariant Written(m.mapInfo, TriedSeq(m.mapInfo, n), list)
    {
      TriedSeqShorter(m.mapInfo, n + 1, m.nIdCount);
      if Id(n) in m.mapInfo {
        var info := m.mapInfo[Id(n)];
        if info.inTried {
          assert |list| != m.nTried;
          list := list + [Store(info)];
        }
      }
    }
  }

  lemma {:induction false} NewSeqShorter(info: map<Id, Info>, k: nat, n: nat)
    requires k <= n
    ensures |NewSeq(info, k)| <= |NewSeq(info, n)|
  {
    if k < n {
      NewSeqShorter(info, k, n - 1);
    }
  }

  lemma {:induction false} TriedSeqShorter(info: map<Id, Info>, k: nat, n: nat)
    requires k <= n
    ensures |TriedSeq(info, k)| <= |TriedSeq(info, n)|
  {
    if k < n {
      TriedSeqShorter(info, k, n - 1);
    }
  }

  /** One bucket: its entries' indexes, in slot order. */
  method WriteBucket(m: AddrMan, b: int, ids: map<Id, int>) returns (list: seq<int>)
    requires m.Rep() && SlotsOk(m.St()) && 0 <= b < NEW_BUCKET_COUNT
    requires forall id :: id in m.mapInfo ==> id in ids && ids[id] == UnkId(m.mapInfo, id)
    ensures list == BucketList(m.St(), b, BUCKET_SIZE)
  {
    hide Holds;
    list := [];
    for i := 0 to BUCKET_SIZE
      invariant list == BucketList(m.St(), b, i)
    {
      var cell := m.NewAt(Slot(b, i));
      if cell.Some? {
        assert m.new_[Slot(b, i)] in m.mapInfo;
        list := list + [ids[cell.value]];
      }
    }
  }

  method WriteBuckets(m: AddrMan, ids: map<Id, int>) returns (buckets: seq<seq<int>>)
    requires m.Rep() && SlotsOk(m.St())
    requires forall id :: id in m.mapInfo ==> id in ids && ids[id] == UnkId(m.mapInfo, id)
    ensures |buckets| == NEW_BUCKET_COUNT && forall b :: 0 <= b < |buckets| ==> buckets[b] == BucketList(m.St(), b, BUCKET_SIZE)
  {
    hide Holds, SlotsOk, BucketList;
    buckets := [];
    for b := 0 to NEW_BUCKET_COUNT
      invariant |buckets| == b && forall k :: 0 <= k < b ==> buckets[k] == BucketList(m.St(), k, BUCKET_SIZE)
    {
      var list := WriteBucket(m, b, ids);
      buckets := buckets + [list];
    }
  }

  method Serialize(m: AddrMan) returns (img: Image)
    requires m.Rep() && Check(m.St())
    ensures img == Save(m.St())
  {
    hide Holds, Consistent, SlotsOk, BucketList, Written;
    ghost var s := m.St();
    OrderLists(s);
    CheckSorts(s);
    CheckSlots(s);
    NewSeqIn(s.info, s.idCount);
    TriedSeqFacts(s.info, s.idCount);
    var news, ids := WriteNew(m);
    WrittenIs(s.info, NewSeq(s.info, s.idCount), news);
    var trieds := WriteTried(m);
    WrittenIs(s.info, TriedSeq(s.info, s.idCount), trieds);
    var buckets := WriteBuckets(m, ids);
    img := Image(1, m.nKey, m.nNew, m.nTried, FlipBit30(NEW_BUCKET_COUNT), news, trieds, buckets);
    assert buckets == Save(s).buckets;
  }

  lemma CheckSlots(s: State)
    requires Check(s)
    ensures SlotsOk(s)
  {
  }

  // ------------------------------------------------------------- Unserialize

  method ReadNew(m: AddrMan, st: Stored, usable: bool)
    requires m.Rep()
    modifies m, m.vvNew
    ensures m.Rep() && m.St() == LoadNew(old(m.St()), st, usable)
  {
    hide Holds;
    var n := Id(|m.vRandom|);
    m.mapInfo := m.mapInfo[n := Load(st, false, -1)];
    m.mapAddr := m.mapAddr[st.service.ip := n];
    m.mapInfo := m.mapInfo[n := m.mapInfo[n].(randomPos := |m.vRandom|)];
    m.vRandom := m.vRandom + [n];
    if !usable {
      var slot := NewSlot(m.nKey, st.service, NewBucket(m.nKey, st.service, st.source));
      var cell := m.NewAt(slot);
      if cell.None? {
        m.SetNew(slot, Some(n));
        m.mapInfo := m.mapInfo[n := m.mapInfo[n].(refCount := m.mapInfo[n].refCount + 1)];
      }
    }
  }

  /** One tried entry; lost tells that its slot was taken. */
  method ReadTried(m: AddrMan, st: Stored) returns (lost: bool)
    requires m.Rep()
    modifies m, m.vvTried
    ensures m.Rep()
    ensures LoadTried(old(m.St()), st) == if lost then m.St().(nTried := m.nTried - 1) else m.St()
  {
    hide Holds;
    var slot := TriedSlot(m.nKey, st.service);
    lost := m.IsTaken(slot);
    if !lost {
      var id := Id(m.nIdCount);
      var info := Load(st, true, |m.vRandom|);
      m.vRandom := m.vRandom + [id];
      m.mapInfo := m.mapInfo[id := info];
      m.mapAddr := m.mapAddr[st.service.ip := id];
      m.SetTried(slot, Some(id));
      m.nIdCount := m.nIdCount + 1;
    }
  }

  method ReadRef(m: AddrMan, b: int, index: int, nNew: int, usable: bool)
    requires m.Rep() && (usable ==> 0 <= b < NEW_BUCKET_COUNT)
    modifies m, m.vvNew
    ensures m.Rep() && m.St() == LoadRef(old(m.St()), b, index, nNew, usable)
  {
    hide Holds;
    if 0 <= index < nNew && Id(index) in m.mapInfo {
      var info := m.mapInfo[Id(index)];
      if usable {
        var slot := NewSlot(m.nKey, info.service, b);
        var cell := m.NewAt(slot);
        if cell.None? && info.refCount < NEW_BUCKETS_PER_ADDRESS {
          m.mapInfo := m.mapInfo[Id(index) := info.(refCount := info.refCount + 1)];
          m.SetNew(slot, Some(Id(index)));
        }
      }
    }
  }

  method ReadNews(m: AddrMan, img: Image)
    requires m.Rep() && m.St() == Empty(m.nKey) && Complete(img)
    modifies m, m.vvNew
    ensures m.Rep()
    ensures m.St() == LoadNews(Empty(img.key).(nNew := img.nNew, nTried := img.nTried), img.newInfos, img.nNew, Usable(img)).(idCount := img.nNew)
  {
    hide Holds, LoadNew;
    m.nKey := img.key;
    m.nNew := img.nNew;
    m.nTried := img.nTried;
    ghost var t := m.St();
    for n := 0 to img.nNew
      invariant m.Rep() && m.St() == LoadNews(t, img.newInfos, n, Usable(img))
    {
      ReadNew(m, img.newInfos[n], Usable(img));
    }
    m.nIdCount := img.nNew;
  }

  method ReadTrieds(m: AddrMan, img: Image)
    requires m.Rep() && Complete(img)
    modifies m, m.vvTried
    ensures m.Rep() && m.St() == LoadTrieds(old(m.St()), img.triedInfos, |img.triedInfos|)
  {
    hide Holds, LoadTried;
    ghost var t := m.St();
    var nLost := 0;
    for n := 0 to |img.triedInfos|
      invariant m.Rep() && m.St().(nTried := m.nTried - nLost) == LoadTrieds(t, img.triedInfos, n)
    {
      LoadTriedShift(m.St(), img.triedInfos[n], nLost);
      var lost := ReadTried(m, img.triedInfos[n]);
      if lost {
        nLost := nLost + 1;
      }
    }
    m.nTried := m.nTried - nLost;
  }

  lemma LoadTriedShift(t: State, st: Stored, k: int)
    ensures LoadTried(t.(nTried := t.nTried - k), st) == LoadTried(t, st).(nTried := LoadTried(t, st).nTried - k)
  {
  }

  method ReadBuckets(m: AddrMan, img: Image)
    requires m.Rep() && Complete(img)
    modifies m, m.vvNew
    ensures m.Rep() && m.St() == LoadBuckets(old(m.St()), img.buckets, |img.buckets|, img.nNew, Usable(img))
  {
    hide Holds, LoadRef;
    ghost var t := m.St();
    for b := 0 to |img.buckets|
      invariant m.Rep() && m.St() == LoadBuckets(t, img.buckets, b, img.nNew, Usable(img))
    {
      ghost var u := m.St();
      var list := img.buckets[b];
      for n := 0 to |list|
        invariant m.Rep() && m.St() == LoadBucket(u, b, list[..n], img.nNew, Usable(img))
      {
        assert list[..n + 1][..n] == list[..n];
        ReadRef(m, b, list[n], img.nNew, Usable(img));
      }
      assert list[..|list|] == list;
    }
  }

  /** Nobody refers to this entry. */
  predicate Prunable(t: State, id: Id) {
    id in t.info && !t.info[id].inTried && t.info[id].refCount == 0
  }

  /** The pruning loop up to id n. */
  ghost function Prune(t: State, n: nat): (r: State)
    requires RandomOk(t)
    ensures RandomOk(r)
  {
    if n == 0 then t
    else
      var u := Prune(t, n - 1);
      if Prunable(u, Id(n - 1)) then DeleteRandom(u, Id(n - 1)); Spec.Delete(u, Id(n - 1)) else u
  }

  lemma DeleteRandom(s: State, id: Id)
    requires RandomOk(s) && id in s.info
    ensures Spec.Deletable(s, id) && RandomOk(Spec.Delete(s, id))
  {
    hide RandomOk;
    Spec.LastPosition(s, id);
    var t := SwapRandom(s, s.info[id].randomPos, |s.random| - 1);
    SwapRandomOk(s, s.info[id].randomPos, |s.random| - 1);
    RemoveRandom(t, id);
    RandomCounter(Remove(t, id), s.nNew - 1);
  }

  lemma RandomCounter(s: State, n: int)
    requires RandomOk(s)
    ensures RandomOk(s.(nNew := n))
  {
  }

  method PruneLoop(m: AddrMan)
    requires m.Rep() && RandomOk(m.St())
    modifies m
    ensures m.Rep() && m.St() == Prune(old(m.St()), old(m.nIdCount))
  {
    hide Holds, RandomOk, Spec.Delete, Spec.Deletable;
    ghost var t := m.St();
    for n := 0 to m.nIdCount
      invariant m.Rep() && m.St() == Prune(t, n) && RandomOk(m.St())
    {
      if Id(n) in m.mapInfo && !m.mapInfo[Id(n)].inTried && m.mapInfo[Id(n)].refCount == 0 {
        DeleteRandom(m.St(), Id(n));
        m.Delete(Id(n));
      }
    }
  }

  /** Ids are dealt out in the order of vRandom. */
  ghost predicate InLine(info: map<Id, Info>, random: seq<Id>) {
    && (forall i :: 0 <= i < |random| ==> random[i] == Id(i) && Id(i) in info && info[Id(i)].randomPos == i)
    && (forall id :: id in info ==> id.n < |random|)
  }

  lemma InLineRandom(t: State)
    requires InLine(t.info, t.random)
    ensures RandomOk(t)
  {
    forall id | id in t.info ensures 0 <= t.info[id].randomPos < |t.random| && t.random[t.info[id].randomPos] == id {
      assert t.random[id.n] == Id(id.n) == id;
    }
  }

  lemma AppendInLine(info: map<Id, Info>, random: seq<Id>, i: Info)
    requires InLine(info, random) && i.randomPos == |random|
    ensures InLine(info[Id(|random|) := i], random + [Id(|random|)])
  {
  }

  lemma UpdateInLine(info: map<Id, Info>, random: seq<Id>, id: Id, i: Info)
    requires InLine(info, random) && id in info && i.randomPos == info[id].randomPos
    ensures InLine(info[id := i], random)
  {
  }

  lemma {:induction false} NewsInLine(t: State, infos: seq<Stored>, k: nat, usable: bool)
    requires k <= |infos| && InLine(t.info, t.random)
    ensures var u := LoadNews(t, infos, k, usable); InLine(u.info, u.random) && |u.random| == |t.random| + k
  {
    hide InLine;
    if k > 0 {
      NewsInLine(t, infos, k - 1, usable);
      var u := LoadNews(t, infos, k - 1, usable);
      var i := Load(infos[k - 1], false, |u.random|);
      AppendInLine(u.info, u.random, i);
      UpdateInLine(u.info[Id(|u.random|) := i], u.random + [Id(|u.random|)], Id(|u.random|), i.(refCount := 1));
    }
  }

  lemma {:induction false} TriedsInLine(t: State, infos: seq<Stored>, k: nat)
    requires k <= |infos| && InLine(t.info, t.random) && t.idCount == |t.random|
    ensures var u := LoadTrieds(t, infos, k); InLine(u.info, u.random) && u.idCount == |u.random|
  {
    hide InLine;
    if k > 0 {
      TriedsInLine(t, infos, k - 1);
      var u := LoadTrieds(t, infos, k - 1);
      AppendInLine(u.info, u.random, Load(infos[k - 1], true, |u.random|));
    }
  }

  lemma {:induction false} BucketInLine(t: State, b: int, list: seq<int>, nNew: int, usable: bool)
    requires InLine(t.info, t.random)
    ensures var u := LoadBucket(t, b, list, nNew, usable); InLine(u.info, u.random)
    decreases |list|
  {
    hide InLine;
    if list != [] {
      BucketInLine(t, b, list[..|list| - 1], nNew, usable);
      var u := LoadBucket(t, b, list[..|list| - 1], nNew, usable);
      var id := Id(if list[|list| - 1] < 0 then 0 else list[|list| - 1]);
      if id in u.info {
        UpdateInLine(u.info, u.random, id, u.info[id].(refCount := u.info[id].refCount + 1));
      }
    }
  }

  lemma {:induction false} BucketsInLine(t: State, lists: seq<seq<int>>, k: nat, nNew: int, usable: bool)
    requires k <= |lists| && InLine(t.info, t.random)
    ensures var u := LoadBuckets(t, lists, k, nNew, usable); InLine(u.info, u.random)
  {
    hide InLine, LoadBucket;
    if k > 0 {
      BucketsInLine(t, lists, k - 1, nNew, usable);
      BucketInLine(LoadBuckets(t, lists, k - 1, nNew, usable), k - 1, lists[k - 1], nNew, usable);
    }
  }

  /** Whatever is read, vRandom and the positions in it are inverse before pruning. */
  lemma RebuiltRandom(img: Image)
    requires Complete(img)
    ensures RandomOk(Rebuild(img))
  {
    hide LoadNews, LoadTrieds, LoadBuckets, RandomOk;
    var t0 := Empty(img.key).(nNew := img.nNew, nTried := img.nTried);
    NewsInLine(t0, img.newInfos, img.nNew, Usable(img));
    hide InLine;
    var t1 := LoadNews(t0, img.newInfos, img.nNew, Usable(img));
    TriedsInLine(t1.(idCount := img.nNew), img.triedInfos, img.nTried);
    BucketsInLine(Entries(img), img.buckets, |img.buckets|, img.nNew, Usable(img));
    InLineRandom(Rebuild(img));
  }

  /** CAddrMan::Unserialize into a new manager. */
  method Unserialize(m: AddrMan, img: Image)
    requires m.Rep() && m.St() == Empty(m.nKey) && Complete(img)
    modifies m, m.vvNew, m.vvTried
    ensures m.Rep() && RandomOk(Rebuild(img)) && m.St() == Prune(Rebuild(img), Rebuild(img).idCount)
  {
    hide Holds, RandomOk, Prune, LoadNews, LoadTrieds, LoadBuckets;
    ReadNews(m, img);
    ReadTrieds(m, img);
    ReadBuckets(m, img);
    RebuiltRandom(img);
    PruneLoop(m);
  }

  lemma {:induction false} NothingToPrune(t: State, n: nat)
    requires RandomOk(t) && forall id :: id in t.info ==> !Prunable(t, id)
    ensures Prune(t, n) == t
  {
    if n > 0 {
      NothingToPrune(t, n - 1);
    }
  }

  lemma CheckedIsUnprunable(t: State)
    requires Check(t)
    ensures RandomOk(t) && forall id :: id in t.info ==> !Prunable(t, id)
  {
  }

  /** Writing a manager and reading the image into a new one loses nothing and keeps the invariant. */
  method Reload(m: AddrMan, key: Key) returns (n: AddrMan)
    requires m.Rep() && Check(m.St())
    ensures n.Rep() && Check(n.St()) && SameUpToIds(m.St(), n.St(), Order(m.St()))
  {
    hide Holds, Consistent, RandomOk, Rebuild, Save, Order, SameUpToIds, Prune;
    var img := Serialize(m);
    ghost var s := m.St();
    RoundTrip(s);
    RebuiltChecks(s);
    CheckedIsUnprunable(Rebuild(img));
    n := new AddrMan(key);
    Unserialize(n, img);
    NothingToPrune(Rebuild(img), Rebuild(img).idCount);
  }
}
