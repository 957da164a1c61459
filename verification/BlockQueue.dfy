/**
  Which blocks are wanted from which peer: per-peer lists with counters, and the global maps
  that say where a block is listed (src/main.cpp).  A stored list iterator is the list entry
  with the block's hash.
*/
module BlockQueue {
  import opened Primitives

  const MAX_BLOCKS_IN_TRANSIT_PER_PEER: int := 128

  datatype NodeId = NodeId(n: int)

  datatype QueuedBlock = QueuedBlock(hash: Hash, validatedHeaders: bool, validatedBefore: int)

  /** The download part of CNodeState. */
  datatype NodeState = NodeState(inFlight: seq<QueuedBlock>, nInFlight: int, toDownload: seq<Hash>, nToDownload: int)

  const NEW_NODE := NodeState([], 0, [], 0)

  function Names(list: seq<QueuedBlock>): (r: seq<Hash>)
    ensures |r| == |list| && forall i :: 0 <= i < |list| ==> r[i] == list[i].hash
  {
    seq(|list|, i requires 0 <= i < |list| => list[i].hash)
  }

  predicate Distinct(s: seq<Hash>) { forall i, j :: 0 <= i < j < |s| ==> s[i] != s[j] }

  /** The position of a hash in a list, or its length. */
  function Find(s: seq<Hash>, h: Hash): (r: nat)
    ensures r <= |s| && (r < |s| ==> s[r] == h) && (r == |s| <==> h !in s)
  {
    if s == [] || s[0] == h then 0
    else
      assert s == [s[0]] + s[1..];
      1 + Find(s[1..], h)
  }

  function Without<T>(s: seq<T>, i: nat): (r: seq<T>) {
    if i < |s| then s[..i] + s[i + 1..] else s
  }

  lemma WithoutNames(list: seq<QueuedBlock>, i: nat)
    ensures Names(Without(list, i)) == Without(Names(list), i)
  {
  }

  function Elems(s: seq<Hash>): (r: set<Hash>) { set h | h in s }

  /** The blocks of a list whose headers were validated. */
  function Marked(list: seq<QueuedBlock>): (r: set<Hash>) {
    set i | 0 <= i < |list| && list[i].validatedHeaders :: list[i].hash
  }

  /** Removing one hash leaves the others, once each. */
  lemma WithoutHash(s: seq<Hash>, h: Hash)
    requires Distinct(s) && h in s
    ensures var t := Without(s, Find(s, h)); Distinct(t) && Elems(t) == Elems(s) - {h} && |t| == |s| - 1
  {
    var i := Find(s, h);
    hide Find;
    var t := Without(s, i);
    forall k | 0 <= k < |t| ensures t[k] == s[if k < i then k else k + 1] {
    }
    hide Without;
    forall x ensures x in t <==> x in s && x != h {
      if x in s && x != h {
        var k :| 0 <= k < |s| && s[k] == x;
        assert t[if k < i then k else k - 1] == x;
      }
    }
  }

  lemma WithoutMarked(list: seq<QueuedBlock>, h: Hash)
    requires Distinct(Names(list)) && h in Names(list)
    ensures Marked(Without(list, Find(Names(list), h))) == Marked(list) - {h}
  {
    var i := Find(Names(list), h);
    var t := Without(list, i);
    forall x | x in Marked(list) - {h} ensures x in Marked(t) {
      var k :| 0 <= k < |list| && list[k].validatedHeaders && list[k].hash == x;
      assert list[k] == if k < i then t[k] else t[k - 1];
    }
    forall x | x in Marked(t) ensures x in Marked(list) - {h} {
      var k :| 0 <= k < |t| && t[k].validatedHeaders && t[k].hash == x;
      var m := if k < i then k else k + 1;
      assert t[k] == list[m];
      assert Names(list)[m] != Names(list)[i];
    }
  }

  lemma AppendHash(s: seq<Hash>, h: Hash)
    requires Distinct(s) && h !in s
    ensures Distinct(s + [h]) && Elems(s + [h]) == Elems(s) + {h}
  {
  }

  lemma AppendMarked(list: seq<QueuedBlock>, e: QueuedBlock)
    ensures Marked(list + [e]) == Marked(list) + if e.validatedHeaders then {e.hash} else {}
    ensures Names(list + [e]) == Names(list) + [e.hash]
  {
    forall x | x in Marked(list) ensures x in Marked(list + [e]) {
      var k :| 0 <= k < |list| && list[k].validatedHeaders && list[k].hash == x;
      assert (list + [e])[k] == list[k];
    }
    assert (list + [e])[|list|] == e;
  }

  /** The map sends exactly these blocks to p. */
  ghost predicate Owned(s: set<Hash>, p: NodeId, m: map<Hash, NodeId>) {
    forall h :: h in s <==> h in m && m[h] == p
  }

  /** The lists of one peer agree with its counters and with the global maps. */
  ghost predicate PeerOk(p: NodeId, st: NodeState, inFlight: map<Hash, NodeId>, toDownload: map<Hash, NodeId>) {
    && st.nInFlight == |st.inFlight| && st.nToDownload == |st.toDownload|
    && Distinct(Names(st.inFlight)) && Distinct(st.toDownload)
    && Owned(Elems(Names(st.inFlight)), p, inFlight) && Owned(Elems(st.toDownload), p, toDownload)
  }

  /** The bookkeeping as a value. */
  datatype Queue = Queue(nodes: map<NodeId, NodeState>, inFlight: map<Hash, NodeId>, toDownload: map<Hash, NodeId>, nValidated: int)

  const EMPTY_QUEUE := Queue(map[], map[], map[], 0)

  ghost function ValidatedSet(q: Queue): (r: set<Hash>) {
    set h | h in q.inFlight && q.inFlight[h] in q.nodes && h in Marked(q.nodes[q.inFlight[h]].inFlight)
  }

  ghost predicate PeersOk(q: Queue) {
    forall p :: p in q.nodes ==> PeerOk(p, q.nodes[p], q.inFlight, q.toDownload)
  }

  /** Every listed block belongs to one known peer and is either wanted or in flight. */
  ghost predicate MapsOk(q: Queue) {
    && (forall h :: h in q.inFlight ==> q.inFlight[h] in q.nodes && h !in q.toDownload)
    && (forall h :: h in q.toDownload ==> q.toDownload[h] in q.nodes)
  }

  /** The global maps are the disjoint union of the peers' lists, and all counters are exact. */
  ghost predicate Exact(q: Queue) {
    PeersOk(q) && MapsOk(q) && q.nValidated == |ValidatedSet(q)|
  }

  // -------------------------------------------------------------------- steps

  function Arrive(q: Queue, p: NodeId): (r: Queue) {
    if p in q.nodes then q else q.(nodes := q.nodes[p := NEW_NODE])
  }

  predicate Addable(q: Queue, p: NodeId, h: Hash) { h !in q.toDownload && h !in q.inFlight && p in q.nodes }

  function Add(q: Queue, p: NodeId, h: Hash): (r: Queue)
    requires Addable(q, p, h)
  {
    var st := q.nodes[p];
    q.(nodes := q.nodes[p := st.(toDownload := st.toDownload + [h], nToDownload := st.nToDownload + 1)],
       toDownload := q.toDownload[h := p])
  }

  /** The block is no longer in flight at p. */
  function Landed(st: NodeState, h: Hash): (r: NodeState) {
    st.(inFlight := Without(st.inFlight, Find(Names(st.inFlight), h)), nInFlight := st.nInFlight - 1)
  }

  function Flag(st: NodeState, h: Hash): (r: int) {
    var i := Find(Names(st.inFlight), h);
    if i < |st.inFlight| && st.inFlight[i].validatedHeaders then 1 else 0
  }

  function DropInFlight(q: Queue, h: Hash): (r: Queue) {
    if h !in q.inFlight || q.inFlight[h] !in q.nodes then q
    else
      var p := q.inFlight[h];
      q.(nodes := q.nodes[p := Landed(q.nodes[p], h)], inFlight := q.inFlight - {h}, nValidated := q.nValidated - Flag(q.nodes[p], h))
  }

  function DropWanted(q: Queue, h: Hash): (r: Queue) {
    if h !in q.toDownload || q.toDownload[h] !in q.nodes then q
    else
      var p := q.toDownload[h];
      var st := q.nodes[p];
      q.(nodes := q.nodes[p := st.(toDownload := Without(st.toDownload, Find(st.toDownload, h)), nToDownload := st.nToDownload - 1)],
         toDownload := q.toDownload - {h})
  }

  function Received(q: Queue, h: Hash): (r: Queue) { DropWanted(DropInFlight(q, h), h) }

  function Launch(q: Queue, p: NodeId, h: Hash, validated: bool): (r: Queue)
    requires p in q.nodes
  {
    var st := q.nodes[p];
    var entry := QueuedBlock(h, validated, q.nValidated);
    q.(nodes := q.nodes[p := st.(inFlight := st.inFlight + [entry], nInFlight := st.nInFlight + 1)],
       inFlight := q.inFlight[h := p], nValidated := q.nValidated + if validated then 1 else 0)
  }

  function InFlight(q: Queue, p: NodeId, h: Hash, validated: bool): (r: Queue)
    requires p in q.nodes
  {
    ReceivedNodes(q, h);
    Launch(Received(q, h), p, h, validated)
  }

  lemma ReceivedNodes(q: Queue, h: Hash)
    ensures Received(q, h).nodes.Keys == q.nodes.Keys
  {
  }

  // ---------------------------------------------------------------- invariant

  lemma OwnedWithout(s: set<Hash>, p: NodeId, m: map<Hash, NodeId>, h: Hash)
    requires Owned(s, p, m)
    ensures Owned(s - {h}, p, m - {h}) && (h !in s ==> Owned(s, p, m - {h}))
  {
  }

  lemma OwnedWith(s: set<Hash>, p: NodeId, m: map<Hash, NodeId>, h: Hash, o: NodeId)
    requires Owned(s, p, m) && h !in m
    ensures o == p ==> Owned(s + {h}, p, m[h := o])
    ensures o != p ==> Owned(s, p, m[h := o])
  {
  }

  lemma ArriveKeeps(q: Queue, p: NodeId)
    requires Exact(q)
    ensures Exact(Arrive(q, p))
  {
    if p !in q.nodes {
      assert ValidatedSet(Arrive(q, p)) == ValidatedSet(q);
    }
  }

  lemma AddPeers(q: Queue, p: NodeId, h: Hash)
    requires PeersOk(q) && Addable(q, p, h)
    ensures PeersOk(Add(q, p, h))
  {
    hide Distinct, Elems, Names, Owned;
    var r := Add(q, p, h);
    forall x | x in r.nodes ensures PeerOk(x, r.nodes[x], r.inFlight, r.toDownload) {
      var st := q.nodes[x];
      assert PeerOk(x, st, q.inFlight, q.toDownload);
      OwnedWith(Elems(st.toDownload), x, q.toDownload, h, p);
      if x == p {
        NotListed(st.toDownload, p, q.toDownload, h);
        AppendHash(st.toDownload, h);
      }
    }
  }

  lemma NotListed(s: seq<Hash>, p: NodeId, m: map<Hash, NodeId>, h: Hash)
    requires Owned(Elems(s), p, m)
    ensures h in s <==> h in m && m[h] == p
  {
    assert h in s <==> h in Elems(s);
  }

  lemma AddKeeps(q: Queue, p: NodeId, h: Hash)
    requires Exact(q) && Addable(q, p, h)
    ensures Exact(Add(q, p, h))
  {
    hide PeersOk, PeerOk;
    AddPeers(q, p, h);
    assert ValidatedSet(Add(q, p, h)) == ValidatedSet(q);
  }

  lemma DropWantedPeers(q: Queue, h: Hash)
    requires PeersOk(q) && MapsOk(q)
    ensures PeersOk(DropWanted(q, h)) && h !in DropWanted(q, h).toDownload
  {
    hide Distinct, Elems, Names, Owned, Find, Without;
    if h in q.toDownload {
      var r, p := DropWanted(q, h), q.toDownload[h];
      forall x | x in r.nodes ensures PeerOk(x, r.nodes[x], r.inFlight, r.toDownload) {
        var st := q.nodes[x];
        assert PeerOk(x, st, q.inFlight, q.toDownload);
        OwnedWithout(Elems(st.toDownload), x, q.toDownload, h);
        NotListed(st.toDownload, x, q.toDownload, h);
        InElems(st.toDownload, h);
        if x == p {
          WithoutHash(st.toDownload, h);
        }
      }
    }
  }

  lemma InElems(s: seq<Hash>, h: Hash)
    ensures h in Elems(s) <==> h in s
  {
  }

  lemma DropWantedKeeps(q: Queue, h: Hash)
    requires Exact(q)
    ensures Exact(DropWanted(q, h)) && h !in DropWanted(q, h).toDownload
  {
    hide PeersOk, PeerOk, Find, Without;
    DropWantedPeers(q, h);
    assert ValidatedSet(DropWanted(q, h)) == ValidatedSet(q);
  }

  lemma DropInFlightPeers(q: Queue, h: Hash)
    requires PeersOk(q) && MapsOk(q)
    ensures PeersOk(DropInFlight(q, h)) && MapsOk(DropInFlight(q, h)) && h !in DropInFlight(q, h).inFlight
  {
    hide Distinct, Elems, Names, Owned, Find, Without;
    if h in q.inFlight {
      var r, p := DropInFlight(q, h), q.inFlight[h];
      forall x | x in r.nodes ensures PeerOk(x, r.nodes[x], r.inFlight, r.toDownload) {
        var st := q.nodes[x];
        assert PeerOk(x, st, q.inFlight, q.toDownload);
        var names := Names(st.inFlight);
        OwnedWithout(Elems(names), x, q.inFlight, h);
        NotListed(names, x, q.inFlight, h);
        InElems(names, h);
        if x == p {
          WithoutHash(names, h);
          WithoutNames(st.inFlight, Find(names, h));
          NamesLength(st.inFlight);
          NamesLength(r.nodes[x].inFlight);
        }
      }
    }
  }

  lemma NamesLength(list: seq<QueuedBlock>)
    ensures |Names(list)| == |list|
  {
  }

  lemma DropInFlightCount(q: Queue, h: Hash)
    requires Exact(q)
    ensures DropInFlight(q, h).nValidated == |ValidatedSet(DropInFlight(q, h))|
  {
    hide PeersOk, PeerOk, Landed, Flag, Marked;
    if h in q.inFlight {
      var p := q.inFlight[h];
      LandedMarked(q, p, h);
      assert ValidatedSet(DropInFlight(q, h)) == ValidatedSet(q) - {h};
    }
  }

  lemma LandedMarked(q: Queue, p: NodeId, h: Hash)
    requires PeersOk(q) && h in q.inFlight && q.inFlight[h] == p && p in q.nodes
    ensures Marked(Landed(q.nodes[p], h).inFlight) == Marked(q.nodes[p].inFlight) - {h}
    ensures Flag(q.nodes[p], h) == if h in Marked(q.nodes[p].inFlight) then 1 else 0
  {
    var st := q.nodes[p];
    assert PeerOk(p, st, q.inFlight, q.toDownload);
    NotListed(Names(st.inFlight), p, q.inFlight, h);
    hide PeersOk, PeerOk;
    WithoutMarked(st.inFlight, h);
    MarkedAt(st.inFlight, h);
  }

  lemma MarkedAt(list: seq<QueuedBlock>, h: Hash)
    requires Distinct(Names(list)) && h in Names(list)
    ensures h in Marked(list) <==> list[Find(Names(list), h)].validatedHeaders
  {
    var i := Find(Names(list), h);
    if h in Marked(list) {
      var k :| 0 <= k < |list| && list[k].validatedHeaders && list[k].hash == h;
      assert Names(list)[k] == Names(list)[i];
    }
  }

  lemma DropInFlightKeeps(q: Queue, h: Hash)
    requires Exact(q)
    ensures Exact(DropInFlight(q, h)) && h !in DropInFlight(q, h).inFlight
  {
    hide PeersOk, MapsOk, DropInFlight, ValidatedSet;
    DropInFlightPeers(q, h);
    DropInFlightCount(q, h);
  }

  /** A received block is listed nowhere, and nothing else has moved. */
  lemma ReceivedKeeps(q: Queue, h: Hash)
    requires Exact(q)
    ensures Exact(Received(q, h)) && h !in Received(q, h).inFlight && h !in Received(q, h).toDownload
  {
    hide Exact, DropInFlight;
    DropInFlightKeeps(q, h);
    DropWantedKeeps(DropInFlight(q, h), h);
  }

  lemma LaunchPeers(q: Queue, p: NodeId, h: Hash, validated: bool)
    requires PeersOk(q) && MapsOk(q) && p in q.nodes && h !in q.inFlight && h !in q.toDownload
    ensures PeersOk(Launch(q, p, h, validated)) && MapsOk(Launch(q, p, h, validated))
  {
    hide Distinct, Elems, Names, Owned;
    var r := Launch(q, p, h, validated);
    forall x | x in r.nodes ensures PeerOk(x, r.nodes[x], r.inFlight, r.toDownload) {
      var st := q.nodes[x];
      assert PeerOk(x, st, q.inFlight, q.toDownload);
      var names := Names(st.inFlight);
      OwnedWith(Elems(names), x, q.inFlight, h, p);
      if x == p {
        NotListed(names, p, q.inFlight, h);
        AppendHash(names, h);
        AppendMarked(st.inFlight, QueuedBlock(h, validated, q.nValidated));
      }
    }
  }

  lemma LaunchCount(q: Queue, p: NodeId, h: Hash, validated: bool)
    requires Exact(q) && p in q.nodes && h !in q.inFlight
    ensures Launch(q, p, h, validated).nValidated == |ValidatedSet(Launch(q, p, h, validated))|
  {
    hide PeersOk, PeerOk, MapsOk, Marked, Names, Distinct;
    var r := Launch(q, p, h, validated);
    AppendMarked(q.nodes[p].inFlight, QueuedBlock(h, validated, q.nValidated));
    MarkedListed(q, p, h);
    forall x | x != h ensures x in ValidatedSet(r) <==> x in ValidatedSet(q) {
    }
    assert h !in ValidatedSet(q) && (h in ValidatedSet(r) <==> validated);
    if validated {
      assert ValidatedSet(r) == ValidatedSet(q) + {h};
    } else {
      assert ValidatedSet(r) == ValidatedSet(q);
    }
  }

  lemma MarkedListed(q: Queue, p: NodeId, h: Hash)
    requires PeersOk(q) && p in q.nodes && h !in q.inFlight
    ensures h !in Marked(q.nodes[p].inFlight)
  {
    var list := q.nodes[p].inFlight;
    assert PeerOk(p, q.nodes[p], q.inFlight, q.toDownload);
    NotListed(Names(list), p, q.inFlight, h);
  }

  lemma InFlightKeeps(q: Queue, p: NodeId, h: Hash, validated: bool)
    requires Exact(q) && p in q.nodes
    ensures Exact(InFlight(q, p, h, validated))
  {
    hide PeersOk, MapsOk, ValidatedSet, Received, Launch;
    ReceivedKeeps(q, h);
    ReceivedNodes(q, h);
    LaunchPeers(Received(q, h), p, h, validated);
    LaunchCount(Received(q, h), p, h, validated);
  }

  // ---------------------------------------------------------------- departure

  function Depart(q: Queue, p: NodeId): (r: Queue)
    requires p in q.nodes
  {
    var st := q.nodes[p];
    Queue(q.nodes - {p}, q.inFlight - Elems(Names(st.inFlight)), q.toDownload - Elems(st.toDownload), q.nValidated - |Marked(st.inFlight)|)
  }

  lemma DepartPeers(q: Queue, p: NodeId)
    requires PeersOk(q) && MapsOk(q) && p in q.nodes
    ensures PeersOk(Depart(q, p)) && MapsOk(Depart(q, p))
    ensures forall h :: h in Depart(q, p).inFlight <==> h in q.inFlight && q.inFlight[h] != p
    ensures forall h :: h in Depart(q, p).toDownload <==> h in q.toDownload && q.toDownload[h] != p
  {
    hide Distinct, Elems, Names, Marked;
    var r, st := Depart(q, p), q.nodes[p];
    assert PeerOk(p, st, q.inFlight, q.toDownload);
    forall x | x in r.nodes ensures PeerOk(x, r.nodes[x], r.inFlight, r.toDownload) {
      assert PeerOk(x, q.nodes[x], q.inFlight, q.toDownload);
    }
  }

  lemma DepartCount(q: Queue, p: NodeId)
    requires Exact(q) && p in q.nodes
    ensures Depart(q, p).nValidated == |ValidatedSet(Depart(q, p))|
  {
    hide Distinct, Elems, Names, Marked, PeerOk, PeersOk;
    var r, gone := Depart(q, p), Marked(q.nodes[p].inFlight);
    DepartPeers(q, p);
    MarkedOwned(q, p);
    forall h ensures h in ValidatedSet(r) <==> h in ValidatedSet(q) - gone {
    }
    assert ValidatedSet(r) == ValidatedSet(q) - gone;
    assert ValidatedSet(q) == ValidatedSet(r) + gone;
  }

  lemma MarkedOwned(q: Queue, p: NodeId)
    requires PeersOk(q) && p in q.nodes
    ensures forall h :: h in Marked(q.nodes[p].inFlight) ==> h in q.inFlight && q.inFlight[h] == p
  {
    var list := q.nodes[p].inFlight;
    assert PeerOk(p, q.nodes[p], q.inFlight, q.toDownload);
    forall h | h in Marked(list) ensures h in Elems(Names(list)) {
      var k :| 0 <= k < |list| && list[k].validatedHeaders && list[k].hash == h;
      assert Names(list)[k] in Names(list);
    }
  }

  lemma DepartKeeps(q: Queue, p: NodeId)
    requires Exact(q) && p in q.nodes
    ensures Exact(Depart(q, p))
  {
    hide PeersOk, MapsOk, ValidatedSet, Depart;
    DepartPeers(q, p);
    DepartCount(q, p);
  }

  /** The flags of a list of different blocks, one by one. */
  lemma MarkedStep(list: seq<QueuedBlock>, i: nat)
    requires i < |list| && Distinct(Names(list))
    ensures |Marked(list[..i + 1])| == |Marked(list[..i])| + if list[i].validatedHeaders then 1 else 0
  {
    assert list[..i + 1] == list[..i] + [list[i]];
    AppendMarked(list[..i], list[i]);
    assert forall k :: 0 <= k < i ==> Names(list)[k] != Names(list)[i];
    assert list[i].hash !in Marked(list[..i]);
  }

  // ------------------------------------------------------------------ requests

  /** The front of the wanted list goes in flight. */
  lemma SendStep(q: Queue, p: NodeId)
    requires Exact(q) && p in q.nodes && q.nodes[p].toDownload != []
    ensures var st := q.nodes[p]; var h := st.toDownload[0];
      InFlight(q, p, h, false) == Queue(
        q.nodes[p := NodeState(st.inFlight + [QueuedBlock(h, false, q.nValidated)], st.nInFlight + 1, st.toDownload[1..], st.nToDownload - 1)],
        q.inFlight[h := p], q.toDownload - {h}, q.nValidated)
  {
    var st := q.nodes[p];
    var h := st.toDownload[0];
    assert PeerOk(p, st, q.inFlight, q.toDownload);
    NotListed(st.toDownload, p, q.toDownload, h);
    hide PeersOk, PeerOk, Distinct, ValidatedSet;
    assert Find(st.toDownload, h) == 0;
    assert Without(st.toDownload, 0) == st.toDownload[1..];
    assert Received(q, h) == DropWanted(q, h);
  }

  class DownloadQueue {
    var mapNodeState: map<NodeId, NodeState>
    var mapBlocksInFlight: map<Hash, NodeId>
    var mapBlocksToDownload: map<Hash, NodeId>
    var nQueuedValidatedHeaders: int

    ghost function St(): (q: Queue)
      reads this
    {
      Queue(mapNodeState, mapBlocksInFlight, mapBlocksToDownload, nQueuedValidatedHeaders)
    }

    constructor ()
      ensures St() == EMPTY_QUEUE
    {
      mapNodeState, mapBlocksInFlight, mapBlocksToDownload, nQueuedValidatedHeaders := map[], map[], map[], 0;
    }

    /** InitializeNode: a known id keeps its state. */
    method InitializeNode(p: NodeId)
      modifies this
      ensures St() == Arrive(old(St()), p)
    {
      if p !in mapNodeState {
        mapNodeState := mapNodeState[p := NEW_NODE];
      }
    }

    /** FinalizeNode: everything listed for the peer goes with it. */
    method FinalizeNode(p: NodeId)
      requires Exact(St()) && p in mapNodeState
      modifies this
      ensures St() == Depart(old(St()), p)
    {
      hide PeersOk, MapsOk, Distinct, Marked;
      var st := mapNodeState[p];
      ListsDistinct(St(), p);
      assert st.inFlight[..0] == [];
      NoneMarked();
      for i := 0 to |st.inFlight|
        invariant mapNodeState == old(mapNodeState) && mapBlocksToDownload == old(mapBlocksToDownload)
        invariant nQueuedValidatedHeaders == old(nQueuedValidatedHeaders) - |Marked(st.inFlight[..i])|
        invariant mapBlocksInFlight == old(mapBlocksInFlight) - Elems(Names(st.inFlight[..i]))
      {
        MarkedStep(st.inFlight, i);
        assert Names(st.inFlight[..i + 1]) == Names(st.inFlight[..i]) + [st.inFlight[i].hash];
        nQueuedValidatedHeaders := nQueuedValidatedHeaders - if st.inFlight[i].validatedHeaders then 1 else 0;
        mapBlocksInFlight := mapBlocksInFlight - {st.inFlight[i].hash};
      }
      assert st.inFlight[..|st.inFlight|] == st.inFlight;
      for i := 0 to |st.toDownload|
        invariant mapNodeState == old(mapNodeState) && mapBlocksInFlight == old(mapBlocksInFlight) - Elems(Names(st.inFlight))
        invariant nQueuedValidatedHeaders == old(nQueuedValidatedHeaders) - |Marked(st.inFlight)|
        invariant mapBlocksToDownload == old(mapBlocksToDownload) - Elems(st.toDownload[..i])
      {
        assert st.toDownload[..i + 1] == st.toDownload[..i] + [st.toDownload[i]];
        mapBlocksToDownload := mapBlocksToDownload - {st.toDownload[i]};
      }
      assert st.toDownload[..|st.toDownload|] == st.toDownload;
      mapNodeState := mapNodeState - {p};
    }

    /** MarkBlockAsReceived. */
    method MarkBlockAsReceived(h: Hash)
      requires Exact(St())
      modifies this
      ensures St() == Received(old(St()), h)
    {
      hide PeersOk, ValidatedSet;
      EntryExists(St(), h);
      DropInFlightKeeps(St(), h);
      if h in mapBlocksInFlight {
        var p := mapBlocksInFlight[h];
        var st := mapNodeState[p];
        var it := Find(Names(st.inFlight), h);
        nQueuedValidatedHeaders := nQueuedValidatedHeaders - if st.inFlight[it].validatedHeaders then 1 else 0;
        st := st.(inFlight := Without(st.inFlight, it));
        st := st.(nInFlight := st.nInFlight - 1);
        mapNodeState := mapNodeState[p := st];
        mapBlocksInFlight := mapBlocksInFlight - {h};
      }
      if h in mapBlocksToDownload {
        var p := mapBlocksToDownload[h];
        var st := mapNodeState[p];
        st := st.(toDownload := Without(st.toDownload, Find(st.toDownload, h)));
        st := st.(nToDownload := st.nToDownload - 1);
        mapNodeState := mapNodeState[p := st];
        mapBlocksToDownload := mapBlocksToDownload - {h};
      }
    }

    /** AddBlockToQueue: a block that is listed anywhere is not listed again. */
    method AddBlockToQueue(p: NodeId, h: Hash) returns (ok: bool)
      modifies this
      ensures ok <==> Addable(old(St()), p, h)
      ensures St() == if ok then Add(old(St()), p, h) else old(St())
    {
      if h in mapBlocksToDownload || h in mapBlocksInFlight {
        return false;
      }
      if p !in mapNodeState {
        return false;
      }
      var st := mapNodeState[p];
      st := st.(toDownload := st.toDownload + [h]);
      st := st.(nToDownload := st.nToDownload + 1);
      mapNodeState := mapNodeState[p := st];
      mapBlocksToDownload := mapBlocksToDownload[h := p];
      ok := true;
    }

    /** MarkBlockAsInFlight: taken off any list it was on, then put in flight at p. */
    method MarkBlockAsInFlight(p: NodeId, h: Hash, validated: bool)
      requires Exact(St()) && p in mapNodeState
      modifies this
      ensures St() == InFlight(old(St()), p, h, validated)
    {
      hide Exact, Received;
      ReceivedNodes(St(), h);
      MarkBlockAsReceived(h);
      var entry := QueuedBlock(h, validated, nQueuedValidatedHeaders);
      nQueuedValidatedHeaders := nQueuedValidatedHeaders + if entry.validatedHeaders then 1 else 0;
      var st := mapNodeState[p];
      st := st.(inFlight := st.inFlight + [entry]);
      st := st.(nInFlight := st.nInFlight + 1);
      mapNodeState := mapNodeState[p := st];
      mapBlocksInFlight := mapBlocksInFlight[h := p];
    }

    /** The getdata loop of SendMessages: as many of the oldest wanted blocks as fit are requested, in order. */
    method RequestBlocks(p: NodeId, fDisconnect: bool) returns (vGetData: seq<Hash>)
      requires Exact(St()) && p in mapNodeState
      modifies this
      ensures Exact(St()) && mapNodeState.Keys == old(mapNodeState).Keys
      ensures forall x :: x in mapNodeState && x != p ==> mapNodeState[x] == old(mapNodeState)[x]
      ensures var was, now := old(mapNodeState)[p], mapNodeState[p];
        && |vGetData| == Batch(was, fDisconnect)
        && was.toDownload == vGetData + now.toDownload
        && Names(now.inFlight) == Names(was.inFlight) + vGetData
        && (now.nInFlight <= MAX_BLOCKS_IN_TRANSIT_PER_PEER || now == was)
      ensures Where(St()) == Requested(old(Where(St())), p, vGetData)
    {
      hide Exact, InFlight, Moved, Where;
      vGetData := [];
      ghost var was := mapNodeState[p];
      NothingMoved(was);
      ExactCounters(St(), p);
      while !fDisconnect && mapNodeState[p].nToDownload != 0 && mapNodeState[p].nInFlight < MAX_BLOCKS_IN_TRANSIT_PER_PEER
        invariant Exact(St()) && mapNodeState.Keys == old(mapNodeState).Keys && p in mapNodeState
        invariant forall x :: x in mapNodeState && x != p ==> mapNodeState[x] == old(mapNodeState)[x]
        invariant mapNodeState[p].nToDownload == |mapNodeState[p].toDownload| && mapNodeState[p].nInFlight == |mapNodeState[p].inFlight|
        invariant Moved(was, mapNodeState[p], vGetData)
        invariant vGetData != [] ==> !fDisconnect && mapNodeState[p].nInFlight <= MAX_BLOCKS_IN_TRANSIT_PER_PEER
        invariant vGetData == [] ==> mapNodeState[p] == was
        invariant Where(St()) == Requested(old(Where(St())), p, vGetData)
        decreases |mapNodeState[p].toDownload|
      {
        MovedMore(was, mapNodeState[p], vGetData);
        var h := RequestOne(p);
        assert (vGetData + [h])[..|vGetData|] == vGetData;
        vGetData := vGetData + [h];
      }
      MovedAll(was, mapNodeState[p], vGetData);
    }

    /** One turn of the loop. */
    method RequestOne(p: NodeId) returns (h: Hash)
      requires Exact(St()) && p in mapNodeState && mapNodeState[p].toDownload != []
      modifies this
      ensures Exact(St()) && h == old(mapNodeState[p]).toDownload[0]
      ensures mapNodeState.Keys == old(mapNodeState).Keys && p in mapNodeState
      ensures forall x :: x in mapNodeState && x != p ==> mapNodeState[x] == old(mapNodeState)[x]
      ensures var was, now := old(mapNodeState[p]), mapNodeState[p];
        && now.toDownload == was.toDownload[1..] && now.nToDownload == was.nToDownload - 1
        && |now.inFlight| == |was.inFlight| + 1 && now.nInFlight == was.nInFlight + 1 && Names(now.inFlight) == Names(was.inFlight) + [h]
      ensures Where(St()) == old(Where(St()))[h := Flying(p)]
    {
      hide PeersOk, MapsOk, ValidatedSet, InFlight, Where;
      var st := mapNodeState[p];
      h := st.toDownload[0];
      SendStep(St(), p);
      InFlightKeeps(St(), p, h, false);
      InFlightWhere(St(), p, h, false);
      AppendMarked(st.inFlight, QueuedBlock(h, false, nQueuedValidatedHeaders));
      MarkBlockAsInFlight(p, h, false);
    }
  }

  /** These blocks went from the front of the wanted list to the end of the list in flight. */
  ghost predicate Moved(was: NodeState, now: NodeState, hashes: seq<Hash>) {
    was.toDownload == hashes + now.toDownload && Names(now.inFlight) == Names(was.inFlight) + hashes
  }

  lemma NothingMoved(st: NodeState)
    ensures Moved(st, st, [])
  {
  }

  lemma MovedMore(was: NodeState, now: NodeState, hashes: seq<Hash>)
    requires Moved(was, now, hashes) && now.toDownload != []
    ensures forall next: NodeState :: next.toDownload == now.toDownload[1..] && Names(next.inFlight) == Names(now.inFlight) + [now.toDownload[0]] ==>
      Moved(was, next, hashes + [now.toDownload[0]])
  {
    forall next: NodeState | next.toDownload == now.toDownload[1..] && Names(next.inFlight) == Names(now.inFlight) + [now.toDownload[0]]
      ensures Moved(was, next, hashes + [now.toDownload[0]])
    {
      assert hashes + now.toDownload == hashes + [now.toDownload[0]] + now.toDownload[1..];
    }
  }

  lemma MovedAll(was: NodeState, now: NodeState, hashes: seq<Hash>)
    requires Moved(was, now, hashes)
    ensures was.toDownload == hashes + now.toDownload && Names(now.inFlight) == Names(was.inFlight) + hashes
    ensures |was.toDownload| == |hashes| + |now.toDownload| && |now.inFlight| == |was.inFlight| + |hashes|
  {
  }

  /** How many blocks one turn requests. */
  function Batch(st: NodeState, fDisconnect: bool): (r: int) {
    var room := MAX_BLOCKS_IN_TRANSIT_PER_PEER - st.nInFlight;
    if fDisconnect || room <= 0 then 0 else if room < |st.toDownload| then room else |st.toDownload|
  }

  lemma NoneMarked()
    ensures Marked([]) == {}
  {
  }

  lemma ListsDistinct(q: Queue, p: NodeId)
    requires PeersOk(q) && p in q.nodes
    ensures Distinct(Names(q.nodes[p].inFlight))
  {
    assert PeerOk(p, q.nodes[p], q.inFlight, q.toDownload);
  }

  lemma ExactCounters(q: Queue, p: NodeId)
    requires Exact(q) && p in q.nodes
    ensures q.nodes[p].nToDownload == |q.nodes[p].toDownload| && q.nodes[p].nInFlight == |q.nodes[p].inFlight|
  {
    assert PeerOk(p, q.nodes[p], q.inFlight, q.toDownload);
  }

  lemma EntryExists(q: Queue, h: Hash)
    requires PeersOk(q) && MapsOk(q)
    ensures h in q.inFlight ==> h in Names(q.nodes[q.inFlight[h]].inFlight)
  {
    if h in q.inFlight {
      var p := q.inFlight[h];
      assert PeerOk(p, q.nodes[p], q.inFlight, q.toDownload);
      NotListed(Names(q.nodes[p].inFlight), p, q.inFlight, h);
    }
  }

  // ------------------------------------------------------------- a plain map

  /** Where a block is listed. */
  datatype Place = Wanted(peer: NodeId) | Flying(peer: NodeId)

  /** The whole bookkeeping as one map from blocks to places. */
  ghost function Where(q: Queue): (r: map<Hash, Place>) {
    map h | h in q.inFlight.Keys + q.toDownload.Keys :: if h in q.inFlight then Flying(q.inFlight[h]) else Wanted(q.toDownload[h])
  }

  lemma AddWhere(q: Queue, p: NodeId, h: Hash)
    requires Addable(q, p, h)
    ensures Where(Add(q, p, h)) == Where(q)[h := Wanted(p)] && Add(q, p, h).nodes.Keys == q.nodes.Keys
  {
  }

  lemma ReceivedWhere(q: Queue, h: Hash)
    requires Exact(q)
    ensures Where(Received(q, h)) == Where(q) - {h} && Received(q, h).nodes.Keys == q.nodes.Keys
  {
    hide PeersOk, ValidatedSet, Landed, Flag, Without, Find;
    ReceivedNodes(q, h);
  }

  lemma InFlightWhere(q: Queue, p: NodeId, h: Hash, validated: bool)
    requires Exact(q) && p in q.nodes
    ensures Where(InFlight(q, p, h, validated)) == Where(q)[h := Flying(p)] && InFlight(q, p, h, validated).nodes.Keys == q.nodes.Keys
  {
    hide Exact, Received;
    ReceivedNodes(q, h);
    ReceivedWhere(q, h);
    LaunchWhere(Received(q, h), p, h, validated);
    assert (Where(q) - {h})[h := Flying(p)] == Where(q)[h := Flying(p)];
  }

  lemma LaunchWhere(q: Queue, p: NodeId, h: Hash, validated: bool)
    requires p in q.nodes
    ensures Where(Launch(q, p, h, validated)) == Where(q)[h := Flying(p)]
  {
  }

  lemma DepartWhere(q: Queue, p: NodeId)
    requires Exact(q) && p in q.nodes
    ensures Where(Depart(q, p)) == (map h | h in Where(q) && Where(q)[h].peer != p :: Where(q)[h])
  {
    hide Exact, Names, Elems;
    PeerOwns(q, p);
    var r, w := Where(Depart(q, p)), Where(q);
    forall h ensures h in r <==> h in w && w[h].peer != p {
      assert h in w ==> w[h].peer == if h in q.inFlight then q.inFlight[h] else q.toDownload[h];
    }
  }

  lemma PeerOwns(q: Queue, p: NodeId)
    requires Exact(q) && p in q.nodes
    ensures Owned(Elems(Names(q.nodes[p].inFlight)), p, q.inFlight) && Owned(Elems(q.nodes[p].toDownload), p, q.toDownload)
    ensures forall h :: h in q.inFlight ==> h !in q.toDownload
  {
    hide ValidatedSet, Names, Elems, Distinct, Owned;
    assert PeerOk(p, q.nodes[p], q.inFlight, q.toDownload);
  }

  /** The blocks are requested from the peer. */
  ghost function Requested(w: map<Hash, Place>, p: NodeId, hashes: seq<Hash>): (r: map<Hash, Place>) {
    if hashes == [] then w else Requested(w, p, hashes[..|hashes| - 1])[hashes[|hashes| - 1] := Flying(p)]
  }

  /** What each step does to that map. */
  ghost predicate Acts(q: Queue, r: Queue, op: Op) {
    match op
    case ArriveOp(p) => Where(r) == Where(q) && r.nodes.Keys == q.nodes.Keys + {p}
    case DepartOp(p) =>
      && r.nodes.Keys == q.nodes.Keys - {p}
      && (p in q.nodes ==> Where(r) == map h | h in Where(q) && Where(q)[h].peer != p :: Where(q)[h])
      && (p !in q.nodes ==> Where(r) == Where(q))
    case AddOp(p, h) =>
      r.nodes.Keys == q.nodes.Keys && Where(r) == if p in q.nodes && h !in Where(q) then Where(q)[h := Wanted(p)] else Where(q)
    case ReceivedOp(h) => r.nodes.Keys == q.nodes.Keys && Where(r) == Where(q) - {h}
    case InFlightOp(p, h, _) =>
      && r.nodes.Keys == q.nodes.Keys
      && Where(r) == if p in q.nodes && |q.nodes[p].inFlight| < MAX_BLOCKS_IN_TRANSIT_PER_PEER then Where(q)[h := Flying(p)] else Where(q)
    case SendOp(p, fDisconnect) =>
      && r.nodes.Keys == q.nodes.Keys
      && (p !in q.nodes ==> Where(r) == Where(q))
      && (p in q.nodes ==>
            var n := Batch(q.nodes[p], fDisconnect);
            0 <= n <= |q.nodes[p].toDownload| && Where(r) == Requested(Where(q), p, q.nodes[p].toDownload[..n]))
  }

  // -------------------------------------------------------------------- runs

  datatype Op =
    | ArriveOp(p: NodeId)
    | DepartOp(p: NodeId)
    | AddOp(p: NodeId, h: Hash)
    | ReceivedOp(h: Hash)
    | InFlightOp(p: NodeId, h: Hash, validated: bool)
    | SendOp(p: NodeId, fDisconnect: bool)

  /** No peer has more than 128 blocks in flight. */
  ghost predicate Bounded(q: Queue) {
    forall p :: p in q.nodes ==> q.nodes[p].nInFlight <= MAX_BLOCKS_IN_TRANSIT_PER_PEER
  }

  /** No block is listed twice: not at two peers, and not both wanted and in flight. */
  lemma ListedOnce(q: Queue, p: NodeId, x: NodeId)
    requires Exact(q) && p in q.nodes && x in q.nodes
    ensures Elems(Names(q.nodes[p].inFlight)) !! Elems(q.nodes[x].toDownload)
    ensures p != x ==> Elems(Names(q.nodes[p].inFlight)) !! Elems(Names(q.nodes[x].inFlight))
    ensures p != x ==> Elems(q.nodes[p].toDownload) !! Elems(q.nodes[x].toDownload)
  {
    hide Elems, Names, Distinct, ValidatedSet;
    assert PeerOk(p, q.nodes[p], q.inFlight, q.toDownload);
    assert PeerOk(x, q.nodes[x], q.inFlight, q.toDownload);
  }

  lemma ReceivedShrinks(q: Queue, h: Hash)
    requires Bounded(q)
    ensures Bounded(Received(q, h))
    ensures forall p :: p in q.nodes && p in Received(q, h).nodes ==> Received(q, h).nodes[p].nInFlight <= q.nodes[p].nInFlight
  {
    hide Names, Find, Without;
  }

  lemma InFlightBounded(q: Queue, p: NodeId, h: Hash, validated: bool)
    requires Bounded(q) && p in q.nodes && q.nodes[p].nInFlight < MAX_BLOCKS_IN_TRANSIT_PER_PEER
    ensures Bounded(InFlight(q, p, h, validated))
  {
    hide Received;
    ReceivedNodes(q, h);
    ReceivedShrinks(q, h);
  }

  /**
    Any run: peers come and go, blocks are wanted, requested and received.  The maps, lists and counters stay
    exact, and every step acts on the places of blocks as on a plain map.
  */
  method Run(d: DownloadQueue, ops: seq<Op>) returns (ghost states: seq<Queue>)
    requires Exact(d.St()) && Bounded(d.St())
    modifies d
    ensures Exact(d.St()) && Bounded(d.St())
    ensures |states| == |ops| + 1 && states[0] == old(d.St()) && states[|ops|] == d.St()
    ensures forall i :: 0 <= i < |ops| ==> Acts(states[i], states[i + 1], ops[i])
  {
    hide Exact, Bounded, Acts;
    states := [d.St()];
    for i := 0 to |ops|
      invariant Exact(d.St()) && Bounded(d.St())
      invariant |states| == i + 1 && states[0] == old(d.St()) && states[i] == d.St()
      invariant forall k :: 0 <= k < i ==> Acts(states[k], states[k + 1], ops[k])
    {
      RunOp(d, ops[i]);
      states := states + [d.St()];
    }
  }

  /** One step; a block goes in flight only at a peer that has room, as the only caller sees to it. */
  method RunOp(d: DownloadQueue, op: Op)
    requires Exact(d.St()) && Bounded(d.St())
    modifies d
    ensures Exact(d.St()) && Bounded(d.St()) && Acts(old(d.St()), d.St(), op)
  {
    hide Exact, Received, InFlight, Names, Where, Requested;
    match op {
      case ArriveOp(p) =>
        ArriveKeeps(d.St(), p);
        ArriveWhere(d.St(), p);
        d.InitializeNode(p);
      case DepartOp(p) =>
        if p in d.mapNodeState {
          DepartKeeps(d.St(), p);
          DepartWhere(d.St(), p);
          d.FinalizeNode(p);
        }
      case AddOp(p, h) =>
        ListedWhere(d.St(), h);
        if Addable(d.St(), p, h) {
          AddKeeps(d.St(), p, h);
          AddWhere(d.St(), p, h);
        }
        var ok := d.AddBlockToQueue(p, h);
      case ReceivedOp(h) =>
        ReceivedKeeps(d.St(), h);
        ReceivedShrinks(d.St(), h);
        ReceivedWhere(d.St(), h);
        d.MarkBlockAsReceived(h);
      case InFlightOp(p, h, validated) =>
        if p in d.mapNodeState {
          ExactCounters(d.St(), p);
        }
        if p in d.mapNodeState && d.mapNodeState[p].nInFlight < MAX_BLOCKS_IN_TRANSIT_PER_PEER {
          InFlightKeeps(d.St(), p, h, validated);
          InFlightBounded(d.St(), p, h, validated);
          InFlightWhere(d.St(), p, h, validated);
          d.MarkBlockAsInFlight(p, h, validated);
        }
      case SendOp(p, fDisconnect) =>
        if p in d.mapNodeState {
          var requested := d.RequestBlocks(p, fDisconnect);
        }
    }
  }

  lemma ArriveWhere(q: Queue, p: NodeId)
    ensures Where(Arrive(q, p)) == Where(q) && Arrive(q, p).nodes.Keys == q.nodes.Keys + {p}
  {
  }

  lemma ListedWhere(q: Queue, h: Hash)
    ensures h in Where(q) <==> h in q.inFlight || h in q.toDownload
  {
  }

  lemma NewQueueExact()
    ensures Exact(EMPTY_QUEUE) && Bounded(EMPTY_QUEUE)
  {
  }
}
