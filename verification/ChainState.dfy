/**
  The block tree together with the transaction index of its best branch
  (Reorganize, SetBestChainInner, AcceptBlock and FindBlockByHeight in src/chain.cpp,
  SetBestChain and AddToBlockIndex in src/main.cpp).
  Which disk reads and database commits succeed is an input; a failed or aborted
  database transaction leaves the stored index as it was when the transaction began.
*/
module ChainStates {
  import opened Primitives
  import opened Collections
  import opened TxIndexModel
  import opened TxLedger
  import opened BlockLedger
  import opened ChainLedger
  import opened Compact
  import opened BlockTree

  /** The ids of a branch are pairwise different and its transactions are in the block files. */
  predicate BranchGood(disk: Disk, chain: seq<seq<Placed>>) {
    var ledger := Flatten(chain);
    Fresh(map[], ledger) && Located(ledger) && OnDisk(disk, ledger)
  }

  lemma BranchAdmits(disk: Disk, chain: seq<seq<Placed>>, vtx: seq<Placed>, index: Index)
    requires BranchGood(disk, chain + [vtx]) && GoodChain(disk, chain) && Replay(Flatten(chain)) == Some(index)
    ensures Admissible(disk, index, vtx)
  {
    hide Fresh, Located, OnDisk, Lists, MarksSpenders, NoDoubleSpend, Replay;
    var ledger := Flatten(chain);
    assert (chain + [vtx])[..|chain|] == chain;
    assert Flatten(chain + [vtx]) == ledger + vtx;
    SplitFacts(disk, ledger, vtx);
    SplitOnDisk(disk, ledger, vtx);
    ReplayKeys(ledger, index);
    SplitFresh(ledger, vtx, index);
  }

  lemma ReplayKeys(ledger: seq<Placed>, index: Index)
    requires Fresh(map[], ledger) && Located(ledger) && Replay(ledger) == Some(index)
    ensures index.Keys == Ids(ledger)
  {
    hide Fresh, Located, MarksSpenders, NoDoubleSpend, Replay;
    ReplayRecords(ledger);
  }

  lemma SplitOnDisk(disk: Disk, ledger: seq<Placed>, vtx: seq<Placed>)
    requires OnDisk(disk, ledger + vtx)
    ensures OnDisk(disk, vtx)
  {
    assert forall i :: 0 <= i < |vtx| ==> vtx[i] == (ledger + vtx)[|ledger| + i];
  }

  /** What ChainDb.Valid asks of the stored values. */
  ghost predicate Sound(disk: Disk, index: Index, supplies: seq<int>, chain: seq<seq<Placed>>) {
    GoodChain(disk, chain) && Replay(Flatten(chain)) == Some(index) && SuppliesOk(disk, chain, supplies)
  }

  lemma ValidIsSound(db: ChainDb)
    requires db.Valid()
    ensures Sound(db.disk, db.index, db.supplies, db.chain)
  {
  }

  /** The forward links below height h are those of tip's path, and there are no others. */
  ghost predicate LinkedTo(nodes: set<BlockIndex>, tip: BlockIndex, h: int)
    requires Rooted(tip) && h <= tip.nHeight
    reads nodes
  {
    forall b :: b in nodes ==> b.pnext == if b.nHeight < h && IsAncestor(b, tip) then Path(tip)[b.nHeight + 1] else null
  }

  /** Some block below the tip has no forward link, so that IsInMainChain misses it. */
  ghost predicate CutOff(nodes: set<BlockIndex>, tip: BlockIndex)
    requires Rooted(tip)
    reads nodes
  {
    exists b :: b in nodes && b != tip && IsAncestor(b, tip) && b.pnext == null
  }

  /** Paths that agree up to a height have the same links below it. */
  lemma LinkedShared(nodes: set<BlockIndex>, a: BlockIndex, b: BlockIndex, f: BlockIndex)
    requires Rooted(a) && Rooted(b) && IsAncestor(f, a) && IsAncestor(f, b) && LinkedTo(nodes, a, f.nHeight)
    ensures LinkedTo(nodes, b, f.nHeight)
  {
    SharedStart(a, b, f);
  }

  /** An entry of the tree: accepted on top of its parent, or the genesis block. */
  ghost predicate EntryOk(b: BlockIndex, genesisHash: Hash, disk: Disk)
  {
    && Rooted(b) && BranchGood(disk, Blocks(b))
    && (b.pprev == null ==> b.hash == genesisHash)
    && (b.pprev != null ==> 0 < SetCompact(b.nBits) <= TARGET_LIMIT && b.nChainTrust > b.pprev.nChainTrust)
  }

  // ------------------------------------------------------------- outcomes

  /**
    What a call meets outside the node, block by block: the surroundings of ConnectBlock, whether a block
    can be read to be disconnected or connected, and whether the database transaction that ends at a block
    begins and commits.  One call handles each block at most once in each of these ways.
  */
  datatype World = World(
    env: Hash -> Env, otherRules: bool, prepared: bool, written: bool, begin: bool,
    readOld: Hash -> bool, read: Hash -> bool, begins: Hash -> bool, commits: Hash -> bool)

  ghost predicate SameDisk(w: World, disk: Disk) { forall x :: w.env(x).disk == disk }

  /** Block k of tip's path passes ConnectBlock on the index that the blocks below it leave. */
  ghost predicate Passes(w: World, tip: BlockIndex, k: int, bestHeight: int)
    requires Rooted(tip) && 0 < k <= tip.nHeight
  {
    var before := Replay(Flatten(Blocks(tip)[..k - 1]));
    before.Some? && BlockOk(w.env(Path(tip)[k].hash), before.value, Path(tip)[k].vtx, Subsidy(bestHeight))
  }

  /** All blocks of tip's path above height h can be read and pass. */
  ghost predicate BranchPasses(w: World, tip: BlockIndex, h: int, bestHeight: int)
    requires Rooted(tip) && 0 <= h
  {
    forall k :: h < k <= tip.nHeight ==> w.read(Path(tip)[k].hash) && Passes(w, tip, k, bestHeight)
  }

  /** All blocks of best's path above height h can be read. */
  ghost predicate BranchReads(w: World, best: BlockIndex, h: int)
    requires Rooted(best) && 0 <= h
  {
    forall k :: h < k <= best.nHeight ==> w.readOld(Path(best)[k].hash)
  }

  /** Reorganize from best to tip goes through. */
  ghost predicate ReorganizeOk(w: World, best: BlockIndex, tip: BlockIndex, bestHeight: int)
    requires Rooted(best) && Rooted(tip) && Path(best)[0] == Path(tip)[0]
  {
    var h := ForkHeight(best, tip);
    BranchReads(w, best, h) && BranchPasses(w, tip, h, bestHeight) && w.commits(tip.hash)
  }

  /** The postponed blocks of tip's path above height h are all read, begun, connected and committed. */
  ghost predicate LaterOk(w: World, tip: BlockIndex, h: int, bestHeight: int)
    requires Rooted(tip) && 0 <= h
  {
    && BranchPasses(w, tip, h, bestHeight)
    && forall k :: h < k <= tip.nHeight ==> w.begins(Path(tip)[k].hash) && w.commits(Path(tip)[k].hash)
  }

  /** The lowest block of b's path above which every parent has more trust than a limit. */
  ghost function FirstAbove(b: BlockIndex, trust: nat): (r: BlockIndex)
    requires Rooted(b)
    ensures IsAncestor(r, b) && Rooted(r) && (r.pprev != null ==> r.pprev.nChainTrust <= trust)
    ensures forall k :: r.nHeight < k <= b.nHeight ==> Path(b)[k].pprev != null && Path(b)[k].pprev.nChainTrust > trust
    decreases b.nHeight
  {
    if b.pprev == null || b.pprev.nChainTrust <= trust then b else FirstAbove(b.pprev, trust)
  }

  /** SetBestChain makes the block the best one. */
  ghost predicate SetBestOk(w: World, b: BlockIndex, best: BlockIndex?, bestHeight: int)
    requires Rooted(b) && (best == null ==> b.pprev == null)
    requires best != null ==> b.pprev != null && Rooted(best) && Path(best)[0] == Path(b)[0]
  {
    && w.begin
    && if best == null then w.commits(b.hash)
       else if b.pprev == best then Passes(w, b, b.nHeight, bestHeight) && w.commits(b.hash)
       else
         var first := FirstAbove(b, best.nChainTrust);
         AncestorRoot(first, b);
         ReorganizeOk(w, best, first, bestHeight)
  }

  /** ... and connects everything below it. */
  ghost predicate CompleteOk(w: World, b: BlockIndex, best: BlockIndex?, bestHeight: int)
    requires Rooted(b)
  {
    best != null && b.pprev != best ==> LaterOk(w, b, FirstAbove(b, best.nChainTrust).nHeight, bestHeight)
  }

  /** A block can be weighed against the best one: both grow from the same root. */
  ghost predicate Comparable(b: BlockIndex, best: BlockIndex?) {
    && Rooted(b) && (best == null ==> b.pprev == null)
    && (best != null ==> b.pprev != null && Rooted(best) && Path(best)[0] == Path(b)[0])
  }

  /** A new entry under its parent. */
  predicate Entered(b: BlockIndex, pprev: BlockIndex?, hash: Hash, nBits: nat, nTime: int, stake: bool, vtx: seq<Placed>) {
    && b.pprev == pprev && b.hash == hash && b.nBits == nBits && b.nTime == nTime && b.proofOfStake == stake && b.vtx == vtx
    && b.nChainTrust == (if pprev == null then 0 else pprev.nChainTrust) + BlockTrust(nBits)
  }

  /** The verdict on a new entry: written, and set as the best block if it has more trust. */
  ghost predicate Outcome(w: World, b: BlockIndex, best: BlockIndex?, bestHeight: int, bestTrust: nat, ok: bool, complete: bool) {
    && Comparable(b, best)
    && (ok <==> w.written && (b.nChainTrust > bestTrust ==> SetBestOk(w, b, best, bestHeight)))
    && (complete <==> (ok && b.nChainTrust > bestTrust ==> CompleteOk(w, b, best, bestHeight)))
  }

  lemma AncestorRoot(a: BlockIndex, b: BlockIndex)
    requires Rooted(b) && IsAncestor(a, b)
    ensures Rooted(a) && Path(a)[0] == Path(b)[0]
  {
    AncestorPath(a, b);
    assert Path(a)[0] == Path(b)[..a.nHeight + 1][0];
  }

  class ChainState {
    const genesisHash: Hash
    const db: ChainDb

    var mapBlockIndex: map<Hash, BlockIndex>
    var pindexGenesisBlock: BlockIndex?
    var pindexBest: BlockIndex?
    var hashBestChain: Hash
    var nBestHeight: int
    var nBestChainTrust: nat
    var pblockindexFBBHLast: BlockIndex?

    /** The values of mapBlockIndex. */
    ghost var nodes: set<BlockIndex>

    /** The map holds a tree with one root. */
    ghost predicate Indexed()
      reads this`mapBlockIndex, this`nodes
    {
      && (forall h :: h in mapBlockIndex ==> mapBlockIndex[h] in nodes && mapBlockIndex[h].hash == h)
      && (forall b :: b in nodes ==> b.hash in mapBlockIndex && mapBlockIndex[b.hash] == b)
      && (forall b :: b in nodes && b.pprev != null ==> b.pprev in nodes)
      && (forall b :: b in nodes ==> EntryOk(b, genesisHash, db.disk))
    }

    /** The best-chain variables, the forward links and the stored index describe one branch. */
    ghost predicate AtBest(best: BlockIndex)
      reads this, db, nodes
    {
      && best in nodes && Rooted(best)
      && pindexBest == best && hashBestChain == best.hash && nBestHeight == best.nHeight
      && nBestChainTrust == best.nChainTrust && pindexGenesisBlock == Path(best)[0]
      && LinkedTo(nodes, best, best.nHeight)
      && db.chain == Blocks(best)
      && (pblockindexFBBHLast != null ==> IsAncestor(pblockindexFBBHLast, best))
    }

    ghost predicate Empty()
      reads this, db
    {
      pindexBest == null && pindexGenesisBlock == null && nBestChainTrust == 0 && pblockindexFBBHLast == null && db.chain == []
    }

    ghost predicate Valid()
      reads this, db, nodes
    {
      && Indexed() && db.Valid()
      && if pindexBest == null then Empty() && nodes == {} else AtBest(pindexBest)
    }

    constructor (genesisHash: Hash, disk: Disk)
      ensures Valid() && fresh(db) && this.genesisHash == genesisHash && db.disk == disk
      ensures nodes == {} && mapBlockIndex == map[] && pindexBest == null
    {
      this.genesisHash := genesisHash;
      db := new ChainDb(disk);
      mapBlockIndex, nodes := map[], {};
      pindexGenesisBlock, pindexBest, pblockindexFBBHLast := null, null, null;
      hashBestChain, nBestHeight, nBestChainTrust := NULL_HASH, -1, 0;
    }

    /** CBlockIndex::IsInMainChain. */
    predicate IsInMainChain(b: BlockIndex)
      reads this, b
    {
      b.pnext != null || b == pindexBest
    }

    /** The main chain is the best block's path, and pnext walks it. */
    lemma MainChainIsPath(b: BlockIndex)
      requires Valid() && b in nodes
      ensures pindexBest != null && Rooted(pindexBest)
      ensures IsInMainChain(b) <==> IsAncestor(b, pindexBest)
      ensures b.pnext != null ==> b.nHeight < pindexBest.nHeight && b.pnext == Path(pindexBest)[b.nHeight + 1] && b.pnext.pprev == b
    {
      if b.pnext != null {
        PathAt(pindexBest, b.nHeight + 1);
      }
    }

    // ------------------------------------------------------------- database

    method TxnAbort(index: Index, supplies: seq<int>, chain: seq<seq<Placed>>)
      requires Sound(db.disk, index, supplies, chain)
      modifies db
      ensures db.Valid() && db.index == index && db.supplies == supplies && db.chain == chain
    {
      db.index, db.supplies, db.chain := index, supplies, chain;
    }

    /** Disconnects blocks from the tip of the stored index downwards; only a failed read stops it. */
    method DisconnectBranch(vDisconnect: seq<BlockIndex>, ghost best: BlockIndex, w: World) returns (ok: bool)
      requires db.Valid() && Rooted(best) && db.chain == Blocks(best) && |vDisconnect| <= best.nHeight
      requires forall i :: 0 <= i < |vDisconnect| ==> vDisconnect[i] == Path(best)[best.nHeight - i]
      modifies db
      ensures ok <==> BranchReads(w, best, best.nHeight - |vDisconnect|)
      ensures ok ==> db.Valid() && db.chain == Blocks(best)[..best.nHeight - |vDisconnect|]
    {
      hide ChainDb.Valid, Path, Rooted, Blocks, DisconnectAll;
      for i := 0 to |vDisconnect|
        invariant db.Valid() && db.chain == Blocks(best)[..best.nHeight - i]
        invariant BranchReads(w, best, best.nHeight - i)
      {
        assert vDisconnect[i] == Path(best)[best.nHeight - i];
        if !w.readOld(vDisconnect[i].hash) {
          return false;
        }
        TipBlock(best, best.nHeight - i);
        ChainDbShape(db);
        var done := db.DisconnectBlock(vDisconnect[i].vtx);
        assert done;
      }
      ok := true;
    }

    /** Connects the blocks of tip's path above a height, as long as they can be read and pass. */
    method ConnectBranch(vConnect: seq<BlockIndex>, ghost tip: BlockIndex, ghost h: nat, w: World) returns (ok: bool)
      requires db.Valid() && Rooted(tip) && h <= tip.nHeight && db.chain == Blocks(tip)[..h]
      requires vConnect == Path(tip)[h + 1..] && BranchGood(db.disk, Blocks(tip)) && SameDisk(w, db.disk)
      modifies db
      ensures ok <==> BranchPasses(w, tip, h, nBestHeight)
      ensures ok ==> db.Valid() && db.chain == Blocks(tip)
    {
      hide ChainDb.Valid, Path, Rooted, Blocks, BranchGood, BlockOk, ConnectAll, Tally, Minted, Passes, Balances, StakeGains, SumValues, Flatten, Fresh, Located, OnDisk, TipSupply;
      for i := 0 to |vConnect|
        invariant db.Valid() && db.chain == Blocks(tip)[..h + i]
        invariant forall k :: h < k <= h + i ==> w.read(Path(tip)[k].hash) && Passes(w, tip, k, nBestHeight)
      {
        var k := h + i + 1;
        assert vConnect[i] == Path(tip)[k];
        ConnectReady(db, tip, k, w, nBestHeight);
        if !w.read(vConnect[i].hash) {
          return false;
        }
        var done, mint := db.ConnectBlock(vConnect[i].vtx, w.env(vConnect[i].hash), nBestHeight);
        if !done {
          return false;
        }
      }
      ok := true;
    }

    // ------------------------------------------------------------ forward links

    /** Takes the links into the disconnected blocks away, top down. */
    method Unlink(vDisconnect: seq<BlockIndex>, ghost best: BlockIndex)
      requires best in nodes && Rooted(best) && |vDisconnect| <= best.nHeight && Indexed()
      requires forall i :: 0 <= i < |vDisconnect| ==> vDisconnect[i] == Path(best)[best.nHeight - i]
      requires LinkedTo(nodes, best, best.nHeight)
      modifies nodes
      ensures LinkedTo(nodes, best, best.nHeight - |vDisconnect|)
    {
      hide Path, Rooted, EntryOk;
      for i := 0 to |vDisconnect|
        invariant LinkedTo(nodes, best, best.nHeight - i)
      {
        var pindex := vDisconnect[i];
        PathAt(best, best.nHeight - i);
        PathAt(best, best.nHeight - i - 1);
        PathInTree(best, best.nHeight - i - 1);
        if pindex.pprev != null {
          pindex.pprev.pnext := null;
        }
      }
    }

    /** Links the next block of tip's path. */
    method LinkOne(pindex: BlockIndex, ghost tip: BlockIndex)
      requires Indexed() && tip in nodes && Rooted(tip) && IsAncestor(pindex, tip) && pindex.nHeight > 0
      requires LinkedTo(nodes, tip, pindex.nHeight - 1)
      modifies nodes
      ensures LinkedTo(nodes, tip, pindex.nHeight)
    {
      hide Path, Rooted, EntryOk;
      PathAt(tip, pindex.nHeight - 1);
      PathAt(tip, pindex.nHeight);
      PathInTree(tip, pindex.nHeight - 1);
      pindex.pprev.pnext := pindex;
    }

    /** Links the connected blocks, bottom up. */
    method Link(vConnect: seq<BlockIndex>, ghost tip: BlockIndex, ghost h: nat)
      requires tip in nodes && Rooted(tip) && h <= tip.nHeight && vConnect == Path(tip)[h + 1..] && Indexed()
      requires LinkedTo(nodes, tip, h)
      modifies nodes
      ensures LinkedTo(nodes, tip, tip.nHeight)
    {
      hide Path, Rooted, EntryOk;
      for i := 0 to |vConnect|
        invariant LinkedTo(nodes, tip, h + i)
      {
        PathAt(tip, h + i + 1);
        LinkOne(vConnect[i], tip);
      }
    }

    lemma {:induction false} PathInTree(b: BlockIndex, i: nat)
      requires Indexed() && b in nodes && Rooted(b) && i <= b.nHeight
      ensures Path(b)[i] in nodes
      decreases b.nHeight
    {
      if i < b.nHeight {
        PathInTree(b.pprev, i);
      }
    }

    lemma SameRoot(a: BlockIndex, b: BlockIndex)
      requires Indexed() && a in nodes && b in nodes && Rooted(a) && Rooted(b)
      ensures Path(a)[0] == Path(b)[0]
    {
      PathAt(a, 0);
      PathAt(b, 0);
      PathInTree(a, 0);
      PathInTree(b, 0);
    }

    // ------------------------------------------------------------ best chain

    /** Reorganize: the database moves to the new branch first, the links follow only once that is committed. */
    method Reorganize(pindexNew: BlockIndex, w: World) returns (ok: bool)
      requires Valid() && pindexBest != null && pindexNew in nodes && Rooted(pindexNew)
      requires Rooted(pindexBest) && Path(pindexBest)[0] == Path(pindexNew)[0] && SameDisk(w, db.disk)
      modifies db, nodes
      ensures ok <==> ReorganizeOk(w, pindexBest, pindexNew, nBestHeight)
      ensures ok ==> db.Valid() && db.chain == Blocks(pindexNew) && LinkedTo(nodes, pindexNew, pindexNew.nHeight)
      ensures !ok ==> unchanged(nodes)
    {
      hide Path, Rooted, ChainDb.Valid, Blocks, BranchGood, LowestCommon, LinkedTo, CutOff, Reverse, EntryOk, ChainState.Indexed;
      hide BranchReads, BranchPasses, ForkHeight;
      var best: BlockIndex := pindexBest;
      NodeOk(pindexNew);
      var fork := FindFork(best, pindexNew);
      ForkFacts(best, pindexNew, fork);
      var vDisconnect := Branch(best, fork);
      var vConnect := Branch(pindexNew, fork);
      LaterAt(vDisconnect, best, fork.nHeight);
      vConnect := Reverse(vConnect);
      ReverseTwice(Path(pindexNew)[fork.nHeight + 1..]);
      ok := MoveIndex(vDisconnect, vConnect, best, pindexNew, fork, w);
      if !ok {
        return;
      }
      Unlink(vDisconnect, best);
      LinkedShared(nodes, best, pindexNew, fork);
      Link(vConnect, pindexNew, fork.nHeight);
    }

    /** The database part of Reorganize: down to the fork, up the new branch, commit. */
    method MoveIndex(vDisconnect: seq<BlockIndex>, vConnect: seq<BlockIndex>, ghost best: BlockIndex, tip: BlockIndex,
                     ghost fork: BlockIndex, w: World) returns (ok: bool)
      requires db.Valid() && Rooted(best) && Rooted(tip) && db.chain == Blocks(best) && BranchGood(db.disk, Blocks(tip))
      requires fork.nHeight <= best.nHeight && fork.nHeight <= tip.nHeight && Blocks(best)[..fork.nHeight] == Blocks(tip)[..fork.nHeight]
      requires |vDisconnect| == best.nHeight - fork.nHeight
      requires forall i :: 0 <= i < |vDisconnect| ==> vDisconnect[i] == Path(best)[best.nHeight - i]
      requires vConnect == Path(tip)[fork.nHeight + 1..] && SameDisk(w, db.disk)
      modifies db
      ensures ok <==> BranchReads(w, best, fork.nHeight) && BranchPasses(w, tip, fork.nHeight, nBestHeight) && w.commits(tip.hash)
      ensures ok ==> db.Valid() && db.chain == Blocks(tip)
    {
      hide Path, Rooted, ChainDb.Valid, Blocks, BranchGood, BranchReads, BranchPasses;
      ok := DisconnectBranch(vDisconnect, best, w);
      if !ok {
        return;
      }
      ok := ConnectBranch(vConnect, tip, fork.nHeight, w);
      if !ok {
        return;
      }
      ok := w.commits(tip.hash);
    }

    /** SetBestChainInner: connect one more block of tip's path and link it. */
    method SetBestChainInner(pindexNew: BlockIndex, ghost tip: BlockIndex, w: World) returns (ok: bool)
      requires Indexed() && db.Valid() && tip in nodes && Rooted(tip) && IsAncestor(pindexNew, tip) && pindexNew.nHeight > 0
      requires LinkedTo(nodes, tip, pindexNew.nHeight - 1) && db.chain == Blocks(tip)[..pindexNew.nHeight - 1]
      requires SameDisk(w, db.disk)
      modifies db, nodes
      ensures db.Valid()
      ensures ok <==> Passes(w, tip, pindexNew.nHeight, nBestHeight) && w.commits(pindexNew.hash)
      ensures ok ==> LinkedTo(nodes, tip, pindexNew.nHeight) && db.chain == Blocks(tip)[..pindexNew.nHeight]
      ensures !ok ==> unchanged(nodes)
      ensures !ok ==> db.index == old(db.index) && db.chain == old(db.chain) && db.supplies == old(db.supplies)
    {
      hide Path, Rooted, ChainDb.Valid, Blocks, BranchGood, BlockOk, ConnectAll, Tally, Minted, LinkedTo, CutOff, Fresh, OnDisk, Sound, Passes, Balances, StakeGains, SumValues, Flatten, TipSupply;
      NodeOk(tip);
      ValidIsSound(db);
      var index, supplies, chain := db.index, db.supplies, db.chain;
      ConnectReady(db, tip, pindexNew.nHeight, w, nBestHeight);
      var mint;
      ok, mint := db.ConnectBlock(pindexNew.vtx, w.env(pindexNew.hash), nBestHeight);
      if !ok || !w.commits(pindexNew.hash) {
        TxnAbort(index, supplies, chain);
        return false;
      }
      LinkOne(pindexNew, tip);
    }

    /** The first block of the new branch that beats the best one, and the blocks above it, top down. */
    method SplitBranch(pindexNew: BlockIndex, best: BlockIndex) returns (first: BlockIndex, later: seq<BlockIndex>)
      requires Rooted(pindexNew)
      ensures first == FirstAbove(pindexNew, best.nChainTrust) && later == Reverse(Path(pindexNew)[first.nHeight + 1..])
    {
      hide Path, Rooted, Reverse;
      first, later := pindexNew, [];
      AllLater(pindexNew);
      while first.pprev != null && first.pprev.nChainTrust > best.nChainTrust
        invariant IsAncestor(first, pindexNew) && later == Reverse(Path(pindexNew)[first.nHeight + 1..])
        invariant Rooted(first) && FirstAbove(first, best.nChainTrust) == FirstAbove(pindexNew, best.nChainTrust)
        decreases first.nHeight
      {
        OneLater(first, pindexNew);
        later := later + [first];
        first := first.pprev;
      }
    }

    lemma AllLater(tip: BlockIndex)
      requires Rooted(tip)
      ensures Reverse(Path(tip)[tip.nHeight + 1..]) == []
    {
    }

    lemma OneLater(b: BlockIndex, tip: BlockIndex)
      requires Rooted(tip) && IsAncestor(b, tip) && b.pprev != null
      ensures Rooted(b.pprev) && IsAncestor(b.pprev, tip) && b.pprev.nHeight == b.nHeight - 1
      ensures Reverse(Path(tip)[b.nHeight + 1..]) + [b] == Reverse(Path(tip)[b.nHeight..])
    {
      AncestorPath(b, tip);
      hide Path, Rooted;
      ParentFacts(b);
    }

    /** The loop of SetBestChain over the postponed blocks; it stops at the first failure, and then a link is missing. */
    method ConnectLater(later: seq<BlockIndex>, ghost tip: BlockIndex, ghost h: nat, w: World) returns (complete: bool)
      requires Indexed() && db.Valid() && tip in nodes && Rooted(tip) && h <= tip.nHeight
      requires later == Reverse(Path(tip)[h + 1..]) && LinkedTo(nodes, tip, h) && db.chain == Blocks(tip)[..h]
      requires SameDisk(w, db.disk)
      modifies db, nodes
      ensures db.Valid() && (complete <==> LaterOk(w, tip, h, nBestHeight))
      ensures complete ==> LinkedTo(nodes, tip, tip.nHeight) && db.chain == Blocks(tip)
      ensures !complete ==> CutOff(nodes, tip)
    {
      hide Path, Rooted, ChainDb.Valid, Blocks, LinkedTo, CutOff, EntryOk, Reverse, ChainState.Indexed, Passes;
      LaterAt(later, tip, h);
      var i := |later|;
      while i > 0
        invariant 0 <= i <= |later| && db.Valid()
        invariant LinkedTo(nodes, tip, tip.nHeight - i) && db.chain == Blocks(tip)[..tip.nHeight - i]
        invariant forall k :: h < k <= tip.nHeight - i ==>
          w.read(Path(tip)[k].hash) && Passes(w, tip, k, nBestHeight) && w.begins(Path(tip)[k].hash) && w.commits(Path(tip)[k].hash)
      {
        var pindex := later[i - 1];
        ghost var k := tip.nHeight - (i - 1);
        assert pindex == Path(tip)[k];
        var done := w.read(pindex.hash) && w.begins(pindex.hash);
        if done {
          done := SetBestChainInner(pindex, tip, w);
        }
        if !done {
          MissingLink(tip, tip.nHeight - i);
          assert !(w.read(Path(tip)[k].hash) && Passes(w, tip, k, nBestHeight) && w.begins(Path(tip)[k].hash) && w.commits(Path(tip)[k].hash));
          return false;
        }
        i := i - 1;
      }
      complete := true;
    }

    lemma MissingLink(tip: BlockIndex, h: int)
      requires Indexed() && tip in nodes && Rooted(tip) && 0 <= h < tip.nHeight && LinkedTo(nodes, tip, h)
      ensures CutOff(nodes, tip)
    {
      PathInTree(tip, h);
      PathAt(tip, h);
      assert IsAncestor(Path(tip)[h], tip) && Path(tip)[h].pnext == null;
    }

    /** SetBestChain when the new block's parent is the best block. */
    method ExtendBest(pindexNew: BlockIndex, w: World) returns (ok: bool)
      requires Valid() && pindexNew in nodes && Rooted(pindexNew) && pindexNew.pprev != null && pindexNew.pprev == pindexBest
      requires SameDisk(w, db.disk)
      modifies db, nodes
      ensures db.Valid() && pindexNew.nHeight > 0
      ensures ok <==> Passes(w, pindexNew, pindexNew.nHeight, nBestHeight) && w.commits(pindexNew.hash)
      ensures ok ==> LinkedTo(nodes, pindexNew, pindexNew.nHeight) && db.chain == Blocks(pindexNew)
      ensures !ok ==> unchanged(nodes)
      ensures !ok ==> db.index == old(db.index) && db.chain == old(db.chain) && db.supplies == old(db.supplies)
    {
      hide Path, Rooted, ChainDb.Valid, Blocks, LinkedTo, CutOff, EntryOk, Passes;
      ParentFacts(pindexNew);
      LinkedShared(nodes, pindexBest, pindexNew, pindexBest);
      ok := SetBestChainInner(pindexNew, pindexNew, w);
    }

    /** SetBestChain when the new block is on another branch: reorganise to the first block that beats the best one, then go on. */
    method SwitchBranch(pindexNew: BlockIndex, w: World) returns (ok: bool, complete: bool)
      requires Valid() && pindexNew in nodes && Rooted(pindexNew) && pindexBest != null && SameDisk(w, db.disk)
      requires Rooted(pindexBest) && Path(pindexBest)[0] == Path(pindexNew)[0]
      modifies db, nodes
      ensures db.Valid()
      ensures var first := FirstAbove(pindexNew, pindexBest.nChainTrust);
        && Path(first)[0] == Path(pindexBest)[0] && (ok <==> ReorganizeOk(w, pindexBest, first, nBestHeight))
        && (ok ==> (complete <==> LaterOk(w, pindexNew, first.nHeight, nBestHeight)))
      ensures ok && complete ==> LinkedTo(nodes, pindexNew, pindexNew.nHeight) && db.chain == Blocks(pindexNew)
      ensures ok && !complete ==> CutOff(nodes, pindexNew)
      ensures !ok ==> unchanged(nodes)
      ensures !ok ==> db.index == old(db.index) && db.chain == old(db.chain) && db.supplies == old(db.supplies)
    {
      hide Path, Rooted, ChainDb.Valid, Blocks, LinkedTo, CutOff, EntryOk, Sound, ReorganizeOk, LaterOk, FirstAbove;
      ValidIsSound(db);
      complete := true;
      var index, supplies, chain := db.index, db.supplies, db.chain;
      var first, later := SplitBranch(pindexNew, pindexBest);
      AncestorRoot(first, pindexNew);
      PathInTree(pindexNew, first.nHeight);
      BlocksAt(pindexNew, first.nHeight);
      ok := Reorganize(first, w);
      if !ok {
        TxnAbort(index, supplies, chain);
        return;
      }
      LinkedShared(nodes, first, pindexNew, first);
      complete := ConnectLater(later, pindexNew, first.nHeight, w);
    }

    /**
      SetBestChain.  On failure nothing has changed.  On success the new block is the best one;
      the links and the index follow it exactly when every postponed block was connected as well.
      Both verdicts are fixed by the blocks and the outcomes met.
    */
    method SetBestChain(pindexNew: BlockIndex, w: World) returns (ok: bool, complete: bool)
      requires Indexed() && db.Valid() && pindexNew in nodes && SameDisk(w, db.disk)
      requires if pindexBest == null then Empty() && nodes == {pindexNew} && pindexNew.pprev == null && pindexNew.pnext == null
               else AtBest(pindexBest) && pindexNew.pprev != null
      modifies this, db, nodes
      ensures Indexed() && db.Valid() && mapBlockIndex == old(mapBlockIndex) && nodes == old(nodes)
      ensures Comparable(pindexNew, old(pindexBest)) && (ok <==> SetBestOk(w, pindexNew, old(pindexBest), old(nBestHeight)))
      ensures ok ==> (complete <==> CompleteOk(w, pindexNew, old(pindexBest), old(nBestHeight)))
      ensures !ok ==> unchanged(this) && unchanged(nodes) && complete
      ensures !ok ==> db.index == old(db.index) && db.chain == old(db.chain) && db.supplies == old(db.supplies)
      ensures ok ==> pindexBest == pindexNew && Rooted(pindexNew) && nBestChainTrust == pindexNew.nChainTrust
      ensures ok && complete ==> Valid()
      ensures ok && !complete ==> CutOff(nodes, pindexNew)
    {
      hide Path, Rooted, ChainDb.Valid, Blocks, LinkedTo, CutOff, EntryOk, ChainState.Indexed, ReorganizeOk, LaterOk, FirstAbove, Passes;
      ok, complete := w.begin, true;
      NodeOk(pindexNew);
      if pindexBest != null {
        SameRoot(pindexBest, pindexNew);
      }
      if !ok {
        return;
      }
      if pindexGenesisBlock == null && pindexNew.hash == genesisHash {
        ok := w.commits(pindexNew.hash);
        if !ok {
          return;
        }
        RootFacts(nodes, pindexNew);
        pindexGenesisBlock := pindexNew;
      } else {
        ParentIsBest(pindexNew);
        if pindexNew.pprev.hash == hashBestChain {
          ok := ExtendBest(pindexNew, w);
        } else {
          ok, complete := SwitchBranch(pindexNew, w);
        }
        if !ok {
          complete := true;
          return;
        }
      }
      hashBestChain, pindexBest, pblockindexFBBHLast := pindexNew.hash, pindexNew, null;
      nBestHeight, nBestChainTrust := pindexNew.nHeight, pindexNew.nChainTrust;
    }

    /** Comparing hashes tells whether a block's parent is the best block. */
    lemma ParentIsBest(b: BlockIndex)
      requires Indexed() && b in nodes && b.pprev != null && pindexBest != null && pindexBest in nodes
      ensures b.pprev.hash == pindexBest.hash <==> b.pprev == pindexBest
    {
    }

    // ------------------------------------------------------------ new blocks

    /** Adds an entry to the tree; nothing points to it yet. */
    method Insert(hash: Hash, pprev: BlockIndex?, nBits: nat, nTime: int, stake: bool, vtx: seq<Placed>) returns (b: BlockIndex)
      requires Valid() && hash !in mapBlockIndex
      requires if pprev == null then nodes == {} && hash == genesisHash else pprev in nodes && Rooted(pprev)
      requires pprev != null ==> nBits == GetCompact(NextTarget(pprev, stake)) && BranchGood(db.disk, Blocks(pprev) + [vtx])
      modifies this`mapBlockIndex, this`nodes
      ensures Indexed() && fresh(b) && nodes == old(nodes) + {b} && mapBlockIndex == old(mapBlockIndex)[hash := b]
      ensures Entered(b, pprev, hash, nBits, nTime, stake, vtx) && b.pnext == null
      ensures pindexBest == null ==> Empty() && nodes == {b} && pprev == null
      ensures pindexBest != null ==> AtBest(pindexBest)
    {
      hide Path, Rooted, ChainDb.Valid, Blocks, EntryOk, NextTarget, BlockTrust, GetCompact;
      b := new BlockIndex(hash, pprev, nBits, nTime, stake, vtx);
      NewEntryOk(b);
      if pindexBest != null {
        NotOnPath(pindexBest, b);
      }
      mapBlockIndex := mapBlockIndex[hash := b];
      nodes := nodes + {b};
    }

    lemma NewEntryOk(b: BlockIndex)
      requires if b.pprev == null then b.hash == genesisHash && b.nHeight == 0 else Rooted(b.pprev) && b.nHeight == b.pprev.nHeight + 1
      requires b.pprev != null ==> b.nBits == GetCompact(NextTarget(b.pprev, b.proofOfStake)) && BranchGood(db.disk, Blocks(b.pprev) + [b.vtx])
      requires b.nChainTrust == (if b.pprev == null then 0 else b.pprev.nChainTrust) + BlockTrust(b.nBits)
      ensures EntryOk(b, genesisHash, db.disk)
    {
      hide GetCompact, SetCompact, NextTarget;
      if b.pprev != null {
        RequiredTarget(b.pprev, b.proofOfStake);
      }
    }

    lemma NotOnPath(best: BlockIndex, b: BlockIndex)
      requires Indexed() && best in nodes && Rooted(best) && b !in nodes
      ensures !IsAncestor(b, best)
    {
      if b.nHeight <= best.nHeight {
        PathInTree(best, b.nHeight);
      }
    }

    /** CBlock::AddToBlockIndex, for a block whose parent is known or for the genesis block of an empty tree. */
    method AddToBlockIndex(hash: Hash, hashPrev: Hash, nBits: nat, nTime: int, stake: bool, vtx: seq<Placed>, w: World)
      returns (ok: bool, complete: bool)
      requires Valid() && SameDisk(w, db.disk)
      requires hashPrev !in mapBlockIndex ==> nodes == {} && hash == genesisHash && BlockTrust(nBits) > 0
      requires hashPrev in mapBlockIndex ==> Rooted(mapBlockIndex[hashPrev])
      requires hashPrev in mapBlockIndex ==> nBits == GetCompact(NextTarget(mapBlockIndex[hashPrev], stake))
      requires hashPrev in mapBlockIndex && hash !in mapBlockIndex && w.prepared ==>
        BranchGood(db.disk, Blocks(mapBlockIndex[hashPrev]) + [vtx])
      modifies this, db, nodes
      ensures Indexed() && db.Valid() && old(nodes) <= nodes && fresh(nodes - old(nodes))
      ensures complete && (ok || old(pindexBest) != null) ==> Valid()
      ensures pindexBest != null ==> Rooted(pindexBest)
      ensures hash in old(mapBlockIndex) || !w.prepared ==> !ok && complete && unchanged(this)
      ensures hash !in old(mapBlockIndex) && w.prepared ==>
        && hash in mapBlockIndex && mapBlockIndex == old(mapBlockIndex)[hash := mapBlockIndex[hash]]
        && Entered(mapBlockIndex[hash], old(if hashPrev in mapBlockIndex then mapBlockIndex[hashPrev] else null), hash, nBits, nTime, stake, vtx)
        && Outcome(w, mapBlockIndex[hash], old(pindexBest), old(nBestHeight), old(nBestChainTrust), ok, complete)
        && pindexBest == if ok && mapBlockIndex[hash].nChainTrust > old(nBestChainTrust) then mapBlockIndex[hash] else old(pindexBest)
      ensures !complete ==> ok && CutOff(nodes, pindexBest)
    {
      hide Path, Rooted, ChainDb.Valid, Blocks, LinkedTo, CutOff, EntryOk, NextTarget, BranchGood, SetCompact, GetCompact, BlockTrust;
      hide SetBestOk, CompleteOk;
      ok, complete := false, true;
      if hash in mapBlockIndex || !w.prepared {
        BestFacts();
        return;
      }
      var pprev: BlockIndex? := if hashPrev in mapBlockIndex then mapBlockIndex[hashPrev] else null;
      var pindexNew := Insert(hash, pprev, nBits, nTime, stake, vtx);
      NewComparable(pindexNew);
      if !w.written {
        return;
      }
      ok := true;
      if pindexNew.nChainTrust > nBestChainTrust {
        ok, complete := SetBestChain(pindexNew, w);
      }
    }

    lemma BestFacts()
      requires Valid()
      ensures if pindexBest == null then nBestChainTrust == 0 else Rooted(pindexBest) && nBestChainTrust == pindexBest.nChainTrust
    {
    }

    lemma NewComparable(b: BlockIndex)
      requires Indexed() && b in nodes && (pindexBest == null ==> b.pprev == null) && (pindexBest != null ==> b.pprev != null)
      requires pindexBest != null ==> pindexBest in nodes && Rooted(pindexBest)
      ensures Comparable(b, pindexBest)
    {
      NodeOk(b);
      if pindexBest != null {
        SameRoot(pindexBest, b);
      }
    }

    /**
      AcceptBlock: the parent must be known, the target the required one, and everything else in order.
      The ids on an entering block's own branch are taken to be pairwise different.
    */
    method AcceptBlock(hash: Hash, hashPrev: Hash, nBits: nat, nTime: int, stake: bool, vtx: seq<Placed>, w: World)
      returns (ok: bool, complete: bool)
      requires Valid() && pindexBest != null && SameDisk(w, db.disk)
      requires hashPrev in mapBlockIndex ==> Rooted(mapBlockIndex[hashPrev])
      requires Enters(hash, hashPrev, nBits, stake, w) ==> BranchGood(db.disk, Blocks(mapBlockIndex[hashPrev]) + [vtx])
      modifies this, db, nodes
      ensures old(nodes) <= nodes && fresh(nodes - old(nodes)) && pindexBest != null && Rooted(pindexBest) && (complete ==> Valid())
      ensures !old(Enters(hash, hashPrev, nBits, stake, w)) ==> !ok && complete && unchanged(this)
      ensures old(Enters(hash, hashPrev, nBits, stake, w)) ==>
        && hash in mapBlockIndex && mapBlockIndex == old(mapBlockIndex)[hash := mapBlockIndex[hash]]
        && Entered(mapBlockIndex[hash], old(mapBlockIndex)[hashPrev], hash, nBits, nTime, stake, vtx)
        && Outcome(w, mapBlockIndex[hash], old(pindexBest), old(nBestHeight), old(nBestChainTrust), ok, complete)
        && 0 < SetCompact(nBits) <= TARGET_LIMIT && mapBlockIndex[hash].nChainTrust > old(mapBlockIndex)[hashPrev].nChainTrust
        && pindexBest == if ok && mapBlockIndex[hash].nChainTrust > old(nBestChainTrust) then mapBlockIndex[hash] else old(pindexBest)
      ensures !complete ==> ok && CutOff(nodes, pindexBest)
    {
      hide Path, Rooted, ChainDb.Valid, Blocks, LinkedTo, CutOff, NextTarget, BranchGood, SetCompact, GetCompact, BlockTrust, Outcome;
      ok, complete := false, true;
      if hash in mapBlockIndex || hashPrev !in mapBlockIndex {
        BestFacts();
        return;
      }
      var required := GetNextTargetRequired(mapBlockIndex[hashPrev], stake);
      if nBits != required || !w.otherRules {
        BestFacts();
        return;
      }
      ok, complete := AddToBlockIndex(hash, hashPrev, nBits, nTime, stake, vtx, w);
    }

    /** The block gets into the tree. */
    ghost predicate Enters(hash: Hash, hashPrev: Hash, nBits: nat, stake: bool, w: World)
      reads this
    {
      && hash !in mapBlockIndex && hashPrev in mapBlockIndex && Rooted(mapBlockIndex[hashPrev])
      && nBits == GetCompact(NextTarget(mapBlockIndex[hashPrev], stake)) && w.otherRules && w.prepared
    }

    /** FindBlockByHeight: from whichever starting point, the best chain's block at that height. */
    method FindBlockByHeight(nHeight: int) returns (r: BlockIndex)
      requires Valid() && pindexBest != null && 0 <= nHeight <= pindexBest.nHeight
      modifies this`pblockindexFBBHLast
      ensures Valid() && Rooted(pindexBest) && r == Path(pindexBest)[nHeight]
    {
      hide Rooted, Path, ChainDb.Valid, EntryOk, Blocks;
      var best: BlockIndex := pindexBest;
      PathAt(best, 0);
      r := if nHeight < nBestHeight / 2 then pindexGenesisBlock else best;
      if pblockindexFBBHLast != null && Abs(nHeight - r.nHeight) > Abs(nHeight - pblockindexFBBHLast.nHeight) {
        r := pblockindexFBBHLast;
      }
      while r.nHeight > nHeight
        invariant IsAncestor(r, best)
        decreases r.nHeight
      {
        PathAt(best, r.nHeight);
        PathAt(best, r.nHeight - 1);
        r := r.pprev;
      }
      while r.nHeight < nHeight
        invariant IsAncestor(r, best) && r.nHeight <= nHeight
        decreases nHeight - r.nHeight
      {
        MainChainInTree(best, r);
        PathAt(best, r.nHeight + 1);
        r := r.pnext;
      }
      pblockindexFBBHLast := r;
    }

    lemma MainChainInTree(best: BlockIndex, b: BlockIndex)
      requires Indexed() && best in nodes && Rooted(best) && IsAncestor(b, best)
      ensures b in nodes
    {
      PathInTree(best, b.nHeight);
    }

    lemma NodeOk(b: BlockIndex)
      requires Indexed() && b in nodes
      ensures Rooted(b) && BranchGood(db.disk, Blocks(b)) && (b.pprev == null ==> b.hash == genesisHash)
    {
    }
  }

  lemma RootFacts(nodes: set<BlockIndex>, b: BlockIndex)
    requires Rooted(b) && b.pprev == null && nodes == {b} && b.pnext == null
    ensures b.nHeight == 0 && Path(b)[0] == b && Blocks(b) == [] && LinkedTo(nodes, b, 0)
  {
  }

  lemma ParentFacts(b: BlockIndex)
    requires Rooted(b) && b.pprev != null
    ensures Rooted(b.pprev) && IsAncestor(b.pprev, b) && b.pprev.nHeight == b.nHeight - 1
    ensures Blocks(b)[..b.nHeight - 1] == Blocks(b.pprev)
  {
  }

  lemma ReverseTwice(s: seq<BlockIndex>)
    ensures Reverse(Reverse(s)) == s
  {
  }

  lemma LaterAt(later: seq<BlockIndex>, tip: BlockIndex, h: nat)
    requires Rooted(tip) && h <= tip.nHeight && later == Reverse(Path(tip)[h + 1..])
    ensures |later| == tip.nHeight - h
    ensures forall j :: 0 <= j < |later| ==> later[j] == Path(tip)[tip.nHeight - j] && later[j].nHeight == tip.nHeight - j
  {
    forall j | 0 <= j < |later| ensures later[j].nHeight == tip.nHeight - j {
      PathAt(tip, tip.nHeight - j);
    }
  }

  lemma ForkFacts(a: BlockIndex, b: BlockIndex, f: BlockIndex)
    requires Rooted(a) && Rooted(b) && LowestCommon(f, a, b)
    ensures IsAncestor(f, a) && IsAncestor(f, b) && Blocks(a)[..f.nHeight] == Blocks(b)[..f.nHeight]
    ensures f.nHeight <= a.nHeight && f.nHeight <= b.nHeight
    ensures Path(a)[0] == Path(b)[0] && ForkHeight(a, b) == f.nHeight
  {
    MeetBelow(a, b, f);
    assert Path(a)[0] == Path(a)[..f.nHeight + 1][0];
    CommonIs(Path(a), Path(b), f.nHeight + 1);
  }

  function Abs(x: int): (r: int) { if x < 0 then -x else x }

  lemma ChainDbShape(db: ChainDb)
    requires db.Valid()
    ensures |db.supplies| == |db.chain|
  {
  }

  lemma TipBlock(b: BlockIndex, k: nat)
    requires Rooted(b) && 0 < k <= b.nHeight
    ensures Path(b)[k].vtx == Blocks(b)[k - 1]
  {
    PathAt(b, k);
    BlocksAt(b, k);
  }

  lemma {:induction false} BranchPrefix(disk: Disk, chain: seq<seq<Placed>>, k: nat)
    requires k <= |chain| && BranchGood(disk, chain)
    ensures BranchGood(disk, chain[..k])
    decreases |chain|
  {
    if k < |chain| {
      var n := |chain| - 1;
      SplitFacts(disk, Flatten(chain[..n]), chain[n]);
      BranchPrefix(disk, chain[..n], k);
      assert chain[..n][..k] == chain[..k];
    } else {
      assert chain[..k] == chain;
    }
  }

  /** The next block of a branch can be connected once those below it are. */
  lemma ConnectReady(db: ChainDb, tip: BlockIndex, k: nat, w: World, bestHeight: int)
    requires db.Valid() && Rooted(tip) && 0 < k <= tip.nHeight && db.chain == Blocks(tip)[..k - 1]
    requires BranchGood(db.disk, Blocks(tip))
    ensures Admissible(db.disk, db.index, Path(tip)[k].vtx) && Located(Path(tip)[k].vtx)
    ensures db.chain + [Path(tip)[k].vtx] == Blocks(tip)[..k]
    ensures Passes(w, tip, k, bestHeight) <==> BlockOk(w.env(Path(tip)[k].hash), db.index, Path(tip)[k].vtx, Subsidy(bestHeight))
  {
    hide GoodChain, SuppliesOk, Flatten, Replay, BranchGood, BlockOk;
    TipBlock(tip, k);
    assert db.chain + [Path(tip)[k].vtx] == Blocks(tip)[..k];
    BranchPrefix(db.disk, Blocks(tip), k);
    BranchAdmits(db.disk, db.chain, Path(tip)[k].vtx, db.index);
  }
}
