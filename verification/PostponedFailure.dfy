/**
  A run that leaves the best block's own ancestor outside the main chain: SetBestChain makes the new
  block the best one although connecting a postponed block failed.
*/
module PostponedFailure {
  import opened Primitives
  import opened TxIndexModel
  import opened TxLedger
  import opened BlockLedger
  import opened ChainLedger
  import opened Compact
  import opened BlockTree
  import opened ChainStates

  /** A transaction that only mints, the i-th in the block file. */
  function Mint(i: nat): (p: Placed) {
    Placed(Transaction(Hash(i), 1, 0, [OutPoint(NULL_HASH, NULL_INDEX)], [TxOut(1, NO_ROUNDS, [0])]), At(0, 0, i))
  }

  function Files(): (r: Disk) {
    map[At(0, 0, 1) := Mint(1).tx, At(0, 0, 2) := Mint(2).tx, At(0, 0, 3) := Mint(3).tx, At(0, 0, 4) := Mint(4).tx]
  }

  const LENIENT := Env(Files(), true, _ => false, (_, _, _) => true, _ => 0, (_, _) => 0)

  /** All goes well, except that database transactions may not begin. */
  function Outside(begin: bool, begins: bool): (w: World) {
    World(_ => LENIENT, true, true, true, begin, _ => true, _ => true, _ => begins, _ => true)
  }

  /** Blocks of one minting transaction each, in file order. */
  predicate Mints(chain: seq<seq<Placed>>) {
    && (forall k :: 0 <= k < |chain| ==> |chain[k]| == 1 && exists i :: 1 <= i <= 4 && chain[k][0] == Mint(i))
    && forall j, k :: 0 <= j < k < |chain| ==> chain[j][0].tx.id != chain[k][0].tx.id
  }

  lemma {:induction false} FlattenMints(chain: seq<seq<Placed>>)
    requires Mints(chain)
    ensures |Flatten(chain)| == |chain| && forall k :: 0 <= k < |chain| ==> Flatten(chain)[k] == chain[k][0]
    ensures Replay(Flatten(chain)).Some?
  {
    if chain != [] {
      var rest := chain[..|chain| - 1];
      FlattenMints(rest);
      var ledger := Flatten(chain);
      assert ledger == Flatten(rest) + chain[|rest|];
      assert ledger[..|ledger| - 1] == Flatten(rest);
    }
  }

  lemma MintsGood(chain: seq<seq<Placed>>)
    requires Mints(chain)
    ensures BranchGood(Files(), chain)
  {
    FlattenMints(chain);
  }

  lemma MintPasses(view: Index, i: nat, subsidy: int)
    requires subsidy >= 1
    ensures BlockOk(LENIENT, view, [Mint(i)], subsidy)
  {
    var vtx := [Mint(i)];
    var tx := vtx[0].tx;
    assert tx.vout[..0] == [];
    assert SumValues(tx.vout) == 1;
    assert CheckTransaction(tx) && CheckBlock(vtx);
    assert vtx[..0] == [];
    assert Tally(LENIENT, view, []) == NOTHING && ConnectAll(view, []) == Some(view) && Accepts(LENIENT, view, []);
    assert Tally(LENIENT, view, vtx) == AddTotals(LENIENT, view, NOTHING, tx);
  }

  lemma MintsPass(begin: bool, begins: bool, tip: BlockIndex, h: nat, bestHeight: int)
    requires Rooted(tip) && Mints(Blocks(tip))
    ensures BranchPasses(Outside(begin, begins), tip, h, bestHeight)
  {
    hide Rooted, Path, Blocks, BlockOk, Replay;
    forall k | h < k <= tip.nHeight ensures Passes(Outside(begin, begins), tip, k, bestHeight) {
      var below := Blocks(tip)[..k - 1];
      FlattenMints(below);
      TipBlock(tip, k);
      assert |Blocks(tip)[k - 1]| == 1;
      var i :| 1 <= i <= 4 && Blocks(tip)[k - 1][0] == Mint(i);
      assert Path(tip)[k].vtx == [Mint(i)];
      MintPasses(Replay(Flatten(below)).value, i, Subsidy(bestHeight));
    }
  }

  /** The node after a block has arrived on top of prev. */
  method Arrive(st: ChainState, prev: BlockIndex, hash: Hash, i: nat, begin: bool, begins: bool)
    returns (ok: bool, complete: bool, b: BlockIndex)
    requires st.Valid() && st.pindexBest != null && st.db.disk == Files()
    requires prev.hash in st.mapBlockIndex && st.mapBlockIndex[prev.hash] == prev && hash !in st.mapBlockIndex
    requires Rooted(prev) && Mints(Blocks(prev) + [[Mint(i)]])
    modifies st, st.db, st.nodes
    ensures hash in st.mapBlockIndex && st.mapBlockIndex == old(st.mapBlockIndex)[hash := b] && b.hash == hash
    ensures old(st.nodes) <= st.nodes && fresh(st.nodes - old(st.nodes))
    ensures b.pprev == prev && Rooted(b) && Blocks(b) == Blocks(prev) + [[Mint(i)]] && b.nChainTrust > prev.nChainTrust
    ensures b.nChainTrust == prev.nChainTrust + BlockTrust(GetCompact(NextTarget(prev, false)))
    ensures Outcome(Outside(begin, begins), b, old(st.pindexBest), old(st.nBestHeight), old(st.nBestChainTrust), ok, complete)
    ensures st.pindexBest == if ok && b.nChainTrust > old(st.nBestChainTrust) then b else old(st.pindexBest)
    ensures complete ==> st.Valid()
    ensures !complete ==> st.pindexBest != null && Rooted(st.pindexBest) && CutOff(st.nodes, st.pindexBest)
  {
    hide ChainState.Valid, NextTarget, SetCompact, GetCompact, BlockTrust, BranchGood, SetBestOk, CompleteOk, CutOff, Mints, Path;
    MintsGood(Blocks(prev) + [[Mint(i)]]);
    var nBits := GetNextTargetRequired(prev, false);
    ok, complete := st.AcceptBlock(hash, prev.hash, nBits, 0, false, [Mint(i)], Outside(begin, begins));
    b := st.mapBlockIndex[hash];
  }

  /** A new node with its genesis block. */
  method Start() returns (st: ChainState, g: BlockIndex)
    ensures fresh(st) && fresh(st.db) && fresh(st.nodes) && st.Valid() && st.db.disk == Files()
    ensures g == st.pindexBest && g.hash == Hash(1) && st.mapBlockIndex == map[g.hash := g] && g.pprev == null && Rooted(g)
  {
    hide ChainState.Valid, Path, Rooted, Blocks, SetCompact, GetCompact, BlockTrust, NextTarget, BranchGood, Mints, Mint;
    hide Passes, ReorganizeOk, LaterOk, FirstAbove, CutOff;
    st := new ChainState(Hash(1), Files());
    LimitFits(TARGET_LIMIT);
    CompactTruncates(TARGET_LIMIT);
    var nBits := GetCompact(TARGET_LIMIT);
    st.BestFacts();
    var ok, complete := st.AddToBlockIndex(Hash(1), NULL_HASH, nBits, 0, false, [], Outside(true, true));
    g := st.mapBlockIndex[Hash(1)];
  }

  lemma MintsAre(chain: seq<seq<Placed>>)
    requires chain == [[Mint(1)]] || chain == [[Mint(2)]] || chain == [[Mint(2)], [Mint(3)]] || chain == [[Mint(2)], [Mint(3)], [Mint(4)]]
    ensures Mints(chain)
  {
  }

  /** The parent is the best block: the new one becomes it. */
  lemma Extends(b: BlockIndex, best: BlockIndex, bestHeight: int)
    requires Comparable(b, best) && b.pprev == best && Mints(Blocks(b))
    ensures SetBestOk(Outside(true, true), b, best, bestHeight) && CompleteOk(Outside(true, true), b, best, bestHeight)
  {
    hide Mints, Path;
    MintsPass(true, true, b, 0, bestHeight);
  }

  /** The refused parent beats the best block: it is the first to be connected, and the new block is postponed. */
  lemma Postpones(b: BlockIndex, best: BlockIndex, bestHeight: int)
    requires Comparable(b, best) && Mints(Blocks(b)) && b.pprev != best
    requires b.pprev.nChainTrust > best.nChainTrust && b.pprev.pprev != null && b.pprev.pprev.nChainTrust <= best.nChainTrust
    ensures SetBestOk(Outside(true, false), b, best, bestHeight) && !CompleteOk(Outside(true, false), b, best, bestHeight)
  {
    hide Mints, Passes;
    var w, first := Outside(true, false), FirstAbove(b, best.nChainTrust);
    assert first == b.pprev;
    AncestorRoot(first, b);
    assert Mints(Blocks(first)) by { MintsBelow(b); }
    MintsPass(true, false, first, ForkHeight(best, first), bestHeight);
    assert !w.begins(Path(b)[b.nHeight].hash);
  }

  lemma MintsBelow(b: BlockIndex)
    requires Rooted(b) && b.pprev != null && Mints(Blocks(b))
    ensures Mints(Blocks(b.pprev))
  {
    assert Blocks(b.pprev) == Blocks(b)[..b.nHeight - 1];
  }

  /** Two blocks of the same trust on top of the genesis block; the first is best. */
  method Fork() returns (st: ChainState, a1: BlockIndex, b1: BlockIndex)
    ensures fresh(st) && fresh(st.db) && fresh(st.nodes) && st.Valid() && st.db.disk == Files() && st.pindexBest == a1
    ensures b1.hash in st.mapBlockIndex && st.mapBlockIndex[b1.hash] == b1 && Rooted(b1) && Blocks(b1) == [[Mint(2)]]
    ensures b1.nChainTrust == a1.nChainTrust && a1.hash in st.mapBlockIndex
    ensures Hash(4) !in st.mapBlockIndex && Hash(5) !in st.mapBlockIndex
  {
    hide ChainState.Valid, Path, CutOff, Mints, SetBestOk, CompleteOk, BlockTrust, GetCompact, NextTarget, Rooted, Blocks;
    var g;
    st, g := Start();
    RootBlocks(g);
    st.BestFacts();
    MintsAre([[Mint(1)]]);
    assert Blocks(g) + [[Mint(1)]] == [[Mint(1)]];
    ghost var h := st.nBestHeight;
    var ok, complete;
    ok, complete, a1 := Arrive(st, g, Hash(2), 1, true, true);
    Extends(a1, g, h);
    st.BestFacts();
    MintsAre([[Mint(2)]]);
    assert Blocks(g) + [[Mint(2)]] == [[Mint(2)]];
    ok, complete, b1 := Arrive(st, g, Hash(3), 2, true, true);
  }

  /** A heavier block on the other branch is refused because its database transaction does not begin. */
  method Refused() returns (st: ChainState, a1: BlockIndex, b2: BlockIndex)
    ensures fresh(st) && fresh(st.db) && fresh(st.nodes) && st.Valid() && st.db.disk == Files() && st.pindexBest == a1
    ensures b2.hash in st.mapBlockIndex && st.mapBlockIndex[b2.hash] == b2 && Hash(5) !in st.mapBlockIndex && Rooted(b2)
    ensures Blocks(b2) == [[Mint(2)], [Mint(3)]] && b2 != a1 && b2.nChainTrust > a1.nChainTrust
    ensures b2.pprev != null && b2.pprev.nChainTrust <= a1.nChainTrust
  {
    hide ChainState.Valid, Path, CutOff, Mints, SetBestOk, CompleteOk, BlockTrust, GetCompact, NextTarget, Rooted, Blocks;
    var b1;
    st, a1, b1 := Fork();
    st.BestFacts();
    MintsAre([[Mint(2)], [Mint(3)]]);
    assert [[Mint(2)]] + [[Mint(3)]] == [[Mint(2)], [Mint(3)]];
    ghost var h := st.nBestHeight;
    var ok, complete;
    ok, complete, b2 := Arrive(st, b1, Hash(4), 3, false, true);
    NoBegin(b2, a1, h);
  }

  lemma NoBegin(b: BlockIndex, best: BlockIndex, bestHeight: int)
    requires Comparable(b, best)
    ensures !SetBestOk(Outside(false, true), b, best, bestHeight)
  {
  }

  /** The links do break: the best block has an ancestor that is not in the main chain. */
  method BrokenLinks() returns (st: ChainState)
    ensures st.pindexBest != null && Rooted(st.pindexBest) && CutOff(st.nodes, st.pindexBest)
  {
    hide ChainState.Valid, Path, CutOff, Mints, SetBestOk, CompleteOk, BlockTrust, GetCompact, NextTarget, Rooted, Blocks;
    var a1, b2;
    st, a1, b2 := Refused();
    st.BestFacts();
    MintsAre([[Mint(2)], [Mint(3)], [Mint(4)]]);
    assert [[Mint(2)], [Mint(3)]] + [[Mint(4)]] == [[Mint(2)], [Mint(3)], [Mint(4)]];
    ghost var h := st.nBestHeight;
    var ok, complete, b3 := Arrive(st, b2, Hash(5), 4, true, false);
    Postpones(b3, a1, h);
  }

  lemma RootBlocks(g: BlockIndex)
    requires Rooted(g) && g.pprev == null
    ensures Blocks(g) == []
  {
  }
}
