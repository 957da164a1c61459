/**
  Any run of arriving blocks and lookups by height.
*/
module ChainRuns {
  import opened Primitives
  import opened TxIndexModel
  import opened TxLedger
  import opened ChainLedger
  import opened Compact
  import opened BlockTree
  import opened ChainStates

  /** A block arrives, or a caller asks for the main-chain block at a height. */
  datatype Op =
    | Offer(hash: Hash, hashPrev: Hash, nBits: nat, nTime: int, stake: bool, vtx: seq<Placed>, w: World)
    | Find(height: int)

  /** Everything the node relies on: links, index and money supply all follow the best block. */
  ghost predicate InStep(st: ChainState)
    reads st, st.db, st.nodes
  {
    && st.Valid() && st.pindexBest != null && Rooted(st.pindexBest)
    && (forall b :: b in st.nodes ==> (st.IsInMainChain(b) <==> IsAncestor(b, st.pindexBest)))
    && LedgerOk(st.db, Blocks(st.pindexBest))
  }

  /** The index lists the chain's transactions and marks exactly the spent outputs; the supply is what is left. */
  ghost predicate LedgerOk(db: ChainDb, blocks: seq<seq<Placed>>)
    reads db
  {
    && Lists(db.index, Flatten(blocks)) && MarksSpenders(db.index, Flatten(blocks)) && NoDoubleSpend(Flatten(blocks))
    && GoodChain(db.disk, blocks) && TipSupply(db.supplies) == ChainUnspent(db.disk, blocks)
  }

  lemma StoredLedgerOk(db: ChainDb)
    requires db.Valid()
    ensures LedgerOk(db, db.chain)
  {
    hide Lists, MarksSpenders, NoDoubleSpend;
    GoodChainRecords(db.disk, db.chain);
    TipIsUnspent(db.disk, db.chain, db.supplies);
  }

  lemma StepReached(st: ChainState)
    requires st.Valid() && st.pindexBest != null
    ensures InStep(st)
  {
    hide ChainDb.Valid, LinkedTo, EntryOk, LedgerOk;
    forall b | b in st.nodes ensures st.IsInMainChain(b) <==> IsAncestor(b, st.pindexBest) {
      st.MainChainIsPath(b);
    }
    StoredLedgerOk(st.db);
  }

  /** No block of the tree has more trust than the best one. */
  ghost predicate Heaviest(st: ChainState)
    reads st`mapBlockIndex, st`nBestChainTrust
  {
    forall h :: h in st.mapBlockIndex ==> st.mapBlockIndex[h].nChainTrust <= st.nBestChainTrust
  }

  /** With nothing heavier waiting, there is never a postponed block. */
  lemma NothingPostponed(w: World, b: BlockIndex, best: BlockIndex?, bestHeight: int)
    requires Rooted(b) && (best != null && b.pprev != null ==> b.pprev.nChainTrust <= best.nChainTrust)
    ensures CompleteOk(w, b, best, bestHeight)
  {
  }

  lemma KnownRooted(st: ChainState, h: Hash)
    requires st.Valid() && h in st.mapBlockIndex
    ensures Rooted(st.mapBlockIndex[h])
  {
  }

  /** The block gets into the tree. */
  ghost predicate OpEnters(st: ChainState, op: Op)
    requires op.Offer?
    reads st
  {
    st.Enters(op.hash, op.hashPrev, op.nBits, op.stake, op.w)
  }

  /**
    A block is offered.  One that would enter and repeats a transaction id of its own branch is outside
    the model: it is skipped, and `good` says so.
  */
  method OfferBlock(st: ChainState, op: Op) returns (ok: bool, complete: bool, ghost good: bool)
    requires st.Valid() && st.pindexBest != null && op.Offer? && SameDisk(op.w, st.db.disk)
    modifies st, st.db, st.nodes
    ensures old(st.nodes) <= st.nodes && fresh(st.nodes - old(st.nodes))
    ensures good <==> (old(OpEnters(st, op)) ==> old(BranchGood(st.db.disk, Blocks(st.mapBlockIndex[op.hashPrev]) + [op.vtx])))
    ensures complete ==> st.Valid() && st.pindexBest != null && st.nBestChainTrust >= old(st.nBestChainTrust)
    ensures !complete ==> st.pindexBest != null && Rooted(st.pindexBest) && CutOff(st.nodes, st.pindexBest)
    ensures good && old(Heaviest(st)) && (old(OpEnters(st, op)) ==> ok) ==> complete && Heaviest(st)
  {
    hide Path, Rooted, ChainState.Valid, BranchGood, Blocks, CutOff, SetBestOk, CompleteOk, GetCompact, NextTarget, BlockTrust;
    ok, complete, good := false, true, true;
    if op.hashPrev in st.mapBlockIndex {
      KnownRooted(st, op.hashPrev);
      if !BranchGood(st.db.disk, Blocks(st.mapBlockIndex[op.hashPrev]) + [op.vtx]) {
        good := !OpEnters(st, op);
        return;
      }
    }
    st.BestFacts();
    ghost var best, bestHeight := st.pindexBest, st.nBestHeight;
    ok, complete := st.AcceptBlock(op.hash, op.hashPrev, op.nBits, op.nTime, op.stake, op.vtx, op.w);
    if old(Heaviest(st)) && old(OpEnters(st, op)) && ok {
      NothingPostponed(op.w, st.mapBlockIndex[op.hash], best, bestHeight);
    }
    if complete {
      st.BestFacts();
    }
  }

  /**
    Any run of arriving blocks and lookups.  It stays in step until a postponed connect fails (see CompleteOk).
    As long as no block that enters the tree is refused as the best one (`settled`), no postponed
    connect exists and the best block has the most trust of all.
  */
  method Run(st: ChainState, ops: seq<Op>) returns (complete: bool, ghost good: bool, ghost settled: bool)
    requires st.Valid() && st.pindexBest != null
    requires forall i :: 0 <= i < |ops| && ops[i].Offer? ==> SameDisk(ops[i].w, st.db.disk)
    modifies st, st.db, st.nodes
    ensures good && complete ==> InStep(st) && st.nBestChainTrust >= old(st.nBestChainTrust)
    ensures !complete ==> st.pindexBest != null && Rooted(st.pindexBest) && CutOff(st.nodes, st.pindexBest)
    ensures good && settled && old(Heaviest(st)) ==> complete && Heaviest(st)
  {
    hide ChainState.Valid, InStep, SameDisk, Heaviest, CutOff;
    complete, good, settled := true, true, true;
    for i := 0 to |ops|
      invariant complete && st.Valid() && st.pindexBest != null
      invariant old(st.nodes) <= st.nodes && fresh(st.nodes - old(st.nodes))
      invariant st.nBestChainTrust >= old(st.nBestChainTrust)
      invariant good && settled && old(Heaviest(st)) ==> Heaviest(st)
    {
      if ops[i].Offer? {
        ghost var enters := OpEnters(st, ops[i]);
        var ok; ghost var g;
        ok, complete, g := OfferBlock(st, ops[i]);
        good, settled := good && g, settled && (enters ==> ok);
        if !complete {
          return;
        }
      } else if 0 <= ops[i].height <= st.pindexBest.nHeight {
        var r := st.FindBlockByHeight(ops[i].height);
      }
    }
    StepReached(st);
  }
}
