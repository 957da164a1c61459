/**
  CBlockLocator (src/chain.h): a short description of a branch that another node
  can match against its own main chain.
*/
module BlockLocator {
  import opened Primitives
  import opened BitStrings
  import opened BlockTree
  import opened ChainStates

  /** The step taken after entry k. */
  function Step(k: nat): (r: nat)
    ensures r > 0
  {
    if k <= 10 then 1 else 2 * Step(k - 1)
  }

  /** How far back entry k lies. */
  function Back(k: nat): (r: nat) {
    if k == 0 then 0 else Back(k - 1) + Step(k - 1)
  }

  /** One block at a time for eleven entries, then in doubling steps. */
  lemma {:induction false} BackShape(k: nat)
    ensures k <= 11 ==> Back(k) == k
    ensures k >= 11 ==> Back(k) == 9 + 2 * Pow2(k - 11) && Step(k) == 2 * Pow2(k - 11)
  {
    if k > 0 {
      BackShape(k - 1);
    }
  }

  lemma BackNext(k: nat)
    ensures Back(0) == 0 && Step(0) == 1 && Back(k + 1) == Back(k) + Step(k)
    ensures Step(k + 1) == if k >= 10 then 2 * Step(k) else Step(k)
    ensures Back(k + 1) > 10 <==> k >= 10
  {
    BackShape(k + 1);
    if k > 10 {
      BackIncreases(11, k + 1);
    }
  }

  lemma {:induction false} BackIncreases(j: nat, k: nat)
    requires j < k
    ensures Back(j) < Back(k)
  {
    if j < k - 1 {
      BackIncreases(j, k - 1);
    }
  }

  /** The first entry at or beyond a distance is less than twice as far. */
  lemma FirstBeyond(k: nat, d: nat)
    requires k > 0 ==> Back(k - 1) < d
    requires Back(k) >= d
    ensures d <= 11 ==> Back(k) == d
    ensures d > 11 ==> Back(k) < 2 * d
  {
    BackShape(k);
    if k > 0 {
      BackShape(k - 1);
    }
    if k > 11 {
      assert Back(k) == 2 * Back(k - 1) - 9;
    }
  }

  /** The first entry, counting from j, that lies at least d back. */
  function FirstReaching(d: nat, j: nat): (k: nat)
    ensures k >= j && Back(k) >= d && (k > j ==> Back(k - 1) < d)
    decreases d - Back(j)
  {
    if Back(j) >= d then j else FirstReaching(d, j + 1)
  }

  lemma ReachingIs(d: nat, k: nat)
    requires Back(k) >= d && (k > 0 ==> Back(k - 1) < d)
    ensures FirstReaching(d, 0) == k
  {
    var r := FirstReaching(d, 0);
    if r < k {
      if r < k - 1 {
        BackIncreases(r, k - 1);
      }
    } else if r > k && k < r - 1 {
      BackIncreases(k, r - 1);
    }
  }

  /** The hash is that of a main-chain block. */
  predicate OnMain(st: ChainState, h: Hash)
    reads st, st.nodes
    requires st.Indexed()
  {
    h in st.mapBlockIndex && st.IsInMainChain(st.mapBlockIndex[h])
  }

  /** How many entries come before the first that is in the main chain. */
  ghost function FirstOnMain(st: ChainState, have: seq<Hash>): (k: nat)
    reads st, st.nodes
    requires st.Indexed()
    ensures k <= |have|
  {
    if have == [] || OnMain(st, have[0]) then 0 else 1 + FirstOnMain(st, have[1..])
  }

  lemma {:induction false} FirstIs(st: ChainState, have: seq<Hash>, k: nat)
    requires st.Indexed() && k <= |have| && (forall j :: 0 <= j < k ==> !OnMain(st, have[j])) && (k < |have| ==> OnMain(st, have[k]))
    ensures FirstOnMain(st, have) == k
  {
    hide ChainState.Indexed, OnMain;
    if k > 0 {
      FirstIs(st, have[1..], k - 1);
    }
  }

  lemma {:induction false} FirstFacts(st: ChainState, have: seq<Hash>)
    requires st.Indexed()
    ensures var k := FirstOnMain(st, have);
      (forall j :: 0 <= j < k ==> !OnMain(st, have[j])) && (k < |have| ==> OnMain(st, have[k]))
  {
    hide ChainState.Indexed, OnMain;
    if have != [] && !OnMain(st, have[0]) {
      FirstFacts(st, have[1..]);
    }
  }

  /** Entries of p's path at the distances Back(0), Back(1), ... and the genesis block. */
  ghost predicate Describes(have: seq<Hash>, p: BlockIndex, genesis: Hash)
    requires Rooted(p)
  {
    && |have| > 1 && have[|have| - 1] == genesis
    && Back(|have| - 2) <= p.nHeight < Back(|have| - 1)
    && forall k :: 0 <= k < |have| - 1 ==> Back(k) <= p.nHeight && have[k] == Path(p)[p.nHeight - Back(k)].hash
  }

  class Locator {
    var vHave: seq<Hash>

    constructor ()
      ensures vHave == []
    {
      vHave := [];
    }

    /** n steps towards the root, or null beyond it. */
    static method StepBack(p: BlockIndex, from: BlockIndex, n: nat) returns (r: BlockIndex?)
      requires Rooted(p) && IsAncestor(from, p)
      ensures r == if n <= from.nHeight then Path(p)[from.nHeight - n] else null
    {
      r := from;
      var i := 0;
      while r != null && i < n
        invariant i <= n
        invariant r == null ==> i > from.nHeight
        invariant r != null ==> i <= from.nHeight && r == Path(p)[from.nHeight - i]
        decreases n - i
      {
        PathAt(p, from.nHeight - i);
        r := r.pprev;
        i := i + 1;
      }
    }

    /** CBlockLocator::Set. */
    method Set(p: BlockIndex, genesis: Hash)
      requires Rooted(p)
      modifies this
      ensures Describes(vHave, p, genesis)
      ensures |vHave| > 12 ==> 9 + 2 * Pow2(|vHave| - 13) <= p.nHeight
    {
      hide Path, Rooted, Back, Step, Pow2;
      BackNext(0);
      vHave := [];
      var nStep := 1;
      var pindex: BlockIndex? := p;
      while pindex != null
        invariant nStep == Step(|vHave|)
        invariant pindex == if Back(|vHave|) <= p.nHeight then Path(p)[p.nHeight - Back(|vHave|)] else null
        invariant |vHave| > 0 ==> Back(|vHave| - 1) <= p.nHeight
        invariant forall k :: 0 <= k < |vHave| ==> Back(k) <= p.nHeight && vHave[k] == Path(p)[p.nHeight - Back(k)].hash
        decreases p.nHeight - Back(|vHave|)
      {
        PathAt(p, p.nHeight - Back(|vHave|));
        BackNext(|vHave|);
        vHave := vHave + [pindex.hash];
        pindex := StepBack(p, pindex, nStep);
        if |vHave| > 10 {
          nStep := nStep * 2;
        }
      }
      if |vHave| >= 12 {
        BackShape(|vHave| - 1);
      }
      vHave := vHave + [genesis];
    }

    /** CBlockLocator::GetBlockIndex: the first known main-chain block, else the genesis block. */
    method GetBlockIndex(st: ChainState) returns (r: BlockIndex)
      requires st.Indexed() && st.pindexGenesisBlock != null
      ensures var k := FirstOnMain(st, vHave);
        if k < |vHave| then vHave[k] in st.mapBlockIndex && r == st.mapBlockIndex[vHave[k]] else r == st.pindexGenesisBlock
    {
      hide ChainState.Indexed, FirstOnMain;
      for i := 0 to |vHave|
        invariant forall j :: 0 <= j < i ==> !OnMain(st, vHave[j])
      {
        if vHave[i] in st.mapBlockIndex {
          var pindex := st.mapBlockIndex[vHave[i]];
          if st.IsInMainChain(pindex) {
            FirstIs(st, vHave, i);
            return pindex;
          }
        }
      }
      FirstIs(st, vHave, |vHave|);
      return st.pindexGenesisBlock;
    }

    /** CBlockLocator::GetDistanceBack. */
    method GetDistanceBack(st: ChainState) returns (d: nat)
      requires st.Indexed()
      ensures d == Back(FirstOnMain(st, vHave))
    {
      hide ChainState.Indexed, Back, Step, FirstOnMain;
      BackNext(0);
      d := 0;
      var nStep := 1;
      for i := 0 to |vHave|
        invariant d == Back(i) && nStep == Step(i)
        invariant forall j :: 0 <= j < i ==> !OnMain(st, vHave[j])
      {
        if vHave[i] in st.mapBlockIndex && st.IsInMainChain(st.mapBlockIndex[vHave[i]]) {
          FirstIs(st, vHave, i);
          return;
        }
        BackNext(i);
        d := d + nStep;
        if d > 10 {
          nStep := nStep * 2;
        }
      }
      FirstIs(st, vHave, |vHave|);
    }
  }

  // --------------------------------------------------------------- two nodes

  /** A block's hash fixes its height and its parent's hash. */
  ghost predicate Committed(p: BlockIndex, q: BlockIndex)
    requires Rooted(p) && Rooted(q)
  {
    forall i, j :: 0 <= i <= p.nHeight && 0 <= j <= q.nHeight && Path(p)[i].hash == Path(q)[j].hash ==>
      i == j && (i > 0 ==> Path(p)[i - 1].hash == Path(q)[i - 1].hash)
  }

  /** The branches of p and q have exactly the blocks up to height f in common. */
  ghost predicate ForkAt(p: BlockIndex, q: BlockIndex, f: nat)
    requires Rooted(p) && Rooted(q)
  {
    && f <= p.nHeight && f <= q.nHeight && Path(p)[f].hash == Path(q)[f].hash
    && forall i :: f < i <= p.nHeight && i <= q.nHeight ==> Path(p)[i].hash != Path(q)[i].hash
  }

  /** Nodes with the same genesis block always have a fork. */
  lemma ForkExists(p: BlockIndex, q: BlockIndex) returns (f: nat)
    requires Rooted(p) && Rooted(q) && Path(p)[0].hash == Path(q)[0].hash
    ensures ForkAt(p, q, f)
  {
    hide Path, Rooted;
    f := if p.nHeight <= q.nHeight then p.nHeight else q.nHeight;
    while Path(p)[f].hash != Path(q)[f].hash
      invariant f <= p.nHeight && f <= q.nHeight
      invariant forall i :: f < i <= p.nHeight && i <= q.nHeight ==> Path(p)[i].hash != Path(q)[i].hash
      decreases f
    {
      f := f - 1;
    }
  }

  lemma {:induction false} CommonBelow(p: BlockIndex, q: BlockIndex, f: nat, i: nat)
    requires Rooted(p) && Rooted(q) && Committed(p, q) && ForkAt(p, q, f) && i <= f
    ensures Path(p)[i].hash == Path(q)[i].hash
    decreases f - i
  {
    if i < f {
      CommonBelow(p, q, f, i + 1);
    }
  }

  /** What a node's main chain has of another node's branch is what lies below the fork. */
  lemma KnownBelowFork(st: ChainState, p: BlockIndex, f: nat, i: nat)
    requires st.Valid() && st.pindexBest != null && Rooted(st.pindexBest) && Rooted(p) && i <= p.nHeight
    requires Committed(p, st.pindexBest) && ForkAt(p, st.pindexBest, f)
    ensures OnMain(st, Path(p)[i].hash) <==> i <= f
    ensures i <= f ==> Path(p)[i].hash in st.mapBlockIndex && st.mapBlockIndex[Path(p)[i].hash] == Path(st.pindexBest)[i]
    ensures i <= f <= st.pindexBest.nHeight ==> Path(st.pindexBest)[i].hash == Path(p)[i].hash
  {
    var q := st.pindexBest;
    var h := Path(p)[i].hash;
    if i <= f {
      CommonBelow(p, q, f, i);
      st.PathInTree(q, i);
      PathAt(q, i);
      st.MainChainIsPath(Path(q)[i]);
    }
    if OnMain(st, h) {
      var j := MainHeight(st, h);
      assert j == i;
    }
  }

  lemma MainHeight(st: ChainState, h: Hash) returns (j: nat)
    requires st.Valid() && st.pindexBest != null && Rooted(st.pindexBest) && OnMain(st, h)
    ensures j <= st.pindexBest.nHeight && Path(st.pindexBest)[j].hash == h
  {
    var b := st.mapBlockIndex[h];
    st.MainChainIsPath(b);
    j := b.nHeight;
  }

  /**
    A locator for any tip, looked up on a node whose main chain leaves that branch D blocks back:
    the common block at the first listed distance from D on, which is D itself when D is at most 11 and
    less than 2D otherwise.  If that distance goes beyond the genesis block, the genesis block is found
    and the distance reported is too large.
  */
  method Negotiate(p: BlockIndex, st: ChainState, ghost f: nat) returns (r: BlockIndex, d: nat)
    requires st.Valid() && st.pindexBest != null && Rooted(st.pindexBest) && Rooted(p)
    requires Committed(p, st.pindexBest) && ForkAt(p, st.pindexBest, f)
    ensures IsAncestor(r, st.pindexBest) && r.nHeight <= f && r.hash == Path(p)[r.nHeight].hash
    ensures d == Back(FirstReaching(p.nHeight - f, 0)) && r.nHeight == if d <= p.nHeight then p.nHeight - d else 0
    ensures if p.nHeight - f <= 11 then d == p.nHeight - f else d < 2 * (p.nHeight - f)
  {
    hide Path, Rooted, Committed, ForkAt, OnMain, EntryOk, Describes, FirstOnMain, FirstReaching;
    var loc := new Locator();
    loc.Set(p, st.genesisHash);
    GenesisShared(st, p, f);
    r := loc.GetBlockIndex(st);
    d := loc.GetDistanceBack(st);
    ghost var k := FirstOnMain(st, loc.vHave);
    FirstFacts(st, loc.vHave);
    EntryAtFork(loc.vHave, p, st, f, k, r);
  }

  /** The first entry on the main chain is the first one at or below the fork. */
  lemma EntryAtFork(have: seq<Hash>, p: BlockIndex, st: ChainState, f: nat, k: nat, r: BlockIndex)
    requires st.Valid() && st.pindexBest != null && Rooted(st.pindexBest) && Rooted(p)
    requires Committed(p, st.pindexBest) && ForkAt(p, st.pindexBest, f) && Describes(have, p, st.genesisHash)
    requires k <= |have| && (forall j :: 0 <= j < k ==> !OnMain(st, have[j]))
    requires if k < |have| then OnMain(st, have[k]) && r == st.mapBlockIndex[have[k]] else r == st.pindexGenesisBlock
    ensures IsAncestor(r, st.pindexBest) && r.nHeight <= f <= p.nHeight && r.hash == Path(p)[r.nHeight].hash
    ensures k == FirstReaching(p.nHeight - f, 0) && r.nHeight == if Back(k) <= p.nHeight then p.nHeight - Back(k) else 0
    ensures if p.nHeight - f <= 11 then Back(k) == p.nHeight - f else Back(k) < 2 * (p.nHeight - f)
  {
    hide Path, Rooted, Committed, ChainState.Valid, OnMain, Back, FirstReaching;
    var n := |have| - 1;
    GenesisShared(st, p, f);
    if k > 0 {
      KnownBelowFork(st, p, f, p.nHeight - Back(if k < n then k - 1 else n - 1));
    }
    if k < n {
      KnownBelowFork(st, p, f, p.nHeight - Back(k));
      PathAt(st.pindexBest, p.nHeight - Back(k));
    }
    FirstBeyond(k, p.nHeight - f);
    ReachingIs(p.nHeight - f, k);
  }

  lemma GenesisShared(st: ChainState, p: BlockIndex, f: nat)
    requires st.Valid() && st.pindexBest != null && Rooted(st.pindexBest) && Rooted(p)
    requires Committed(p, st.pindexBest) && ForkAt(p, st.pindexBest, f)
    ensures var g := Path(st.pindexBest)[0];
      && IsAncestor(g, st.pindexBest) && st.pindexGenesisBlock == g && g.nHeight == 0 && g.hash == st.genesisHash == Path(p)[0].hash
      && st.genesisHash in st.mapBlockIndex && st.mapBlockIndex[g.hash] == g && OnMain(st, g.hash)
  {
    KnownBelowFork(st, p, f, 0);
    PathAt(st.pindexBest, 0);
    st.PathInTree(st.pindexBest, 0);
  }
}
