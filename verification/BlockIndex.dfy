/**
  The block tree: index entries, their ancestor paths, and what is derived from a path alone
  (CBlockIndex and CChain in src/chain.h and src/chain.cpp, GetNextTargetRequired in src/main.cpp).
*/
module BlockTree {
  import opened Primitives
  import opened Collections
  import opened Numerals
  import opened TxIndexModel
  import opened Compact

  /** CBlockIndex.  Only pnext changes after construction. */
  class BlockIndex {
    const hash: Hash
    const pprev: BlockIndex?
    const nHeight: nat
    const nChainTrust: nat
    const nBits: nat
    const nTime: int
    const proofOfStake: bool

    /** The transactions stored in the block files. */
    const vtx: seq<Placed>

    var pnext: BlockIndex?

    constructor (hash: Hash, pprev: BlockIndex?, nBits: nat, nTime: int, proofOfStake: bool, vtx: seq<Placed>)
      ensures this.hash == hash && this.pprev == pprev && this.nBits == nBits && this.nTime == nTime
      ensures this.proofOfStake == proofOfStake && this.vtx == vtx && pnext == null
      ensures nHeight == if pprev == null then 0 else pprev.nHeight + 1
      ensures nChainTrust == (if pprev == null then 0 else pprev.nChainTrust) + BlockTrust(nBits)
    {
      this.hash, this.pprev, this.nBits, this.nTime := hash, pprev, nBits, nTime;
      this.proofOfStake, this.vtx := proofOfStake, vtx;
      nHeight := if pprev == null then 0 else pprev.nHeight + 1;
      nChainTrust := (if pprev == null then 0 else pprev.nChainTrust) + BlockTrust(nBits);
      pnext := null;
    }
  }

  /** Following pprev counts the height down to a root at height 0. */
  ghost predicate Rooted(b: BlockIndex)
    decreases b.nHeight
  {
    if b.pprev == null then b.nHeight == 0
    else b.nHeight == b.pprev.nHeight + 1 && Rooted(b.pprev)
  }

  /** The blocks from the root up to b. */
  ghost function Path(b: BlockIndex): (r: seq<BlockIndex>)
    requires Rooted(b)
    ensures |r| == b.nHeight + 1 && r[b.nHeight] == b
    decreases b.nHeight
  {
    if b.pprev == null then [b] else Path(b.pprev) + [b]
  }

  /** a is b or one of its ancestors. */
  ghost predicate IsAncestor(a: BlockIndex, b: BlockIndex)
    requires Rooted(b)
  {
    a.nHeight <= b.nHeight && Path(b)[a.nHeight] == a
  }

  lemma {:induction false} PathAt(b: BlockIndex, i: nat)
    requires Rooted(b) && i <= b.nHeight
    ensures Path(b)[i].nHeight == i && Rooted(Path(b)[i]) && Path(Path(b)[i]) == Path(b)[..i + 1]
    ensures Path(b)[i].pprev == if i == 0 then null else Path(b)[i - 1]
    decreases b.nHeight
  {
    if i < b.nHeight {
      PathAt(b.pprev, i);
      assert Path(b)[..i + 1] == Path(b.pprev)[..i + 1];
    }
  }

  lemma AncestorPath(a: BlockIndex, b: BlockIndex)
    requires Rooted(b) && IsAncestor(a, b)
    ensures Rooted(a) && Path(a) == Path(b)[..a.nHeight + 1]
    ensures a.pprev != null ==> IsAncestor(a.pprev, b)
  {
    PathAt(b, a.nHeight);
    if a.nHeight > 0 {
      PathAt(b, a.nHeight - 1);
    }
  }

  /** The transactions of the blocks above the root. */
  function Blocks(b: BlockIndex): (r: seq<seq<Placed>>)
    requires Rooted(b)
    ensures |r| == b.nHeight
    decreases b.nHeight
  {
    if b.pprev == null then [] else Blocks(b.pprev) + [b.vtx]
  }

  lemma {:induction false} BlocksAt(b: BlockIndex, i: nat)
    requires Rooted(b) && i <= b.nHeight
    ensures Rooted(Path(b)[i]) && Blocks(Path(b)[i]) == Blocks(b)[..i]
    decreases b.nHeight
  {
    if i < b.nHeight {
      BlocksAt(b.pprev, i);
    }
  }

  // -------------------------------------------------------------- common part

  /** f is on both paths and no higher block is. */
  ghost predicate LowestCommon(f: BlockIndex, a: BlockIndex, b: BlockIndex)
    requires Rooted(a) && Rooted(b)
  {
    && IsAncestor(f, a) && IsAncestor(f, b)
    && forall k :: f.nHeight < k <= a.nHeight && k <= b.nHeight ==> Path(a)[k] != Path(b)[k]
  }

  /** Two paths that meet at some height agree below it. */
  lemma MeetBelow(a: BlockIndex, b: BlockIndex, f: BlockIndex)
    requires Rooted(a) && Rooted(b) && IsAncestor(f, a) && IsAncestor(f, b)
    ensures Path(a)[..f.nHeight + 1] == Path(b)[..f.nHeight + 1] && Blocks(a)[..f.nHeight] == Blocks(b)[..f.nHeight]
  {
    AncestorPath(f, a);
    AncestorPath(f, b);
    BlocksAt(a, f.nHeight);
    BlocksAt(b, f.nHeight);
  }

  /** How long two paths agree. */
  ghost function Common(p: seq<BlockIndex>, q: seq<BlockIndex>): (n: nat)
    ensures n <= |p| && n <= |q|
  {
    if p == [] || q == [] || p[0] != q[0] then 0 else 1 + Common(p[1..], q[1..])
  }

  lemma {:induction false} CommonIs(p: seq<BlockIndex>, q: seq<BlockIndex>, n: nat)
    requires n <= |p| && n <= |q| && p[..n] == q[..n] && (n < |p| && n < |q| ==> p[n] != q[n])
    ensures Common(p, q) == n
  {
    if n > 0 {
      assert p[0] == p[..n][0] == q[..n][0] == q[0];
      assert p[1..][..n - 1] == p[..n][1..] && q[1..][..n - 1] == q[..n][1..];
      CommonIs(p[1..], q[1..], n - 1);
    }
  }

  /** The height of the last block that two branches share. */
  ghost function ForkHeight(a: BlockIndex, b: BlockIndex): (h: nat)
    requires Rooted(a) && Rooted(b) && Path(a)[0] == Path(b)[0]
    ensures h <= a.nHeight && h <= b.nHeight
  {
    Common(Path(a), Path(b)) - 1
  }

  /** The search for the fork in Reorganize; null when the roots differ. */
  method FindFork(best: BlockIndex, tip: BlockIndex) returns (fork: BlockIndex?)
    requires Rooted(best) && Rooted(tip)
    ensures fork != null ==> LowestCommon(fork, best, tip)
    ensures fork == null <==> Path(best)[0] != Path(tip)[0]
  {
    var pfork: BlockIndex, plonger: BlockIndex := best, tip;
    while pfork != plonger
      invariant IsAncestor(pfork, best) && IsAncestor(plonger, tip)
      invariant plonger.nHeight >= pfork.nHeight || plonger == tip
      invariant forall k :: pfork.nHeight < k <= best.nHeight && k <= tip.nHeight ==> Path(best)[k] != Path(tip)[k]
      decreases pfork.nHeight
    {
      AncestorPath(pfork, best);
      while plonger.nHeight > pfork.nHeight
        invariant IsAncestor(plonger, tip)
        invariant plonger.nHeight >= pfork.nHeight || plonger == tip
      {
        AncestorPath(plonger, tip);
        plonger := plonger.pprev;
      }
      if pfork == plonger {
        break;
      }
      if pfork.pprev == null {
        return null;
      }
      pfork := pfork.pprev;
    }
    MeetBelow(best, tip, pfork);
    assert Path(best)[..pfork.nHeight + 1][0] == Path(tip)[..pfork.nHeight + 1][0];
    fork := pfork;
  }

  /** The blocks from tip down to, but not including, an ancestor. */
  method Branch(tip: BlockIndex, fork: BlockIndex) returns (v: seq<BlockIndex>)
    requires Rooted(tip) && IsAncestor(fork, tip)
    ensures v == Reverse(Path(tip)[fork.nHeight + 1..])
  {
    v := [];
    var pindex: BlockIndex := tip;
    while pindex != fork
      invariant IsAncestor(pindex, tip) && pindex.nHeight >= fork.nHeight
      invariant v == Reverse(Path(tip)[pindex.nHeight + 1..])
      decreases pindex.nHeight
    {
      AncestorPath(pindex, tip);
      v := v + [pindex];
      pindex := pindex.pprev;
    }
  }

  // ------------------------------------------------------------------ retarget

  const POW_TARGET_SPACING: int := 60
  const POS_TARGET_SPACING: int := 64

  function Spacing(stake: bool): (r: int) { if stake then POS_TARGET_SPACING else POW_TARGET_SPACING }

  /** The highest block of the wanted kind at or below b, or the root. */
  ghost function LastOfKind(b: BlockIndex, stake: bool): (r: BlockIndex)
    requires Rooted(b)
    ensures IsAncestor(r, b) && (r.pprev == null || r.proofOfStake == stake)
    ensures forall k :: r.nHeight < k <= b.nHeight ==> Path(b)[k].proofOfStake != stake
    decreases b.nHeight
  {
    if b.pprev == null || b.proofOfStake == stake then b else LastOfKind(b.pprev, stake)
  }

  method GetLastBlockIndex(b: BlockIndex, stake: bool) returns (r: BlockIndex)
    requires Rooted(b)
    ensures r == LastOfKind(b, stake)
  {
    r := b;
    while r.pprev != null && r.proofOfStake != stake
      invariant Rooted(r) && LastOfKind(r, stake) == LastOfKind(b, stake)
      decreases r.nHeight
    {
      r := r.pprev;
    }
  }

  /** The time between the last two blocks of a kind, bounded. */
  function ClampSpacing(stake: bool, actual: int): (r: int)
    ensures 0 <= r && (stake ==> r <= 10 * Spacing(stake))
  {
    if actual < 0 then Spacing(stake)
    else if stake && actual > Spacing(stake) * 10 then Spacing(stake) * 10
    else actual
  }

  /** One step of the moving average, before clamping to the limit. */
  function Retarget(target: int, stake: bool, actual: int): (r: int) {
    target * (9 * Spacing(stake) + 2 * ClampSpacing(stake, actual)) / (11 * Spacing(stake))
  }

  /** A proof-of-stake target moves by a factor between 9/11 and 29/11. */
  lemma RetargetBounds(target: nat, actual: int)
    ensures 9 * target / 11 <= Retarget(target, true, actual) <= 29 * target / 11
  {
    var c := ClampSpacing(true, actual);
    var d := target * (9 * 64 + 2 * c);
    Spread(target, c);
    Quotients(target, d);
  }

  /** Blocks that come exactly on time leave the target alone. */
  lemma OnTimeKeeps(target: nat, stake: bool)
    ensures Retarget(target, stake, Spacing(stake)) == target
    ensures forall actual :: actual < 0 ==> Retarget(target, stake, actual) == target
  {
    var n := 11 * Spacing(stake);
    assert target * (9 * Spacing(stake) + 2 * Spacing(stake)) == target * n;
    DivExact(target, n);
  }

  /** The slower the blocks, the easier the next one. */
  lemma SlowerIsEasier(target: nat, stake: bool, a: int, b: int)
    requires 0 <= a <= b
    ensures Retarget(target, stake, a) <= Retarget(target, stake, b)
  {
    var x, y := 9 * Spacing(stake) + 2 * ClampSpacing(stake, a), 9 * Spacing(stake) + 2 * ClampSpacing(stake, b);
    Scale(x, y, target);
    DivGrows(target * x, target * y, 11 * Spacing(stake));
  }

  /** The ends of the range: blocks at once, and proof-of-stake blocks ten or more intervals apart. */
  lemma RetargetEnds(target: nat, stake: bool, actual: int)
    ensures Retarget(target, stake, 0) == 9 * target / 11
    ensures stake && actual >= 10 * Spacing(true) ==> Retarget(target, stake, actual) == 29 * target / 11
  {
    Cancel(9 * target, 11, Spacing(stake));
    Cancel(29 * target, 11, Spacing(true));
  }

  lemma Cancel(n: nat, d: nat, k: nat)
    requires d == 11 && (k == 60 || k == 64)
    ensures n * k / (d * k) == n / d
  {
    var q := n / d;
    assert n == q * d + n % d;
  }

  /** A proof-of-work target falls by no more than 9/11; above, it follows the time taken. */
  lemma WorkBounds(target: nat, actual: int)
    requires actual >= 0
    ensures 9 * target / 11 <= Retarget(target, false, actual)
    ensures 660 * Retarget(target, false, actual) <= target * (540 + 2 * actual) < 660 * Retarget(target, false, actual) + 660
  {
    RetargetEnds(target, false, actual);
    SlowerIsEasier(target, false, 0, actual);
  }

  /** Seen from the tip: a late block of a kind makes the next one no harder, an early one no easier, unless rounding leaves nothing. */
  lemma NextFollowsPace(last: BlockIndex, stake: bool, prev: BlockIndex, prevPrev: BlockIndex)
    requires Rooted(last) && prev == LastOfKind(last, stake) && prev.pprev != null && Rooted(prev.pprev)
    requires prevPrev == LastOfKind(prev.pprev, stake) && prevPrev.pprev != null && 0 < SetCompact(prev.nBits) <= TARGET_LIMIT
    ensures prev.nTime >= prevPrev.nTime + Spacing(stake) ==> NextTarget(last, stake) >= SetCompact(prev.nBits)
    ensures prevPrev.nTime <= prev.nTime <= prevPrev.nTime + Spacing(stake) && 9 * SetCompact(prev.nBits) >= 11 ==>
      NextTarget(last, stake) <= SetCompact(prev.nBits)
    ensures prev.nTime < prevPrev.nTime ==> NextTarget(last, stake) == SetCompact(prev.nBits)
  {
    hide SetCompact, Rooted, Path, LastOfKind, Retarget;
    var target, actual := SetCompact(prev.nBits), prev.nTime - prevPrev.nTime;
    OnTimeKeeps(target, stake);
    if actual >= Spacing(stake) {
      SlowerIsEasier(target, stake, Spacing(stake), actual);
    } else if actual >= 0 {
      SlowerIsEasier(target, stake, actual, Spacing(stake));
      SlowerIsEasier(target, stake, 0, actual);
      RetargetEnds(target, stake, actual);
    }
  }

  lemma Spread(target: nat, c: nat)
    requires c <= 640
    ensures target * 576 <= target * (9 * 64 + 2 * c) <= target * 1856
  {
    assert target * (9 * 64 + 2 * c) == target * 576 + 2 * (target * c);
    assert target * 640 == target * c + target * (640 - c);
  }

  lemma Quotients(t: nat, d: nat)
    requires t * 576 <= d <= t * 1856
    ensures 9 * t / 11 <= d / (11 * 64) <= 29 * t / 11
  {
    var q, a, b := d / 704, 9 * t / 11, 29 * t / 11;
    assert 704 * q <= d < 704 * q + 704;
    assert 11 * a <= 9 * t && 29 * t < 11 * b + 11;
    assert 704 * a <= d && d < 704 * b + 704;
  }

  function Clamped(target: int): (r: nat)
    ensures 0 < r <= TARGET_LIMIT
  {
    if target <= 0 || target > TARGET_LIMIT then TARGET_LIMIT else target
  }

  /** The target asked of the block after last. */
  ghost function NextTarget(last: BlockIndex, stake: bool): (r: nat)
    requires Rooted(last)
    ensures 0 < r <= TARGET_LIMIT
  {
    var prev := LastOfKind(last, stake);
    AncestorPath(prev, last);
    if prev.pprev == null then TARGET_LIMIT
    else
      var prevPrev := LastOfKind(prev.pprev, stake);
      if prevPrev.pprev == null then TARGET_LIMIT
      else Clamped(Retarget(SetCompact(prev.nBits), stake, prev.nTime - prevPrev.nTime))
  }

  /** GetNextTargetRequired. */
  method GetNextTargetRequired(last: BlockIndex, stake: bool) returns (nBits: nat)
    requires Rooted(last)
    ensures nBits == GetCompact(NextTarget(last, stake))
    ensures 0 < SetCompact(nBits) <= TARGET_LIMIT && BlockTrust(nBits) >= 1
  {
    hide SetCompact, GetCompact, BlockTrust;
    RequiredTarget(last, stake);
    var prev := GetLastBlockIndex(last, stake);
    AncestorPath(prev, last);
    if prev.pprev == null {
      return GetCompact(TARGET_LIMIT);
    }
    var prevPrev := GetLastBlockIndex(prev.pprev, stake);
    if prevPrev.pprev == null {
      return GetCompact(TARGET_LIMIT);
    }
    var targetSpacing := Spacing(stake);
    var actualSpacing := prev.nTime - prevPrev.nTime;
    if actualSpacing < 0 {
      actualSpacing := targetSpacing;
    } else if stake && actualSpacing > targetSpacing * 10 {
      actualSpacing := targetSpacing * 10;
    }
    var bnNew := SetCompact(prev.nBits);
    bnNew := bnNew * ((10 - 1) * targetSpacing + actualSpacing + actualSpacing);
    bnNew := bnNew / ((10 + 1) * targetSpacing);
    if bnNew <= 0 || bnNew > TARGET_LIMIT {
      bnNew := TARGET_LIMIT;
    }
    nBits := GetCompact(bnNew);
  }

  /** Whatever the history, the required target is positive, within the limit and worth some trust. */
  lemma RequiredTarget(last: BlockIndex, stake: bool)
    requires Rooted(last)
    ensures var nBits := GetCompact(NextTarget(last, stake));
      0 < SetCompact(nBits) <= NextTarget(last, stake) <= TARGET_LIMIT && BlockTrust(nBits) >= 1
  {
    hide SetCompact, GetCompact;
    LimitFits(NextTarget(last, stake));
    CompactTruncates(NextTarget(last, stake));
  }

  // -------------------------------------------------------------------- CChain

  /** Paths that hold the same block at its height agree up to it. */
  lemma SharedStart(a: BlockIndex, b: BlockIndex, f: BlockIndex)
    requires Rooted(a) && Rooted(b) && IsAncestor(f, a) && IsAncestor(f, b)
    ensures forall k :: 0 <= k <= f.nHeight ==> Path(a)[k] == Path(b)[k]
  {
    MeetBelow(a, b, f);
    assert forall k :: 0 <= k <= f.nHeight ==> Path(a)[k] == Path(a)[..f.nHeight + 1][k];
  }

  /** CChain: the main chain as a vector. */
  class Chain {
    var vChain: seq<BlockIndex?>

    /** The vector holds the path of its last element. */
    ghost predicate Valid()
      reads this
    {
      vChain != [] ==>
        var tip := vChain[|vChain| - 1];
        tip != null && Rooted(tip) && vChain == Path(tip)
    }

    constructor ()
      ensures Valid() && vChain == []
    {
      vChain := [];
    }

    /** vector::resize. */
    method Resize(n: nat)
      modifies this
      ensures |vChain| == n && forall k :: 0 <= k < n ==> vChain[k] == if k < |old(vChain)| then old(vChain)[k] else null
    {
      vChain := seq(n, k reads this requires 0 <= k => if k < |vChain| then vChain[k] else null);
    }

    /** CChain::SetTip stops at the first entry that is right already. */
    method SetTip(tip: BlockIndex?)
      requires Valid() && (tip != null ==> Rooted(tip))
      modifies this
      ensures Valid() && vChain == if tip == null then [] else Path(tip)
    {
      if tip == null {
        vChain := [];
        return;
      }
      hide Path, Rooted;
      ghost var was, path := vChain, Path(tip);
      Resize(tip.nHeight + 1);
      var pindex: BlockIndex? := tip;
      ghost var h := tip.nHeight;
      while pindex != null && vChain[pindex.nHeight] != pindex
        invariant |vChain| == |path| && -1 <= h < |path|
        invariant if pindex == null then h == -1 else h == pindex.nHeight && pindex == path[h]
        invariant forall k :: h < k < |path| ==> vChain[k] == path[k]
        invariant forall k :: 0 <= k <= h ==> vChain[k] == if k < |was| then was[k] else null
        decreases h
      {
        PathAt(tip, h);
        vChain := vChain[pindex.nHeight := pindex];
        pindex := pindex.pprev;
        h := h - 1;
      }
      if pindex != null {
        SharedStart(was[|was| - 1], tip, pindex);
      }
      assert vChain == Path(tip);
    }
  }

  /** Any run of SetTip calls leaves the path of the last tip. */
  method SetTips(chain: Chain, tips: seq<BlockIndex?>)
    requires chain.Valid() && forall tip: BlockIndex :: tip in tips ==> Rooted(tip)
    modifies chain
    ensures chain.Valid()
    ensures chain.vChain ==
      if tips == [] then old(chain.vChain)
      else if tips[|tips| - 1] == null then []
      else Path(tips[|tips| - 1])
  {
    for i := 0 to |tips|
      invariant chain.Valid()
      invariant chain.vChain ==
        if i == 0 then old(chain.vChain)
        else if tips[i - 1] == null then []
        else Path(tips[i - 1])
    {
      chain.SetTip(tips[i]);
    }
  }
}
