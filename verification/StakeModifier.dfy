/**
  The choice of the blocks whose entropy bits make up the next stake modifier (src/kernel.cpp).
  The selection hash is an arbitrary function of a block's proof hash and the previous modifier.
*/
module StakeModifier {
  import opened Primitives
  import opened BitStrings
  import opened Collections
  import opened Numerals

  const MODIFIER_INTERVAL: int := 600
  const MODIFIER_INTERVAL_RATIO: int := 3
  const ROUNDS: nat := 64

  /** The parts of a block index entry that matter here. */
  datatype Block = Block(hash: Hash, time: nat, hashProof: Hash, proofOfStake: bool, entropy: bool, modifier: nat, generated: bool)

  type Selector = (Hash, nat) -> nat

  /** The selection hash; proof-of-stake blocks are favoured. */
  function SelectionHash(sel: Selector, prev: nat, b: Block): (r: nat) {
    var h := sel(b.hashProof, prev);
    if b.proofOfStake then h / 0x1_0000_0000 else h
  }

  // ---------------------------------------------------------------- intervals

  /** GetStakeModifierSelectionIntervalSection. */
  function Section(n: nat): (r: int)
    requires n < ROUNDS
    ensures 200 <= r <= 600
  {
    MODIFIER_INTERVAL * 63 / (63 + (63 - n) * (MODIFIER_INTERVAL_RATIO - 1))
  }

  /** Later sections are never shorter; the last is three times the first. */
  lemma SectionsGrow(m: nat, n: nat)
    requires m <= n < ROUNDS
    ensures Section(m) <= Section(n) && Section(0) == 200 && Section(63) == 600
  {
    var t, a, b := MODIFIER_INTERVAL * 63, 63 + (63 - n) * 2, 63 + (63 - m) * 2;
    Quotient(t, a);
    Quotient(t, b);
    Compare(t / a, a, t / b, b, t);
  }

  /** A proof-of-stake block ranks 2^32 times lower than its raw hash, any other at its raw hash. */
  lemma StakeIsFavoured(sel: Selector, prev: nat, b: Block)
    ensures var h, r := sel(b.hashProof, prev), SelectionHash(sel, prev, b);
      if b.proofOfStake then r * 4_294_967_296 <= h < (r + 1) * 4_294_967_296 else r == h
  {
  }

  function Sections(n: nat): (r: int)
    requires n <= ROUNDS
  {
    if n == 0 then 0 else Sections(n - 1) + Section(n - 1)
  }

  /** GetStakeModifierSelectionInterval. */
  method SelectionInterval() returns (r: int)
    ensures r == Sections(ROUNDS)
  {
    r := 0;
    for n := 0 to ROUNDS
      invariant r == Sections(n)
    {
      r := r + Section(n);
    }
  }

  // --------------------------------------------------------------- candidates

  datatype Item = Item(time: nat, hash: Hash)

  predicate NotAfter(a: Item, b: Item) { a.time < b.time || (a.time == b.time && a.hash.code <= b.hash.code) }

  predicate Sorted(v: seq<Item>) { forall i, j :: 0 <= i < j < |v| ==> NotAfter(v[i], v[j]) }

  /** std::sort on pairs. */
  function Inserted(v: seq<Item>, x: Item): (r: seq<Item>)
    ensures multiset(r) == multiset(v) + multiset{x}
  {
    if v == [] || NotAfter(x, v[0]) then [x] + v
    else
      assert v == [v[0]] + v[1..];
      [v[0]] + Inserted(v[1..], x)
  }

  function Sort(v: seq<Item>): (r: seq<Item>)
    ensures multiset(r) == multiset(v)
  {
    if v == [] then []
    else
      assert v == v[..|v| - 1] + [v[|v| - 1]];
      Inserted(Sort(v[..|v| - 1]), v[|v| - 1])
  }

  lemma {:induction false} InsertedSorted(v: seq<Item>, x: Item)
    requires Sorted(v)
    ensures Sorted(Inserted(v, x)) && (forall y :: y in Inserted(v, x) ==> y == x || y in v)
  {
    if v != [] && !NotAfter(x, v[0]) {
      InsertedSorted(v[1..], x);
      var r := Inserted(v[1..], x);
      forall i | 0 <= i < |r| ensures NotAfter(v[0], r[i]) {
        assert r[i] in r;
      }
    }
  }

  lemma {:induction false} SortSorted(v: seq<Item>)
    ensures Sorted(Sort(v))
  {
    if v != [] {
      SortSorted(v[..|v| - 1]);
      InsertedSorted(Sort(v[..|v| - 1]), v[|v| - 1]);
    }
  }

  /** Every candidate is in the block index under its own hash and time. */
  predicate Known(v: seq<Item>, index: map<Hash, Block>) {
    forall i :: 0 <= i < |v| ==> v[i].hash in index && index[v[i].hash].time == v[i].time && index[v[i].hash].hash == v[i].hash
  }

  // ---------------------------------------------------------------- selection

  /** One round's question: the candidates, what was chosen before, and the stop time. */
  datatype Round = Round(v: seq<Item>, index: map<Hash, Block>, chosen: map<Hash, Block>, stop: int, prev: nat, sel: Selector)
  {
    ghost predicate Open(i: int) { 0 <= i < |v| && v[i].hash !in chosen }

    ghost predicate InTime(i: int) { Open(i) && v[i].time <= stop }

    ghost function Rank(i: int): (r: nat)
      requires Known(v, index) && 0 <= i < |v|
    {
      SelectionHash(sel, prev, index[v[i].hash])
    }

    /** The smallest selection hash among those in time, the earlier on a tie; the earliest of all if none is in time. */
    ghost predicate Wins(k: int)
      requires Known(v, index)
    {
      && Open(k)
      && if exists i :: InTime(i)
         then InTime(k) && forall j :: InTime(j) ==> Rank(k) <= Rank(j) && (j < k ==> Rank(k) < Rank(j))
         else forall j :: 0 <= j < k ==> !Open(j)
    }
  }

  /** SelectBlockFromCandidates. */
  method SelectBlock(r: Round) returns (ok: bool, picked: Option<Block>, ghost k: int)
    requires Known(r.v, r.index) && Sorted(r.v)
    ensures ok <==> exists i :: r.Open(i)
    ensures ok ==> r.Wins(k) && picked == Some(r.index[r.v[k].hash])
  {
    hide SelectionHash;
    ok, picked := false, None;
    var best := 0;
    k := 0;
    ghost var first := 0;
    var i := 0;
    while i < |r.v|
      invariant 0 <= i <= |r.v|
      invariant !ok ==> forall j :: 0 <= j < i ==> !r.Open(j)
      invariant ok ==> 0 <= first <= k < i && r.Open(first) && r.Open(k) && picked == Some(r.index[r.v[k].hash]) && best == r.Rank(k)
      invariant ok ==> (forall j :: 0 <= j < first ==> !r.Open(j)) && (forall j :: first < j < i ==> r.v[j].time <= r.stop)
      invariant ok ==> forall j :: first <= j < i && r.Open(j) ==> r.Rank(k) <= r.Rank(j) && (j < k ==> r.Rank(k) < r.Rank(j))
    {
      var pindex := r.index[r.v[i].hash];
      if ok && pindex.time > r.stop {
        break;
      }
      if pindex.hash !in r.chosen {
        var hash := SelectionHash(r.sel, r.prev, pindex);
        assert r.Open(i) && hash == r.Rank(i);
        if ok && hash < best {
          best, picked, k := hash, Some(pindex), i;
        } else if !ok {
          ok, best, picked, k, first := true, hash, Some(pindex), i, i;
        }
      }
      i := i + 1;
    }
    if ok {
      ScanWins(r, first, k, i);
    }
  }

  lemma ScanWins(r: Round, first: int, k: int, i: int)
    requires Known(r.v, r.index) && Sorted(r.v) && 0 <= first <= k < i <= |r.v| && r.Open(first) && r.Open(k)
    requires (forall j :: 0 <= j < first ==> !r.Open(j)) && (forall j :: first < j < i ==> r.v[j].time <= r.stop)
    requires forall j :: first <= j < i && r.Open(j) ==> r.Rank(k) <= r.Rank(j) && (j < k ==> r.Rank(k) < r.Rank(j))
    requires i < |r.v| ==> r.v[i].time > r.stop
    ensures r.Wins(k)
  {
    hide SelectionHash;
    assert forall j :: first < j < i ==> r.v[first].time <= r.v[j].time;
    if r.v[first].time <= r.stop {
      assert r.InTime(first) && r.InTime(k);
      forall j | r.InTime(j) ensures first <= j < i {
      }
    } else {
      assert k == first;
      forall j ensures !r.InTime(j) {
      }
    }
  }

  // --------------------------------------------------------------- the modifier

  function MapOf(picks: seq<Block>): (r: map<Hash, Block>) {
    if picks == [] then map[] else MapOf(picks[..|picks| - 1])[picks[|picks| - 1].hash := picks[|picks| - 1]]
  }

  function Entropies(picks: seq<Block>): (r: seq<bool>)
    ensures |r| == |picks| && forall i :: 0 <= i < |picks| ==> r[i] == picks[i].entropy
  {
    seq(|picks|, i requires 0 <= i < |picks| => picks[i].entropy)
  }

  /** Round n, after the picks of the rounds before it. */
  function RoundOf(v: seq<Item>, index: map<Hash, Block>, picks: seq<Block>, start: int, prev: nat, sel: Selector): (r: Round)
    requires |picks| < ROUNDS
  {
    Round(v, index, MapOf(picks), start + Sections(|picks| + 1), prev, sel)
  }

  /** Every pick wins its round. */
  ghost predicate Selected(v: seq<Item>, index: map<Hash, Block>, picks: seq<Block>, start: int, prev: nat, sel: Selector)
    requires Known(v, index)
  {
    |picks| <= ROUNDS && forall n :: 0 <= n < |picks| ==> WonBy(v, index, picks[..n], picks[n], start, prev, sel)
  }

  ghost predicate WonBy(v: seq<Item>, index: map<Hash, Block>, before: seq<Block>, b: Block, start: int, prev: nat, sel: Selector)
    requires Known(v, index)
  {
    |before| < ROUNDS && exists k :: RoundOf(v, index, before, start, prev, sel).Wins(k) && b == index[v[k].hash]
  }

  lemma {:induction false} MapOfHas(picks: seq<Block>, i: nat)
    requires i < |picks|
    ensures picks[i].hash in MapOf(picks)
  {
    if i < |picks| - 1 {
      MapOfHas(picks[..|picks| - 1], i);
    }
  }

  /** No block is picked twice. */
  lemma PicksDiffer(v: seq<Item>, index: map<Hash, Block>, picks: seq<Block>, start: int, prev: nat, sel: Selector, i: nat, j: nat)
    requires Known(v, index) && Selected(v, index, picks, start, prev, sel) && i < j < |picks|
    ensures picks[i].hash != picks[j].hash
  {
    hide SelectionHash, Sections;
    assert WonBy(v, index, picks[..j], picks[j], start, prev, sel);
    MapOfHas(picks[..j], i);
    assert picks[..j][i] == picks[i];
  }

  predicate DistinctHashes(v: seq<Item>) { forall i, j :: 0 <= i < j < |v| ==> v[i].hash != v[j].hash }

  function HashSet(v: seq<Item>): (r: set<Hash>) { set i | 0 <= i < |v| :: v[i].hash }

  lemma {:induction false} HashSetSize(v: seq<Item>)
    requires DistinctHashes(v)
    ensures |HashSet(v)| == |v|
  {
    if v != [] {
      var front := v[..|v| - 1];
      HashSetSize(front);
      assert HashSet(v) == HashSet(front) + {v[|v| - 1].hash};
    }
  }

  /** While fewer blocks are chosen than there are candidates, one is open. */
  lemma SomeOpen(r: Round, items: seq<Item>)
    requires DistinctHashes(items) && multiset(r.v) == multiset(items) && |r.chosen| < |items|
    ensures exists i :: r.Open(i)
  {
    HashSetSize(items);
    if forall i :: 0 <= i < |r.v| ==> r.v[i].hash in r.chosen {
      forall h | h in HashSet(items) ensures h in r.chosen.Keys {
        var i :| 0 <= i < |items| && items[i].hash == h;
        assert items[i] in multiset(r.v);
        assert items[i] in r.v;
      }
      SubsetSize(HashSet(items), r.chosen.Keys);
    }
    var i :| 0 <= i < |r.v| && r.v[i].hash !in r.chosen;
    assert r.Open(i);
  }

  /** The rounds: exactly min(64, n) different blocks are picked, and bit r is the r-th one's entropy. */
  method SelectBlocks(items: seq<Item>, index: map<Hash, Block>, start: int, prev: nat, sel: Selector)
    returns (ok: bool, modifier: nat, ghost picks: seq<Block>)
    requires Known(items, index) && DistinctHashes(items)
    ensures ok && Known(Sort(items), index) && Selected(Sort(items), index, picks, start, prev, sel)
    ensures |picks| == (if |items| < ROUNDS then |items| else ROUNDS) && modifier == FromBits(Entropies(picks))
  {
    hide SelectionHash, Sections, FromBits, Known, Sorted, Round.Wins, Sort, Entropies, Selected;
    var v := Sort(items);
    SortSorted(items);
    SortKnown(items, index);
    var rounds := if |v| < ROUNDS then |v| else ROUNDS;
    modifier, picks := 0, [];
    NextSection(0);
    NothingPicked(v, index, start, prev, sel);
    var chosen: map<Hash, Block> := map[];
    var stop, weight := start, 1;
    for n := 0 to rounds
      invariant |picks| == n && chosen == MapOf(picks) && |chosen| == n && stop == start + Sections(n) && weight == Pow2(n)
      invariant Selected(v, index, picks, start, prev, sel) && modifier == FromBits(Entropies(picks))
    {
      NextSection(n);
      stop := stop + Section(n);
      var r := Round(v, index, chosen, stop, prev, sel);
      SomeOpen(r, items);
      ghost var k;
      var picked;
      ok, picked, k := SelectBlock(r);
      assert ok;
      var pindex := picked.value;
      PickStep(v, index, picks, pindex, start, prev, sel, k);
      NextBit(picks, pindex);
      if pindex.entropy {
        modifier := modifier + weight;
      }
      weight := weight * 2;
      chosen := chosen[pindex.hash := pindex];
      picks := picks + [pindex];
    }
    ok := true;
  }

  lemma NothingPicked(v: seq<Item>, index: map<Hash, Block>, start: int, prev: nat, sel: Selector)
    requires Known(v, index)
    ensures Selected(v, index, [], start, prev, sel) && FromBits(Entropies([])) == 0
  {
    assert Entropies([]) == [];
  }

  lemma NextSection(n: nat)
    requires n < ROUNDS
    ensures Sections(n + 1) == Sections(n) + Section(n) && Sections(0) == 0
  {
  }

  lemma NextBit(picks: seq<Block>, b: Block)
    ensures FromBits(Entropies(picks + [b])) == FromBits(Entropies(picks)) + if b.entropy then Pow2(|picks|) else 0
  {
    hide FromBits, Pow2;
    assert Entropies(picks + [b]) == Entropies(picks) + [b.entropy];
    BitsSnoc(Entropies(picks), b.entropy);
  }

  lemma SortKnown(items: seq<Item>, index: map<Hash, Block>)
    requires Known(items, index)
    ensures Known(Sort(items), index) && |Sort(items)| == |items|
  {
    var v := Sort(items);
    assert |multiset(v)| == |v| && |multiset(items)| == |items|;
    forall i | 0 <= i < |v| ensures v[i] in items {
      assert v[i] in multiset(v);
    }
  }

  lemma PickStep(v: seq<Item>, index: map<Hash, Block>, picks: seq<Block>, b: Block, start: int, prev: nat, sel: Selector, k: int)
    requires Known(v, index) && Selected(v, index, picks, start, prev, sel) && |picks| < ROUNDS
    requires RoundOf(v, index, picks, start, prev, sel).Wins(k) && b == index[v[k].hash]
    ensures Selected(v, index, picks + [b], start, prev, sel) && MapOf(picks + [b]) == MapOf(picks)[b.hash := b] && b.hash !in MapOf(picks)
  {
    hide SelectionHash, Sections, WonBy;
    var all := picks + [b];
    assert all[..|picks|] == picks;
    OpenIsNew(v, index, picks, b, start, prev, sel, k);
    forall n | 0 <= n < |all| ensures WonBy(v, index, all[..n], all[n], start, prev, sel) {
      if n < |picks| {
        assert all[..n] == picks[..n];
      }
    }
  }

  lemma OpenIsNew(v: seq<Item>, index: map<Hash, Block>, picks: seq<Block>, b: Block, start: int, prev: nat, sel: Selector, k: int)
    requires Known(v, index) && |picks| < ROUNDS
    requires RoundOf(v, index, picks, start, prev, sel).Wins(k) && b == index[v[k].hash]
    ensures WonBy(v, index, picks, b, start, prev, sel) && b.hash !in MapOf(picks)
  {
    hide SelectionHash, Sections;
  }

  /** The outcome for a new block: no modifier at all, the last one kept, or a new one. */
  datatype Outcome = NoModifier | Kept(modifier: nat) | Generated(modifier: nat)

  /** The last block at which a modifier was generated, or nothing. */
  function LastGenerated(chain: seq<Block>): (r: int)
    ensures -1 <= r < |chain| && (r >= 0 ==> chain[r].generated) && forall i :: r < i < |chain| ==> !chain[i].generated
  {
    if chain == [] then -1
    else if chain[|chain| - 1].generated then |chain| - 1
    else LastGenerated(chain[..|chain| - 1])
  }

  /** GetLastStakeModifier. */
  method GetLastStakeModifier(chain: seq<Block>) returns (k: int)
    requires chain != []
    ensures k == LastGenerated(chain)
  {
    k := |chain| - 1;
    assert chain[..k + 1] == chain;
    while k > 0 && !chain[k].generated
      invariant 0 <= k < |chain| && LastGenerated(chain[..k + 1]) == LastGenerated(chain)
    {
      assert chain[..k + 1][..k] == chain[..k];
      k := k - 1;
    }
    if !chain[k].generated {
      assert chain[..1][..0] == [];
      k := -1;
    }
  }

  /** The chain's blocks from position m on, as candidates. */
  function Items(chain: seq<Block>, m: nat): (r: seq<Item>)
    requires m <= |chain|
    ensures |r| == |chain| - m && forall i :: 0 <= i < |r| ==> r[i] == Item(chain[m + i].time, chain[m + i].hash)
  {
    seq(|chain| - m, i requires 0 <= i < |chain| - m => Item(chain[m + i].time, chain[m + i].hash))
  }

  /** The start of the modifier interval that holds t. */
  function IntervalStart(t: nat): (r: int)
    ensures r <= t < r + MODIFIER_INTERVAL && r % MODIFIER_INTERVAL == 0
  {
    t / MODIFIER_INTERVAL * MODIFIER_INTERVAL
  }

  /** Where the most recent run of blocks that are not too old begins. */
  function Oldest(chain: seq<Block>, start: int): (m: nat)
    ensures m <= |chain| && (m > 0 ==> chain[m - 1].time < start) && forall i :: m <= i < |chain| ==> chain[i].time >= start
  {
    if chain == [] || chain[|chain| - 1].time < start then |chain| else Oldest(chain[..|chain| - 1], start)
  }

  /** The walk back over the blocks that are not too old. */
  method CollectCandidates(chain: seq<Block>, start: int) returns (items: seq<Item>)
    ensures items == Items(chain, Oldest(chain, start))
  {
    var v: seq<Item> := [];
    var k := |chain|;
    while k > 0 && chain[k - 1].time >= start
      invariant 0 <= k <= |chain| && |v| == |chain| - k
      invariant forall i :: 0 <= i < |v| ==> v[i] == Item(chain[|chain| - 1 - i].time, chain[|chain| - 1 - i].hash)
      invariant forall i :: k <= i < |chain| ==> chain[i].time >= start
    {
      k := k - 1;
      v := v + [Item(chain[k].time, chain[k].hash)];
    }
    items := seq(|v|, i requires 0 <= i < |v| => v[|v| - 1 - i]);
    OldestIs(chain, start, k);
  }

  lemma {:induction false} OldestIs(chain: seq<Block>, start: int, m: nat)
    requires m <= |chain| && (m > 0 ==> chain[m - 1].time < start) && forall i :: m <= i < |chain| ==> chain[i].time >= start
    ensures Oldest(chain, start) == m
  {
    if m < |chain| {
      OldestIs(chain[..|chain| - 1], start, m);
    }
  }

  /** ComputeNextStakeModifier for the block after chain. */
  method ComputeNextStakeModifier(chain: seq<Block>, index: map<Hash, Block>, sel: Selector)
    returns (r: Outcome, ghost picks: seq<Block>)
    requires forall i :: 0 <= i < |chain| ==> chain[i].hash in index && index[chain[i].hash] == chain[i]
    requires forall i, j :: 0 <= i < j < |chain| ==> chain[i].hash != chain[j].hash
    ensures chain == [] ==> r == Generated(0)
    ensures chain != [] && LastGenerated(chain) < 0 ==> r == NoModifier
    ensures chain != [] && LastGenerated(chain) >= 0 ==>
      var last, tip := chain[LastGenerated(chain)], chain[|chain| - 1];
      if last.time / MODIFIER_INTERVAL >= tip.time / MODIFIER_INTERVAL then r == Kept(last.modifier)
      else
        var start := IntervalStart(tip.time) - Sections(ROUNDS);
        var m := Oldest(chain, start);
        && Known(Sort(Items(chain, m)), index) && Selected(Sort(Items(chain, m)), index, picks, start, last.modifier, sel)
        && |picks| == (if |chain| - m < ROUNDS then |chain| - m else ROUNDS)
        && r == Generated(FromBits(Entropies(picks)))
  {
    hide SelectionHash, Sections, FromBits, Sort, Entropies, Selected, LastGenerated, Oldest;
    picks := [];
    if chain == [] {
      return Generated(0), [];
    }
    var k := GetLastStakeModifier(chain);
    if k < 0 {
      return NoModifier, [];
    }
    var tip := chain[|chain| - 1];
    if chain[k].time / MODIFIER_INTERVAL >= tip.time / MODIFIER_INTERVAL {
      return Kept(chain[k].modifier), [];
    }
    var interval := SelectionInterval();
    var start := tip.time / MODIFIER_INTERVAL * MODIFIER_INTERVAL - interval;
    var items := CollectCandidates(chain, start);
    var ok, modifier;
    ok, modifier, picks := SelectBlocks(items, index, start, chain[k].modifier, sel);
    r := Generated(modifier);
  }

  /** The last of 64 rounds stops where the current modifier interval begins. */
  lemma LastStop(v: seq<Item>, index: map<Hash, Block>, picks: seq<Block>, t: nat, prev: nat, sel: Selector)
    requires |picks| == ROUNDS - 1
    ensures RoundOf(v, index, picks, IntervalStart(t) - Sections(ROUNDS), prev, sel).stop == IntervalStart(t) <= t
  {
    hide Sections, MapOf;
  }
}
