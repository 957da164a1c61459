/**
  The stack of write-back coin caches over the coin database
  (CCoinsViewCache and CCoinsViewDB of src/coins.cpp).
*/
module CoinsCacheStack {
  import opened Primitives
  import opened CoinsModel
  import opened CoinUndo

  /** A cached record with its DIRTY and FRESH flags. */
  datatype Entry = Entry(coins: Coins, isDirty: bool, isFresh: bool)

  type CacheMap = map<TxId, Entry>

  /** Records as a view keeps them: nothing pruned, nothing left to clean. */
  predicate Stored(m: CoinMap) {
    forall id :: id in m ==> !m[id].IsPruned() && m[id].Cleaned()
  }

  /** A coin map seen through a cache: cached records win, pruned ones count as absent. */
  function Overlay(m: CoinMap, cache: CacheMap): (r: CoinMap)
    ensures forall id :: id in r <==> if id in cache then !cache[id].coins.IsPruned() else id in m
    ensures forall id :: id in r ==> r[id] == if id in cache then cache[id].coins else m[id]
  {
    map id | id in m.Keys + cache.Keys && (id in cache ==> !cache[id].coins.IsPruned())
      :: if id in cache then cache[id].coins else m[id]
  }

  function DirtyPart(cache: CacheMap): (r: CacheMap) {
    map id | id in cache && cache[id].isDirty :: cache[id]
  }

  /** What one entry promises about the view beneath it. */
  predicate Linked(id: TxId, e: Entry, under: CoinMap) {
    && e.coins.Cleaned()
    && (e.isFresh ==> id !in under)
    && (!e.isDirty ==> Shown(e.coins) == Lookup(under, id))
  }

  lemma OverlayStep(m: CoinMap, cache: CacheMap, id: TxId, e: Entry)
    ensures Overlay(m, cache[id := e]) ==
      if e.coins.IsPruned() then Overlay(m, cache) - {id} else Overlay(m, cache)[id := e.coins]
  {
  }

  /** Caching what is already there fits, and does not change the view. */
  lemma FetchedFits(m: CoinMap, cache: CacheMap, id: TxId, e: Entry)
    requires Stored(m) && id !in cache && e.coins.Cleaned()
    requires Shown(e.coins) == Lookup(m, id) && !e.isDirty && e.isFresh == e.coins.IsPruned()
    ensures Linked(id, e, m)
    ensures (if e.coins.IsPruned() then Overlay(m, cache) - {id} else Overlay(m, cache)[id := e.coins]) == Overlay(m, cache)
  {
    assert NO_COINS.IsPruned();
  }

  /** A record taken out for modification fits as a dirty entry, and the view still shows it. */
  lemma ModifiedFits(m: CoinMap, cache: CacheMap, id: TxId, e: Entry)
    requires Stored(m) && e.coins.Cleaned() && e.isDirty
    requires id in cache ==> Linked(id, cache[id], m) && cache[id].coins == e.coins && cache[id].isFresh == e.isFresh
    requires id !in cache ==> Shown(e.coins) == Lookup(m, id) && e.isFresh == e.coins.IsPruned()
    ensures Linked(id, e, m)
    ensures (if e.coins.IsPruned() then Overlay(m, cache) - {id} else Overlay(m, cache)[id := e.coins]) == Overlay(m, cache)
    ensures Shown(e.coins) == Lookup(Overlay(m, cache), id)
  {
    assert NO_COINS.IsPruned();
  }

  lemma OverlayErased(m: CoinMap, cache: CacheMap, id: TxId)
    requires id in cache && id !in m
    ensures Overlay(m, cache - {id}) == Overlay(m, cache) - {id}
  {
  }

  /** Entries that are not dirty have nothing to say to the view beneath. */
  lemma DirtyPartDecides(m: CoinMap, cache: CacheMap, id: TxId)
    requires Stored(m) && (id in cache ==> Linked(id, cache[id], m))
    ensures var a, b := Overlay(m, DirtyPart(cache)), Overlay(m, cache);
      (id in a <==> id in b) && (id in a ==> a[id] == b[id])
  {
    assert NO_COINS.IsPruned();
  }

  lemma FlushedView(m: CoinMap, cache: CacheMap)
    requires Stored(m) && forall id :: id in cache ==> Linked(id, cache[id], m)
    ensures Overlay(m, DirtyPart(cache)) == Overlay(m, cache)
    ensures Overlay(Overlay(m, cache), map[]) == Overlay(m, cache)
    ensures Stored(Overlay(m, cache))
  {
    hide Coins.IsPruned, Coins.Cleaned, Overlay;
    var a, b := Overlay(m, DirtyPart(cache)), Overlay(m, cache);
    forall id ensures (id in a <==> id in b) && (id in a ==> a[id] == b[id]) {
      DirtyPartDecides(m, cache, id);
    }
    assert a == b;
  }

  /** The coin database (CCoinsViewDB). */
  class CoinsDb {
    var coins: CoinMap
    var best: Hash

    constructor ()
      ensures coins == map[] && best == NULL_HASH
    {
      coins, best := map[], NULL_HASH;
    }

    /** Dirty records are written, pruned ones erased; a null best block is not written. */
    method BatchWrite(cache: CacheMap, hashBlock: Hash)
      modifies this
      ensures coins == Overlay(old(coins), DirtyPart(cache))
      ensures best == if hashBlock != NULL_HASH then hashBlock else old(best)
    {
      var todo := cache.Keys;
      ghost var part: CacheMap := map[];
      while todo != {}
        invariant todo <= cache.Keys
        invariant forall id :: id in part <==> id in cache && id !in todo && cache[id].isDirty
        invariant forall id :: id in part ==> part[id] == cache[id]
        invariant coins == Overlay(old(coins), part)
        invariant best == old(best)
      {
        var id :| id in todo;
        if cache[id].isDirty {
          OverlayStep(old(coins), part, id, cache[id]);
          part := part[id := cache[id]];
          coins := if cache[id].coins.IsPruned() then coins - {id} else coins[id := cache[id].coins];
        }
        todo := todo - {id};
      }
      assert part == DirtyPart(cache);
      if hashBlock != NULL_HASH {
        best := hashBlock;
      }
    }
  }

  class CoinsCache {
    const db: CoinsDb
    /** The cache beneath this one; null when this cache sits on the database. */
    const parent: CoinsCache?
    ghost const depth: nat
    ghost const Repr: set<object>

    var cacheCoins: CacheMap
    var hashBlock: Hash
    var hasModifier: bool

    ghost predicate Shape()
      decreases depth
    {
      && this in Repr && db in Repr && depth > 0
      && (parent == null ==> Repr == {this, db})
      && (parent != null ==>
        parent.depth < depth && parent.db == db && this !in parent.Repr && Repr == {this} + parent.Repr && parent.Shape())
    }

    /** The coin map under this cache. */
    ghost function Under(): CoinMap
      requires Shape()
      reads Repr
      decreases depth, 0
    {
      if parent == null then db.coins else parent.View()
    }

    /** The coin map this cache represents. */
    ghost function View(): CoinMap
      requires Shape()
      reads Repr
      decreases depth, 1
    {
      Overlay(Under(), cacheCoins)
    }

    /** The best block this cache represents. */
    ghost function Best(): Hash
      requires Shape()
      reads Repr
      decreases depth
    {
      if hashBlock != NULL_HASH then hashBlock else if parent == null then db.best else parent.Best()
    }

    ghost predicate Valid()
      reads Repr
      decreases depth
    {
      && Shape()
      && (parent == null ==> Stored(db.coins))
      && (parent != null ==> parent.Valid() && !parent.hasModifier)
      && (forall id :: id in cacheCoins ==> Linked(id, cacheCoins[id], Under()))
      // a record that may exist further down has been pulled through the parent cache
      && (parent != null ==> forall id :: id in cacheCoins && !cacheCoins[id].isFresh ==> id in parent.cacheCoins)
    }

    lemma UnderStored()
      requires Valid()
      ensures Stored(Under()) && Stored(View())
      decreases depth
    {
      if parent != null {
        parent.UnderStored();
      }
    }

    constructor (db: CoinsDb, parent: CoinsCache?)
      requires parent == null ==> Stored(db.coins)
      requires parent != null ==> parent.Valid() && parent.db == db && !parent.hasModifier
      ensures Valid() && !hasModifier && this.db == db && this.parent == parent
      ensures cacheCoins == map[] && hashBlock == NULL_HASH
      ensures fresh(Repr - (if parent == null then {db} else parent.Repr))
      ensures View() == Under() && Best() == if parent == null then db.best else parent.Best()
    {
      this.db := db;
      this.parent := parent;
      depth := if parent == null then 1 else parent.depth + 1;
      Repr := {this} + if parent == null then {db} else parent.Repr;
      cacheCoins, hashBlock, hasModifier := map[], NULL_HASH, false;
      new;
      assert View() == Under();
    }

    /** cacheCoins[id] = e, for an entry that fits the view beneath. */
    method PutEntry(id: TxId, e: Entry)
      requires Valid() && Linked(id, e, Under())
      requires parent != null && !e.isFresh ==> id in parent.cacheCoins
      modifies this`cacheCoins
      ensures Valid() && Under() == old(Under()) && Best() == old(Best())
      ensures cacheCoins == old(cacheCoins)[id := e]
      ensures View() == if e.coins.IsPruned() then old(View()) - {id} else old(View())[id := e.coins]
    {
      hide Overlay, Coins.IsPruned, Coins.Cleaned;
      OverlayStep(Under(), cacheCoins, id, e);
      cacheCoins := cacheCoins[id := e];
    }

    /**
      base->GetCoins of this cache: reading the view beneath changes nothing it represents,
      and what the parent cache finds stays in the parent cache.
    */
    method BaseGetCoins(id: TxId) returns (found: bool, coins: Coins)
      requires Valid()
      modifies Repr - {this}
      ensures Valid() && Under() == old(Under()) && Best() == old(Best()) && View() == old(View())
      ensures found ==> Shown(coins) == Lookup(Under(), id) && coins.Cleaned()
      ensures found && parent != null ==> id in parent.cacheCoins
      ensures !found ==> id !in Under()
      ensures unchanged(db)
      ensures parent != null ==> forall k :: k in old(parent.cacheCoins) ==> k in parent.cacheCoins
      decreases depth, 0
    {
      if parent != null {
        found, coins := parent.GetCoins(id);
      } else {
        found := id in db.coins;
        coins := if found then db.coins[id] else NO_COINS;
      }
    }

    method FetchCoins(id: TxId) returns (found: bool)
      requires Valid()
      modifies Repr
      ensures Valid() && Under() == old(Under()) && View() == old(View()) && Best() == old(Best())
      ensures found <==> id in cacheCoins
      ensures !found ==> id !in View()
      ensures unchanged(`hashBlock) && unchanged(`hasModifier) && unchanged(db)
      ensures forall k :: k in old(cacheCoins) ==> k in cacheCoins && cacheCoins[k] == old(cacheCoins)[k]
      decreases depth, 1
    {
      if id in cacheCoins {
        return true;
      }
      var tmp;
      found, tmp := BaseGetCoins(id);
      if found {
        // a pruned record from below may be considered ours alone
        var e := Entry(tmp, false, tmp.IsPruned());
        UnderStored();
        FetchedFits(Under(), cacheCoins, id, e);
        PutEntry(id, e);
      }
    }

    method GetCoins(id: TxId) returns (found: bool, coins: Coins)
      requires Valid()
      modifies Repr
      ensures Valid() && Under() == old(Under()) && View() == old(View()) && Best() == old(Best())
      ensures found ==> Shown(coins) == Lookup(View(), id) && coins.Cleaned() && id in cacheCoins
      ensures !found ==> id !in View()
      ensures unchanged(`hashBlock) && unchanged(`hasModifier) && unchanged(db)
      ensures forall k :: k in old(cacheCoins) ==> k in cacheCoins && cacheCoins[k] == old(cacheCoins)[k]
      decreases depth, 2
    {
      coins := NO_COINS;
      found := FetchCoins(id);
      if found {
        coins := cacheCoins[id].coins;
      }
    }

    /** An empty vout stands in for IsPruned: cached records are always clean. */
    method HaveCoins(id: TxId) returns (have: bool)
      requires Valid()
      modifies Repr
      ensures Valid() && View() == old(View()) && Best() == old(Best())
      ensures unchanged(`hashBlock) && unchanged(`hasModifier)
      ensures have <==> id in View()
    {
      var found := FetchCoins(id);
      have := found && cacheCoins[id].coins.vout != [];
    }

    /** The record ModifyCoins starts from, and whether the view beneath has nothing for it. */
    method TakeRecord(id: TxId) returns (coins: Coins, isFresh: bool)
      requires Valid()
      modifies Repr - {this}
      ensures Valid() && View() == old(View()) && Under() == old(Under()) && Best() == old(Best())
      ensures Linked(id, Entry(coins, true, isFresh), Under())
      ensures parent != null && !isFresh ==> id in parent.cacheCoins
      ensures Shown(coins) == Lookup(View(), id)
      ensures (if coins.IsPruned() then View() - {id} else View()[id := coins]) == View()
    {
      isFresh := false;
      if id in cacheCoins {
        coins, isFresh := cacheCoins[id].coins, cacheCoins[id].isFresh;
      } else {
        var found;
        found, coins := BaseGetCoins(id);
        if !found {
          coins, isFresh := NO_COINS, true;
        } else if coins.IsPruned() {
          isFresh := true;
        }
      }
      UnderStored();
      ModifiedFits(Under(), cacheCoins, id, Entry(coins, true, isFresh));
    }

    /** ModifyCoins: hand out the record; it is dirty from here on. */
    method BeginModify(id: TxId) returns (coins: Coins)
      requires Valid() && !hasModifier
      modifies Repr
      ensures Valid() && hasModifier && View() == old(View()) && Under() == old(Under()) && Best() == old(Best())
      ensures unchanged(`hashBlock)
      ensures id in cacheCoins && cacheCoins[id].isDirty && cacheCoins[id].coins == coins
      ensures Shown(coins) == Lookup(View(), id) && coins.Cleaned()
    {
      hide Coins.IsPruned, Overlay, Linked, Shown, Lookup;
      var isFresh;
      coins, isFresh := TakeRecord(id);
      PutEntry(id, Entry(coins, true, isFresh));
      hasModifier := true;
    }

    /** The modifier's destructor: clean the edited record, drop it if nothing below needs to hear of it. */
    method EndModify(id: TxId, edited: Coins)
      requires Valid() && hasModifier && id in cacheCoins && cacheCoins[id].isDirty
      modifies this
      ensures Valid() && !hasModifier && Under() == old(Under()) && Best() == old(Best())
      ensures unchanged(`hashBlock)
      ensures View() == Store(old(View()), id, edited)
    {
      hide Overlay, Coins.IsPruned;
      hasModifier := false;
      var coins := CleanupLoop(edited);
      if cacheCoins[id].isFresh && coins.IsPruned() {
        EraseFresh(id);
      } else {
        PutEntry(id, Entry(coins, true, cacheCoins[id].isFresh));
      }
    }

    /** cacheCoins.erase of a fresh entry: the record is gone from the view as well. */
    method EraseFresh(id: TxId)
      requires Valid() && id in cacheCoins && cacheCoins[id].isFresh
      modifies this`cacheCoins
      ensures Valid() && Under() == old(Under()) && Best() == old(Best())
      ensures cacheCoins == old(cacheCoins) - {id}
      ensures View() == old(View()) - {id}
    {
      OverlayErased(Under(), cacheCoins, id);
      cacheCoins := cacheCoins - {id};
    }

    method GetBestBlock() returns (hash: Hash)
      requires Valid()
      modifies Repr
      ensures Valid() && View() == old(View()) && Under() == old(Under()) && hash == Best() == old(Best())
      ensures unchanged(`hasModifier) && unchanged(`cacheCoins)
      decreases depth
    {
      if hashBlock == NULL_HASH {
        var below;
        if parent != null {
          below := parent.GetBestBlock();
        } else {
          below := db.best;
        }
        hashBlock := below;
      }
      hash := hashBlock;
    }

    method SetBestBlock(hash: Hash)
      requires Valid()
      modifies this`hashBlock
      ensures Valid() && View() == old(View()) && Under() == old(Under())
      ensures hashBlock == hash
    {
      hashBlock := hash;
    }

    /** What a child may push down: dirty records that are clean, fresh only where this view shows nothing. */
    ghost predicate Acceptable(cache: CacheMap)
      requires Shape()
      reads Repr
    {
      forall id :: id in cache && cache[id].isDirty ==>
        && cache[id].coins.Cleaned()
        && (if cache[id].isFresh then id !in View() else id in cacheCoins)
    }

    /** One dirty record of a child, moved into this cache. */
    method WriteEntry(id: TxId, e: Entry)
      requires Valid() && e.isDirty && e.coins.Cleaned()
      requires if e.isFresh then id !in View() else id in cacheCoins
      modifies this`cacheCoins
      ensures Valid() && Under() == old(Under()) && Best() == old(Best())
      ensures View() == if e.coins.IsPruned() then old(View()) - {id} else old(View())[id := e.coins]
      ensures forall k :: k != id ==> (k in cacheCoins <==> k in old(cacheCoins))
    {
      if id !in cacheCoins {
        if !e.coins.IsPruned() {
          // the view beneath was asked when the child fetched the record, and had nothing
          assert e.isFresh;
          PutEntry(id, Entry(e.coins, true, true));
        }
      } else if cacheCoins[id].isFresh && e.coins.IsPruned() {
        EraseFresh(id);
      } else {
        PutEntry(id, Entry(e.coins, true, cacheCoins[id].isFresh));
      }
    }

    method BatchWrite(cache: CacheMap, hashBlockIn: Hash)
      requires Valid() && !hasModifier && Acceptable(cache)
      modifies this`cacheCoins, this`hashBlock
      ensures Valid() && Under() == old(Under())
      ensures View() == Overlay(old(View()), DirtyPart(cache))
      ensures hashBlock == hashBlockIn
    {
      hide Overlay, Linked, Coins.IsPruned;
      var todo := cache.Keys;
      ghost var part: CacheMap := map[];
      while todo != {}
        invariant todo <= cache.Keys
        invariant forall id :: id in part <==> id in cache && id !in todo && cache[id].isDirty
        invariant forall id :: id in part ==> part[id] == cache[id]
        invariant Valid() && Under() == old(Under()) && View() == Overlay(old(View()), part)
        invariant forall id :: id in todo && cache[id].isDirty && !cache[id].isFresh ==> id in cacheCoins
      {
        var id :| id in todo;
        if cache[id].isDirty {
          OverlayStep(old(View()), part, id, cache[id]);
          WriteEntry(id, cache[id]);
          part := part[id := cache[id]];
        }
        todo := todo - {id};
      }
      assert part == DirtyPart(cache);
      hashBlock := hashBlockIn;
    }

    /** The best block of the view beneath. */
    ghost function UnderBest(): Hash
      requires Shape()
      reads Repr
    {
      if parent == null then db.best else parent.Best()
    }

    /**
      Flush: the view beneath now represents what this cache represented.  The best block
      survives exactly when it was set here, or the parent had not set one of its own.
    */
    method Flush()
      requires Valid() && !hasModifier
      modifies Repr
      ensures Valid() && View() == old(View()) && Under() == old(View()) && cacheCoins == map[]
      ensures unchanged(`hashBlock) && unchanged(`hasModifier)
      ensures parent != null ==> parent.hashBlock == hashBlock && db.best == old(db.best)
      ensures UnderBest() == old(if hashBlock != NULL_HASH || parent == null then Best() else parent.UnderBest())
    {
      UnderStored();
      FlushedView(Under(), cacheCoins);
      if parent != null {
        parent.BatchWrite(cacheCoins, hashBlock);
      } else {
        db.BatchWrite(cacheCoins, hashBlock);
      }
      cacheCoins := map[];
    }
  }

  // ------------------------------------------------------------------ runs

  /** What a client may do with the top cache. */
  datatype Op = Read(id: TxId) | Have(id: TxId) | Edit(id: TxId, coins: Coins) | Flush

  datatype Answer = Unspent(coins: Coins) | Nothing | Has(have: bool) | Done

  /** The same operations on the plain map that the stack stands for. */
  function PlainStep(m: CoinMap, op: Op): (r: CoinMap) {
    if op.Edit? then Store(m, op.id, op.coins) else m
  }

  function PlainAnswer(m: CoinMap, op: Op): (r: Answer) {
    match op
    case Read(id) => if id in m then Unspent(m[id]) else Nothing
    case Have(id) => Has(id in m)
    case _ => Done
  }

  function PlainRun(m: CoinMap, ops: seq<Op>): (r: (CoinMap, seq<Answer>))
    decreases |ops|
  {
    if ops == [] then (m, [])
    else
      var k := |ops| - 1;
      var (m1, answers) := PlainRun(m, ops[..k]);
      (PlainStep(m1, ops[k]), answers + [PlainAnswer(m1, ops[k])])
  }

  method Step(top: CoinsCache, op: Op) returns (answer: Answer)
    requires top.Valid() && !top.hasModifier
    modifies top.Repr
    ensures top.Valid() && !top.hasModifier
    ensures top.View() == PlainStep(old(top.View()), op)
    ensures answer == PlainAnswer(old(top.View()), op)
    ensures op.Flush? ==> top.Under() == top.View()
  {
    hide Overlay, Linked;
    match op {
      case Read(id) =>
        var found, coins := top.GetCoins(id);
        top.UnderStored();
        assert NO_COINS.IsPruned();
        answer := if found && !coins.IsPruned() then Unspent(coins) else Nothing;
      case Have(id) =>
        var have := top.HaveCoins(id);
        answer := Has(have);
      case Edit(id, edited) =>
        var _ := top.BeginModify(id);
        top.EndModify(id, edited);
        answer := Done;
      case Flush =>
        top.Flush();
        answer := Done;
    }
  }

  /** Whatever is done with the top of any stack, it answers like the plain map. */
  method Run(top: CoinsCache, ops: seq<Op>) returns (answers: seq<Answer>)
    requires top.Valid() && !top.hasModifier
    modifies top.Repr
    ensures top.Valid() && !top.hasModifier
    ensures (top.View(), answers) == PlainRun(old(top.View()), ops)
  {
    answers := [];
    for i := 0 to |ops|
      invariant top.Valid() && !top.hasModifier
      invariant (top.View(), answers) == PlainRun(old(top.View()), ops[..i])
    {
      var answer := Step(top, ops[i]);
      answers := answers + [answer];
      assert ops[..i + 1][..i] == ops[..i];
    }
    assert ops[..|ops|] == ops;
  }

  /** Flushing every cache from the top down leaves the whole view in the database. */
  method FlushAll(top: CoinsCache)
    requires top.Valid() && !top.hasModifier
    modifies top.Repr
    ensures top.Valid() && !top.hasModifier && top.cacheCoins == map[]
    ensures top.db.coins == top.View() == old(top.View())
    ensures top.db.best == old(if top.hashBlock != NULL_HASH then top.hashBlock else top.db.best)
    decreases top.depth
  {
    hide Overlay, Linked;
    top.Flush();
    if top.parent != null {
      FlushAll(top.parent);
    }
  }
}
