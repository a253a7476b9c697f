/** The skip-list index over a chain (chain/store/index.go) and the height lookup
    built on it (chain/store/store.go).

    `WalkBack` is the plain parent walk. The index must agree with it whatever the
    cache holds and whatever the cache drops. */
module ChainIndex {
  import opened Wrappers
  import opened Chain

  const SKIP_LENGTH: nat := 20

  /** Heights are int64 and may be negative in a request; Go's division truncates
      toward zero, and every height that is rounded is non-negative. */
  function RoundHeight(h: nat): nat {
    (h / SKIP_LENGTH) * SKIP_LENGTH
  }

  // ----- the parent walk -------------------------------------------------

  function WalkBack(store: Store, from: TipSet, to: int): Option<TipSet>
    requires WellFormed(store) && Has(store, from)
    decreases from.height
  {
    if to > from.height then None
    else if to == from.height then Some(from)
    else if from.parents !in store then None
    else
      var parent := store[from.parents];
      if to > parent.height then Some(from) else WalkBack(store, parent, to)
  }

  /** The tipset of the chain at height `to` or, in a null round, the one just above it. */
  ghost predicate AtOrJustAbove(store: Store, from: TipSet, to: int, r: TipSet)
    requires WellFormed(store) && Has(store, from)
  {
    exists i :: AboveAt(Path(store, from), i, to, r)
  }

  ghost predicate AboveAt(path: seq<TipSet>, i: int, to: int, r: TipSet) {
    && 0 <= i < |path| && path[i] == r && r.height >= to
    && (r.height == to || (i + 1 < |path| && path[i + 1].height < to))
  }

  /** The tipset of the chain at height `to` or, in a null round, the one just below it. */
  ghost predicate AtOrJustBelow(store: Store, from: TipSet, to: int, r: TipSet)
    requires WellFormed(store) && Has(store, from)
  {
    r in Path(store, from) && r.height <= to &&
      forall a :: a in Path(store, from) && a.height <= to ==> a.height <= r.height
  }

  lemma {:induction false} WalkBackMeaning(store: Store, from: TipSet, to: int, r: TipSet)
    requires WellFormed(store) && Has(store, from)
    ensures WalkBack(store, from, to) == Some(r) <==> AtOrJustAbove(store, from, to, r)
    decreases from.height
  {
    PathShape(store, from);
    var path := Path(store, from);
    if to < from.height && from.parents in store && to <= store[from.parents].height {
      var rest := Path(store, store[from.parents]);
      WalkBackMeaning(store, store[from.parents], to, r);
      assert path == [from] + rest;
      if i :| AboveAt(rest, i, to, r) {
        assert AboveAt(path, i + 1, to, r);
      }
      if i :| AboveAt(path, i, to, r) {
        assert AboveAt(rest, i - 1, to, r);
      }
    } else {
      WalkBackHere(store, from, to, r);
    }
  }

  lemma WalkBackHere(store: Store, from: TipSet, to: int, r: TipSet)
    requires WellFormed(store) && Has(store, from)
    requires to >= from.height || from.parents !in store || to > store[from.parents].height
    ensures WalkBack(store, from, to) == Some(r) <==> AtOrJustAbove(store, from, to, r)
  {
    var path := Path(store, from);
    if WalkBack(store, from, to) == Some(r) {
      assert AboveAt(path, 0, to, r);
    }
    forall i | AboveAt(path, i, to, r)
      ensures i == 0
    {
      OnlyHead(store, from, to, i);
    }
  }

  /** Everything after the head is below the target. */
  lemma OnlyHead(store: Store, from: TipSet, to: int, i: nat)
    requires WellFormed(store) && Has(store, from) && i < |Path(store, from)|
    requires to >= from.height || from.parents !in store || to > store[from.parents].height
    ensures i > 0 ==> Path(store, from)[i].height < to
  {
    if i > 0 {
      var rest := Path(store, store[from.parents]);
      PathShape(store, store[from.parents]);
      assert Path(store, from)[i] == rest[i - 1] && rest[i - 1] in rest;
    }
  }

  /** The walk finds nothing exactly when the height is outside the chain. */
  lemma {:induction false} WalkBackDefined(store: Store, from: TipSet, to: int)
    requires Complete(store) && Has(store, from)
    ensures WalkBack(store, from, to).Some? <==> 0 <= to <= from.height
    decreases from.height
  {
    if to < from.height && from.parents in store && to <= store[from.parents].height {
      WalkBackDefined(store, store[from.parents], to);
    }
  }

  /** Walking from an ancestor that is not below the target gives the same answer. */
  lemma {:induction false} WalkBackFromAncestor(store: Store, from: TipSet, a: TipSet, to: int)
    requires WellFormed(store) && Has(store, from)
    requires Ancestor(store, a, from) && a.height >= to
    ensures Has(store, a) && WalkBack(store, a, to) == WalkBack(store, from, to)
    decreases from.height
  {
    if a != from {
      var parent := store[from.parents];
      assert a in Path(store, parent);
      PathShape(store, parent);
      WalkBackFromAncestor(store, parent, a, to);
    }
  }

  lemma WalkBackIsAncestor(store: Store, from: TipSet, to: int)
    requires WellFormed(store) && Has(store, from)
    ensures WalkBack(store, from, to).Some? ==>
      var r := WalkBack(store, from, to).value;
      Ancestor(store, r, from) && Has(store, r) && to <= r.height <= from.height
  {
    if WalkBack(store, from, to).Some? {
      WalkBackMeaning(store, from, to, WalkBack(store, from, to).value);
      PathShape(store, from);
    }
  }

  lemma {:induction false} WalkBackInLargerStore(store: Store, larger: Store, from: TipSet, to: int)
    requires WellFormed(store) && WellFormed(larger) && Has(store, from)
    requires forall k :: k in store ==> k in larger && larger[k] == store[k]
    requires WalkBack(store, from, to).Some?
    ensures WalkBack(larger, from, to) == WalkBack(store, from, to)
    decreases from.height
  {
    if to < from.height && to <= store[from.parents].height {
      WalkBackInLargerStore(store, larger, store[from.parents], to);
    }
  }

  // ----- skip entries ----------------------------------------------------

  datatype LbEntry = LbEntry(ts: TipSet, parentHeight: nat, targetHeight: nat, target: Key)

  /** Where a skip from `ts` lands: one skip length below its rounded height, or
      its parent when that is lower still. */
  ghost function SkipTarget(store: Store, ts: TipSet): Option<TipSet>
    requires WellFormed(store) && Has(store, ts)
  {
    if ts.height == 0 || ts.parents !in store then None else
    var parent, height := store[ts.parents], RoundHeight(ts.height) - SKIP_LENGTH;
    if parent.height < height then Some(parent) else WalkBack(store, parent, height)
  }

  ghost predicate EntryFor(store: Store, key: Key, e: LbEntry)
    requires WellFormed(store)
  {
    && key in store
    && SkipTarget(store, store[key]).Some?
    && var target := SkipTarget(store, store[key]).value;
       e == LbEntry(store[key], store[store[key].parents].height, target.height, target.key)
  }

  lemma SkipTargetIsAncestor(store: Store, ts: TipSet)
    requires WellFormed(store) && Has(store, ts)
    ensures SkipTarget(store, ts).Some? ==>
      var t := SkipTarget(store, ts).value;
      Ancestor(store, t, ts) && Has(store, t) && t.height <= store[ts.parents].height < ts.height
  {
    if SkipTarget(store, ts).Some? {
      var parent := store[ts.parents];
      WalkBackIsAncestor(store, parent, RoundHeight(ts.height) - SKIP_LENGTH);
      assert forall a :: a in Path(store, parent) ==> a in Path(store, ts);
    }
  }

  // ----- where the index gives up ----------------------------------------

  /** Some link of the chain drops from height 40 or more straight into heights
      1..19, at or above the requested height. There the index asks for height -20. */
  ghost predicate LowDrop(store: Store, ts: TipSet, to: int)
    requires WellFormed(store) && Has(store, ts)
    decreases ts.height
  {
    && ts.parents in store
    && var parent := store[ts.parents];
       || (ts.height >= 2 * SKIP_LENGTH && 1 <= parent.height < SKIP_LENGTH && to <= parent.height)
       || LowDrop(store, parent, to)
  }

  ghost predicate DropAt(path: seq<TipSet>, i: int, to: int) {
    0 <= i < |path| - 1 && path[i].height >= 40 && 1 <= path[i + 1].height <= 19 && to <= path[i + 1].height
  }

  ghost predicate SomeDrop(path: seq<TipSet>, to: int) {
    exists i :: DropAt(path, i, to)
  }

  lemma {:induction false} LowDropIndex(store: Store, ts: TipSet, to: int) returns (i: nat)
    requires WellFormed(store) && Has(store, ts) && LowDrop(store, ts, to)
    ensures DropAt(Path(store, ts), i, to)
    decreases ts.height
  {
    var parent := store[ts.parents];
    if LowDrop(store, parent, to) {
      i := LowDropIndex(store, parent, to);
      i := i + 1;
    } else {
      i := 0;
    }
  }

  lemma {:induction false} DropAtIsLowDrop(store: Store, ts: TipSet, to: int, i: nat)
    requires WellFormed(store) && Has(store, ts) && DropAt(Path(store, ts), i, to)
    ensures LowDrop(store, ts, to)
    decreases i
  {
    if i > 0 {
      DropAtIsLowDrop(store, store[ts.parents], to, i - 1);
    }
  }

  lemma LowDropMeaning(store: Store, ts: TipSet, to: int)
    requires WellFormed(store) && Has(store, ts)
    ensures LowDrop(store, ts, to) <==> SomeDrop(Path(store, ts), to)
  {
    var path := Path(store, ts);
    if LowDrop(store, ts, to) {
      var i := LowDropIndex(store, ts, to);
    } else if SomeDrop(path, to) {
      var i :| DropAt(path, i, to);
      DropAtIsLowDrop(store, ts, to, i);
    }
  }

  /** A low chain has no such link. */
  lemma {:induction false} NoLowDropBelow(store: Store, ts: TipSet, to: int)
    requires WellFormed(store) && Has(store, ts)
    requires ts.height < 2 * SKIP_LENGTH || to >= ts.height
    ensures !LowDrop(store, ts, to)
    decreases ts.height
  {
    if ts.parents in store {
      NoLowDropBelow(store, store[ts.parents], to);
    }
  }

  /** Skipping to an ancestor at height 20 or more crosses no such link. */
  lemma {:induction false} LowDropFromAncestor(store: Store, ts: TipSet, a: TipSet, to: int)
    requires WellFormed(store) && Has(store, ts)
    requires Ancestor(store, a, ts) && a.height >= SKIP_LENGTH
    ensures Has(store, a) && LowDrop(store, ts, to) == LowDrop(store, a, to)
    decreases ts.height
  {
    if a != ts {
      var parent := store[ts.parents];
      assert a in Path(store, parent);
      PathShape(store, parent);
      LowDropFromAncestor(store, parent, a, to);
    }
  }

  ghost predicate SkipCrosses(store: Store, ts: TipSet, t: TipSet, to: int)
    requires WellFormed(store) && Has(store, ts)
  {
    && Has(store, t)
    && (if to > t.height then !LowDrop(store, ts, to)
        else LowDrop(store, ts, to) <==> LowDrop(store, t, to) || 1 <= t.height < SKIP_LENGTH)
  }

  /** One skip either keeps the question whether such a link lies ahead, or crosses it. */
  lemma SkipKeepsLowDrop(store: Store, ts: TipSet, to: int)
    requires Complete(store) && Has(store, ts) && ts.height >= SKIP_LENGTH && 0 <= to
    ensures SkipTarget(store, ts).Some?
    ensures SkipCrosses(store, ts, SkipTarget(store, ts).value, to)
  {
    var parent, height := store[ts.parents], RoundHeight(ts.height) - SKIP_LENGTH;
    if parent.height < height {
      if to > parent.height {
        NoLowDropBelow(store, parent, to);
      }
    } else {
      WalkBackDefined(store, parent, height);
      WalkBackIsAncestor(store, parent, height);
      var t := WalkBack(store, parent, height).value;
      if height == 0 {
        NoLowDropBelow(store, ts, to);
        NoLowDropBelow(store, t, to);
        WalkBackMeaning(store, parent, height, t);
        PathReachesGenesis(store, parent);
        PathShape(store, parent);
        assert t.height == 0;
      } else {
        assert Ancestor(store, t, ts);
        LowDropFromAncestor(store, ts, t, to);
        if to > t.height {
          NoLowDropBelow(store, t, to);
        }
      }
    }
  }

  /** Inside heights 1..19 there is no skip: the target height would be -20. */
  lemma NoSkipFromLowHeights(store: Store, ts: TipSet)
    requires Complete(store) && Has(store, ts) && ts.height < SKIP_LENGTH
    ensures SkipTarget(store, ts).None?
  {
    if ts.height > 0 {
      WalkBackDefined(store, store[ts.parents], -(SKIP_LENGTH as int));
    }
  }

  // ----- the index -------------------------------------------------------

  class Index {
    var store: Store
    var skipCache: map<Key, LbEntry>

    ghost predicate Valid()
      reads this
    {
      && WellFormed(store)
      && (forall k :: k in skipCache ==> EntryFor(store, k, skipCache[k]))
    }

    constructor (store: Store)
      requires WellFormed(store)
      ensures Valid() && this.store == store && skipCache == map[]
    {
      this.store := store;
      skipCache := map[];
    }

    /** The cache may drop any entries at any time. */
    method Evict()
      requires Valid()
      modifies this`skipCache
      ensures Valid() && skipCache.Keys <= old(skipCache).Keys
    {
      var dropped: set<Key> := *;
      skipCache := skipCache - dropped;
    }

    /** Blocks arrive between lookups; cached entries stay correct. */
    method Persist(more: Store)
      requires Valid()
      requires WellFormed(store + more)
      requires forall k :: k in store && k in more ==> store[k] == more[k]
      modifies this`store
      ensures Valid() && store == old(store) + more
    {
      var larger := store + more;
      forall k | k in skipCache
        ensures EntryFor(larger, k, skipCache[k])
      {
        var ts := store[k];
        var parent, height := store[ts.parents], RoundHeight(ts.height) - SKIP_LENGTH;
        if parent.height >= height {
          WalkBackInLargerStore(store, larger, parent, height);
        }
      }
      store := larger;
    }

    method WalkBackLoop(from: TipSet, to: int) returns (r: Option<TipSet>)
      requires Valid() && Has(store, from)
      ensures r == WalkBack(store, from, to)
    {
      if to > from.height {
        return None;
      }
      if to == from.height {
        return Some(from);
      }
      var ts := from;
      while true
        invariant Has(store, ts) && to < ts.height
        invariant WalkBack(store, from, to) == WalkBack(store, ts, to)
        decreases ts.height
      {
        var pts := Load(store, ts.parents);
        if pts.None? {
          return None;
        }
        if to > pts.value.height {
          return Some(ts);
        }
        if to == pts.value.height {
          return pts;
        }
        ts := pts.value;
      }
    }

    method RoundDown(ts: TipSet) returns (r: Option<TipSet>)
      requires Valid() && Has(store, ts)
      ensures r == WalkBack(store, ts, RoundHeight(ts.height))
    {
      r := WalkBackLoop(ts, RoundHeight(ts.height));
    }

    method FillCache(key: Key) returns (r: Option<LbEntry>)
      requires Valid()
      modifies this`skipCache
      ensures Valid()
      ensures key !in store ==> r.None?
      ensures key in store && store[key].height == 0 ==> r == Some(LbEntry(store[key], 0, 0, EMPTY_KEY))
      ensures key in store && store[key].height > 0 ==>
        (r.Some? <==> SkipTarget(store, store[key]).Some?) && (r.Some? ==> EntryFor(store, key, r.value))
      ensures skipCache.Keys <= old(skipCache).Keys + {key}
    {
      var loaded := Load(store, key);
      if loaded.None? {
        return None;
      }
      var ts := loaded.value;
      if ts.height == 0 {
        return Some(LbEntry(ts, 0, 0, EMPTY_KEY));
      }
      var rheight: int := RoundHeight(ts.height);
      var parent := Load(store, ts.parents);
      if parent.None? {
        return None;
      }
      rheight := rheight - SKIP_LENGTH;
      var skipTarget := parent;
      if parent.value.height >= rheight {
        skipTarget := WalkBackLoop(parent.value, rheight);
        if skipTarget.None? {
          return None;
        }
      }
      SkipTargetIsAncestor(store, ts);
      var lbe := LbEntry(ts, parent.value.height, skipTarget.value.height, skipTarget.value.key);
      skipCache := skipCache[key := lbe];
      Evict();
      return Some(lbe);
    }

    /** Every answer is the parent walk's answer. On a complete chain the index
        answers exactly when the walk does and no low drop lies in between. */
    method GetTipsetByHeight(from: TipSet, to: int) returns (r: Option<TipSet>)
      requires Valid() && Has(store, from)
      modifies this`skipCache
      ensures Valid()
      ensures r.Some? ==> r == WalkBack(store, from, to)
      ensures Complete(store) ==> (r.Some? <==> 0 <= to <= from.height && !LowDrop(store, from, to))
    {
      if from.height - to <= SKIP_LENGTH {
        r := WalkBackLoop(from, to);
        NearLookup(store, from, to);
        return;
      }
      var rounded := RoundDown(from);
      if rounded.None? {
        RoundDownDefined(store, from);
        return None;
      }
      StartOfSkips(store, from, to);
      var cur := rounded.value.key;
      while true
        invariant Valid()
        invariant cur == EMPTY_KEY ==> to < 0
        invariant cur != EMPTY_KEY ==> cur in store && to <= store[cur].height
        invariant cur != EMPTY_KEY ==> WalkBack(store, from, to) == WalkBack(store, store[cur], to)
        invariant Complete(store) && 0 <= to ==>
          (LowDrop(store, from, to) <==> LowDrop(store, store[cur], to) || 1 <= store[cur].height < SKIP_LENGTH)
        decreases if cur in store then store[cur].height + 1 else 0
      {
        var lbe: LbEntry;
        Evict();
        if cur in skipCache {
          lbe := skipCache[cur];
        } else {
          var fc := FillCache(cur);
          if fc.None? {
            if Complete(store) && 0 <= to && store[cur].height >= SKIP_LENGTH {
              SkipKeepsLowDrop(store, store[cur], to);
            }
            return None;
          }
          lbe := fc.value;
        }
        OneSkip(store, store[cur], to);
        if lbe.ts.height == to || lbe.parentHeight < to {
          return Some(lbe.ts);
        } else if to > lbe.targetHeight {
          r := WalkBackLoop(lbe.ts, to);
          return;
        }
        cur := lbe.target;
      }
    }

    /** The chain store's lookup: in a null round `prev` selects the tipset before
        the round, otherwise the one after it. The slow fallback is never taken. */
    method GetTipsetByHeightPrev(ts: TipSet, h: int, prev: bool) returns (r: Option<TipSet>)
      requires Valid() && Has(store, ts)
      modifies this`skipCache
      ensures Valid()
      ensures r.Some? && !prev ==> AtOrJustAbove(store, ts, h, r.value)
      ensures r.Some? && prev ==> AtOrJustBelow(store, ts, h, r.value)
      ensures Complete(store) ==> (r.Some? <==> 0 <= h <= ts.height && !LowDrop(store, ts, h))
    {
      if h > ts.height {
        return None;
      }
      if h == ts.height {
        WalkBackMeaning(store, ts, h, ts);
        PathShape(store, ts);
        NoLowDropBelow(store, ts, h);
        return Some(ts);
      }
      var lbts := GetTipsetByHeight(ts, h);
      if lbts.None? {
        return None;
      }
      WalkBackMeaning(store, ts, h, lbts.value);
      if lbts.value.height < h {
        lbts := WalkBackLoop(ts, h);
        if lbts.None? {
          return None;
        }
      }
      AboveAndBelow(store, ts, h, lbts.value);
      if lbts.value.height == h || !prev {
        return lbts;
      }
      r := Load(store, lbts.value.parents);
    }
  }

  // ----- steps of the lookup proof ---------------------------------------

  lemma NearLookup(store: Store, from: TipSet, to: int)
    requires WellFormed(store) && Has(store, from) && from.height - to <= SKIP_LENGTH
    ensures Complete(store) ==>
      (WalkBack(store, from, to).Some? <==> 0 <= to <= from.height && !LowDrop(store, from, to))
  {
    if Complete(store) {
      WalkBackDefined(store, from, to);
      if 0 <= to <= from.height && LowDrop(store, from, to) {
        LowDropReach(store, from, to);
      }
    }
  }

  lemma {:induction false} LowDropReach(store: Store, ts: TipSet, to: int)
    requires WellFormed(store) && Has(store, ts) && LowDrop(store, ts, to)
    ensures ts.height >= 2 * SKIP_LENGTH && to < SKIP_LENGTH
    decreases ts.height
  {
    if LowDrop(store, store[ts.parents], to) {
      LowDropReach(store, store[ts.parents], to);
    }
  }

  lemma RoundDownDefined(store: Store, from: TipSet)
    requires WellFormed(store) && Has(store, from)
    ensures Complete(store) ==> WalkBack(store, from, RoundHeight(from.height)).Some?
  {
    if Complete(store) {
      WalkBackDefined(store, from, RoundHeight(from.height));
    }
  }

  lemma StartOfSkips(store: Store, from: TipSet, to: int)
    requires WellFormed(store) && Has(store, from) && from.height - to > SKIP_LENGTH
    requires WalkBack(store, from, RoundHeight(from.height)).Some?
    ensures var a := WalkBack(store, from, RoundHeight(from.height)).value;
      && Has(store, a) && a.key != EMPTY_KEY && to <= a.height
      && WalkBack(store, from, to) == WalkBack(store, a, to)
      && (0 <= to ==> (LowDrop(store, from, to) <==> LowDrop(store, a, to)) && a.height >= SKIP_LENGTH)
  {
    var a := WalkBack(store, from, RoundHeight(from.height)).value;
    WalkBackIsAncestor(store, from, RoundHeight(from.height));
    WalkBackFromAncestor(store, from, a, to);
    if 0 <= to {
      LowDropFromAncestor(store, from, a, to);
    }
  }

  lemma OneSkip(store: Store, ts: TipSet, to: int)
    requires WellFormed(store) && Has(store, ts) && to <= ts.height
    ensures ts.height == to ==> WalkBack(store, ts, to) == Some(ts) && !LowDrop(store, ts, to)
    ensures ts.parents in store && store[ts.parents].height < to ==> WalkBack(store, ts, to) == Some(ts) && !LowDrop(store, ts, to)
    ensures SkipTarget(store, ts).Some? ==>
      var t := SkipTarget(store, ts).value;
      Has(store, t) && t.height < ts.height && (to <= t.height ==> WalkBack(store, ts, to) == WalkBack(store, t, to))
    ensures Complete(store) && 0 <= to && ts.height < SKIP_LENGTH ==>
      SkipTarget(store, ts).None? && !LowDrop(store, ts, to)
    ensures Complete(store) && 0 <= to && ts.height >= SKIP_LENGTH ==>
      SkipTarget(store, ts).Some? && SkipCrosses(store, ts, SkipTarget(store, ts).value, to)
    ensures Complete(store) && 0 <= to ==> WalkBack(store, ts, to).Some?
  {
    if ts.height == to {
      NoLowDropBelow(store, ts, to);
    }
    if ts.parents in store && store[ts.parents].height < to {
      NoLowDropBelow(store, store[ts.parents], to);
    }
    if SkipTarget(store, ts).Some? {
      SkipTargetIsAncestor(store, ts);
      var t := SkipTarget(store, ts).value;
      if to <= t.height {
        WalkBackFromAncestor(store, ts, t, to);
      }
    }
    if Complete(store) && 0 <= to {
      WalkBackDefined(store, ts, to);
      if ts.height < SKIP_LENGTH {
        NoSkipFromLowHeights(store, ts);
        NoLowDropBelow(store, ts, to);
      } else {
        SkipKeepsLowDrop(store, ts, to);
      }
    }
  }

  lemma AboveAndBelow(store: Store, from: TipSet, to: int, r: TipSet)
    requires WellFormed(store) && Has(store, from)
    requires WalkBack(store, from, to) == Some(r)
    ensures Has(store, r) && r.height >= to
    ensures r.height == to ==> AtOrJustBelow(store, from, to, r)
    ensures r.height > to ==> r.parents in store && AtOrJustBelow(store, from, to, store[r.parents])
  {
    WalkBackMeaning(store, from, to, r);
    PathShape(store, from);
    var path := Path(store, from);
    var i :| AboveAt(path, i, to, r);
    if r.height > to {
      assert path[i].parents == path[i + 1].key && path[i + 1] in path;
      forall a | a in path && a.height <= to
        ensures a.height <= path[i + 1].height
      {
        var j :| 0 <= j < |path| && path[j] == a;
        assert j > i;
      }
    }
  }

  /** A chain on which the walk answers and the index does not: 45 -> 10 -> 0, asked for 10. */
  lemma LowDropExample()
    ensures var g, low, high := TipSet(1, 0, 0, 0), TipSet(2, 1, 10, 0), TipSet(3, 2, 45, 0);
      var store: Store := map[1 := g, 2 := low, 3 := high];
      Complete(store) && WalkBack(store, high, 10) == Some(low) && LowDrop(store, high, 10)
  {
    var g, low, high := TipSet(1, 0, 0, 0), TipSet(2, 1, 10, 0), TipSet(3, 2, 45, 0);
    var store: Store := map[1 := g, 2 := low, 3 := high];
    assert WellFormed(store);
    assert WalkBack(store, low, 10) == Some(low);
  }
}
