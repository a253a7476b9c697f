/** Tipsets, the block store, and the ancestor path of a tipset.

    A tipset key stands for the ordered list of its blocks' CIDs, so keys are
    compared as values and distinct tipsets have distinct keys. */
module Chain {
  import opened Wrappers

  type Key = nat

  /** The key of no tipset: the parents of genesis. */
  const EMPTY_KEY: Key := 0

  datatype TipSet = TipSet(key: Key, parents: Key, height: nat, parentWeight: int)

  type Store = map<Key, TipSet>

  /** A tipset is stored under its own key and sits strictly above its parent. */
  ghost predicate WellFormed(store: Store) {
    && EMPTY_KEY !in store
    && (forall k :: k in store ==> store[k].key == k)
    && (forall k {:trigger store[k].parents} :: k in store && store[k].parents in store ==> store[store[k].parents].height < store[k].height)
  }

  /** Only genesis, the tipset at height 0, has no stored parent. */
  ghost predicate Complete(store: Store) {
    && WellFormed(store)
    && (forall k {:trigger store[k].parents} :: k in store && store[k].height > 0 ==> store[k].parents in store)
  }

  /** All chains of the store start at the same genesis. */
  ghost predicate OneGenesis(store: Store) {
    && Complete(store)
    && (forall j, k :: j in store && k in store && store[j].height == 0 && store[k].height == 0 ==> j == k)
  }

  predicate Has(store: Store, ts: TipSet) {
    ts.key in store && store[ts.key] == ts
  }

  function Load(store: Store, key: Key): Option<TipSet> {
    if key in store then Some(store[key]) else None
  }

  /** The tipset and its ancestors, highest first. */
  ghost function Path(store: Store, ts: TipSet): (path: seq<TipSet>)
    requires WellFormed(store) && Has(store, ts)
    ensures |path| > 0 && path[0] == ts
    decreases ts.height
  {
    [ts] + if ts.parents in store then Path(store, store[ts.parents]) else []
  }

  ghost predicate Ancestor(store: Store, a: TipSet, ts: TipSet)
    requires WellFormed(store) && Has(store, ts)
  {
    a in Path(store, ts)
  }

  /** Consecutive tipsets are child and parent, so heights fall along the path. */
  ghost predicate Linked(path: seq<TipSet>) {
    forall i :: 0 <= i < |path| - 1 ==> path[i].parents == path[i + 1].key
  }

  ghost predicate Falling(path: seq<TipSet>) {
    forall i, j :: 0 <= i < j < |path| ==> path[j].height < path[i].height
  }

  lemma {:induction false} PathShape(store: Store, ts: TipSet)
    requires WellFormed(store) && Has(store, ts)
    ensures Linked(Path(store, ts)) && Falling(Path(store, ts))
    ensures forall a :: a in Path(store, ts) ==> Has(store, a) && a.height <= ts.height
    decreases ts.height
  {
    if ts.parents in store {
      var p := store[ts.parents];
      PathShape(store, p);
      var path, rest := Path(store, ts), Path(store, p);
      assert path == [ts] + rest;
      assert forall i :: 0 < i < |path| ==> path[i] == rest[i - 1] && rest[i - 1] in rest;
    }
  }

  /** A path cut at any of its tipsets is that tipset's own path. */
  lemma {:induction false} PathSuffix(store: Store, ts: TipSet, i: nat)
    requires WellFormed(store) && Has(store, ts)
    requires i < |Path(store, ts)|
    ensures Has(store, Path(store, ts)[i])
    ensures Path(store, Path(store, ts)[i]) == Path(store, ts)[i..]
    decreases i
  {
    if i > 0 {
      PathSuffix(store, store[ts.parents], i - 1);
    }
  }

  /** On one chain a height names at most one tipset. */
  lemma SameHeightSameTipSet(store: Store, ts: TipSet, a: TipSet, b: TipSet)
    requires WellFormed(store) && Has(store, ts)
    requires Ancestor(store, a, ts) && Ancestor(store, b, ts) && a.height == b.height
    ensures a == b
  {
    PathShape(store, ts);
    var path := Path(store, ts);
    var i :| 0 <= i < |path| && path[i] == a;
    var j :| 0 <= j < |path| && path[j] == b;
    if i < j || j < i {
      assert false;
    }
  }

  /** Every chain of a complete store reaches down to height 0. */
  lemma {:induction false} PathReachesGenesis(store: Store, ts: TipSet)
    requires Complete(store) && Has(store, ts)
    ensures Path(store, ts)[|Path(store, ts)| - 1].height == 0
    decreases ts.height
  {
    if ts.parents in store {
      PathReachesGenesis(store, store[ts.parents]);
    }
  }
}
