/** Head changes (chain/store/store.go): the two-pointer reorg computation, the
    worker that turns queued reorgs into revert and apply notifications, and the
    path between two tipsets. */
module Reorg {
  import opened Wrappers
  import opened Chain

  datatype HeadChange = Revert(ts: TipSet) | Apply(ts: TipSet)

  // ----- where two chains part -------------------------------------------

  ghost predicate Common(store: Store, a: TipSet, b: TipSet, c: TipSet)
    requires WellFormed(store) && Has(store, a) && Has(store, b)
  {
    Ancestor(store, c, a) && Ancestor(store, c, b)
  }

  ghost predicate Related(store: Store, a: TipSet, b: TipSet)
    requires WellFormed(store) && Has(store, a) && Has(store, b)
  {
    exists c :: Common(store, a, b, c)
  }

  ghost predicate HighestCommon(store: Store, a: TipSet, b: TipSet, c: TipSet)
    requires WellFormed(store) && Has(store, a) && Has(store, b)
  {
    Common(store, a, b, c) && forall d :: Common(store, a, b, d) ==> d.height <= c.height
  }

  /** `left` and `right` are exactly the tipsets of either chain above their
      highest common ancestor `c`. */
  ghost predicate PartAt(store: Store, a: TipSet, b: TipSet, left: seq<TipSet>, right: seq<TipSet>, c: TipSet)
    requires WellFormed(store) && Has(store, a) && Has(store, b)
  {
    && HighestCommon(store, a, b, c) && Has(store, c)
    && Path(store, a) == left + Path(store, c)
    && Path(store, b) == right + Path(store, c)
  }

  ghost predicate Branches(store: Store, a: TipSet, b: TipSet, left: seq<TipSet>, right: seq<TipSet>)
    requires WellFormed(store) && Has(store, a) && Has(store, b)
  {
    exists c :: PartAt(store, a, b, left, right, c)
  }

  lemma StepKeepsCommon(store: Store, upper: TipSet, lower: TipSet, c: TipSet)
    requires WellFormed(store) && Has(store, upper) && Has(store, lower)
    requires upper.height >= lower.height && upper != lower
    requires Common(store, upper, lower, c)
    ensures upper.parents in store && Common(store, store[upper.parents], lower, c)
  {
    PathShape(store, lower);
    if c == upper {
      assert c in Path(store, lower);
      SameHeightSameTipSet(store, lower, c, lower);
    }
  }

  method ReorgOps(store: Store, a: TipSet, b: TipSet) returns (r: Option<(seq<TipSet>, seq<TipSet>)>)
    requires WellFormed(store) && Has(store, a) && Has(store, b)
    ensures r.Some? <==> Related(store, a, b)
    ensures r.Some? ==> Branches(store, a, b, r.value.0, r.value.1)
  {
    var left, right := a, b;
    var leftChain, rightChain := [], [];
    while left != right
      invariant Has(store, left) && Has(store, right)
      invariant Path(store, a) == leftChain + Path(store, left)
      invariant Path(store, b) == rightChain + Path(store, right)
      invariant forall c :: Common(store, a, b, c) ==> Common(store, left, right, c)
      decreases left.height + right.height
    {
      forall c | Common(store, a, b, c)
        ensures if left.height > right.height
          then left.parents in store && Common(store, store[left.parents], right, c)
          else right.parents in store && Common(store, left, store[right.parents], c)
      {
        if left.height > right.height {
          StepKeepsCommon(store, left, right, c);
        } else {
          StepKeepsCommon(store, right, left, c);
        }
      }
      if left.height > right.height {
        leftChain := leftChain + [left];
        var par := Load(store, left.parents);
        if par.None? {
          return None;
        }
        left := par.value;
      } else {
        rightChain := rightChain + [right];
        var par := Load(store, right.parents);
        if par.None? {
          return None;
        }
        right := par.value;
      }
    }
    PathShape(store, left);
    assert left in Path(store, a) && left in Path(store, b);
    assert PartAt(store, a, b, leftChain, rightChain, left);
    return Some((leftChain, rightChain));
  }

  /** The answer of `ReorgOps` is determined by the two chains. */
  lemma BranchesUnique(store: Store, a: TipSet, b: TipSet,
                       l1: seq<TipSet>, r1: seq<TipSet>, l2: seq<TipSet>, r2: seq<TipSet>)
    requires WellFormed(store) && Has(store, a) && Has(store, b)
    requires Branches(store, a, b, l1, r1) && Branches(store, a, b, l2, r2)
    ensures l1 == l2 && r1 == r2
  {
    var c1 :| PartAt(store, a, b, l1, r1, c1);
    var c2 :| PartAt(store, a, b, l2, r2, c2);
    SameHeightSameTipSet(store, a, c1, c2);
    var n := |Path(store, c1)|;
    assert l1 == Path(store, a)[..|Path(store, a)| - n] == l2;
    assert r1 == Path(store, b)[..|Path(store, b)| - n] == r2;
  }

  lemma AncestorIsCommon(store: Store, a: TipSet, b: TipSet)
    requires WellFormed(store) && Has(store, a) && Has(store, b)
    ensures Ancestor(store, a, b) ==> Common(store, a, b, a)
  {
  }

  datatype Nearest = Panics | LoadFails | Found(ts: TipSet)

  /** The nearest common ancestor is read off the last reverted tipset, so there
      is none to read when `a` itself is an ancestor of `b`. */
  method NearestCommonAncestor(store: Store, a: TipSet, b: TipSet) returns (r: Nearest)
    requires WellFormed(store) && Has(store, a) && Has(store, b)
    ensures r.LoadFails? <==> !Related(store, a, b)
    ensures r.Panics? <==> Ancestor(store, a, b)
    ensures r.Found? ==> HighestCommon(store, a, b, r.ts)
  {
    AncestorIsCommon(store, a, b);
    var ops := ReorgOps(store, a, b);
    if ops.None? {
      return LoadFails;
    }
    var l := ops.value.0;
    ghost var c :| PartAt(store, a, b, l, ops.value.1, c);
    assert Common(store, a, b, c);
    PathShape(store, a);
    if |l| == 0 {
      assert Path(store, a)[0] == Path(store, c)[0];
      return Panics;
    }
    assert Path(store, a)[|l| - 1] == l[|l| - 1] && Path(store, a)[|l|] == c;
    assert Path(store, a)[0].height > c.height;
    return Found(Load(store, l[|l| - 1].parents).value);
  }

  // ----- the notification stream -----------------------------------------

  ghost function Reverse<T>(s: seq<T>): (r: seq<T>)
    ensures |r| == |s|
  {
    if s == [] then [] else [s[|s| - 1]] + Reverse(s[..|s| - 1])
  }

  lemma {:induction false} ReverseAt<T>(s: seq<T>, k: nat)
    requires k < |s|
    ensures Reverse(s)[k] == s[|s| - 1 - k]
  {
    if k > 0 {
      ReverseAt(s[..|s| - 1], k - 1);
    }
  }

  ghost function Reverts(s: seq<TipSet>): seq<HeadChange> {
    seq(|s|, i requires 0 <= i < |s| => Revert(s[i]))
  }

  ghost function Applies(s: seq<TipSet>): seq<HeadChange> {
    seq(|s|, i requires 0 <= i < |s| => Apply(s[i]))
  }

  ghost function Stream(left: seq<TipSet>, right: seq<TipSet>): seq<HeadChange> {
    Reverts(left) + Applies(Reverse(right))
  }

  /** A subscriber keeps its chain as a stack, head first. A revert must name the
      head, and an applied tipset must be the head's child. */
  ghost function Replay(stack: seq<TipSet>, changes: seq<HeadChange>): Option<seq<TipSet>>
    decreases |changes|
  {
    if changes == [] then Some(stack)
    else if stack == [] then None
    else match changes[0]
      case Revert(ts) => if stack[0] == ts then Replay(stack[1..], changes[1..]) else None
      case Apply(ts) => if ts.parents == stack[0].key then Replay([ts] + stack, changes[1..]) else None
  }

  lemma {:induction false} ReplayConcat(stack: seq<TipSet>, x: seq<HeadChange>, y: seq<HeadChange>)
    ensures Replay(stack, x).Some? ==> Replay(stack, x + y) == Replay(Replay(stack, x).value, y)
    decreases |x|
  {
    if x == [] {
      assert x + y == y;
    } else if Replay(stack, x).Some? {
      assert (x + y)[0] == x[0] && (x + y)[1..] == x[1..] + y;
      ReplayConcat(if x[0].Revert? then stack[1..] else [x[0].ts] + stack, x[1..], y);
    }
  }

  lemma {:induction false} ReplayReverts(left: seq<TipSet>, base: seq<TipSet>)
    ensures Replay(left + base, Reverts(left)) == Some(base)
    decreases |left|
  {
    if left == [] {
      assert left + base == base;
    } else {
      assert Reverts(left)[1..] == Reverts(left[1..]);
      assert (left + base)[1..] == left[1..] + base;
      ReplayReverts(left[1..], base);
    }
  }

  lemma {:induction false} ReplayApplies(right: seq<TipSet>, base: seq<TipSet>)
    requires base != [] && Linked(right + base)
    ensures Replay(base, Applies(Reverse(right))) == Some(right + base)
    decreases |right|
  {
    if right == [] {
      assert right + base == base;
    } else {
      var n := |right| - 1;
      var last, higher := right[n], [right[n]] + base;
      assert right + base == right[..n] + higher;
      assert (right + base)[n] == last && (right + base)[n + 1] == base[0];
      ReplayApplies(right[..n], higher);
      assert Reverse(right)[1..] == Reverse(right[..n]);
      assert Applies(Reverse(right))[1..] == Applies(Reverse(right[..n]));
    }
  }

  /** Replaying a reorg takes a subscriber from the old head's chain to the new one's. */
  lemma ReplayReorg(store: Store, a: TipSet, b: TipSet, left: seq<TipSet>, right: seq<TipSet>)
    requires WellFormed(store) && Has(store, a) && Has(store, b)
    requires Branches(store, a, b, left, right)
    ensures Replay(Path(store, a), Stream(left, right)) == Some(Path(store, b))
  {
    var c :| PartAt(store, a, b, left, right, c);
    var base := Path(store, c);
    PathShape(store, b);
    ReplayReverts(left, base);
    ReplayApplies(right, base);
    ReplayConcat(Path(store, a), Reverts(left), Applies(Reverse(right)));
  }

  /** The worker reverses the applied tipsets in place, oldest first. */
  method ReverseInPlace(apply: array<TipSet>)
    modifies apply
    ensures apply[..] == Reverse(old(apply[..]))
  {
    ghost var was := apply[..];
    var n := apply.Length;
    var i := n / 2 - 1;
    while i >= 0
      invariant -1 <= i <= n / 2 - 1
      invariant forall k :: i < k < n - 1 - i ==> apply[k] == was[n - 1 - k]
      invariant forall k :: 0 <= k < n && (k <= i || k >= n - 1 - i) ==> apply[k] == was[k]
    {
      var opp := n - 1 - i;
      apply[i], apply[opp] := apply[opp], apply[i];
      i := i - 1;
    }
    forall k | 0 <= k < n
      ensures apply[..][k] == Reverse(was)[k]
    {
      ReverseAt(was, k);
    }
  }

  method BuildPath(revert: seq<TipSet>, apply: seq<TipSet>) returns (path: seq<HeadChange>)
    ensures path == Stream(revert, apply)
  {
    path := [];
    for i := 0 to |revert|
      invariant path == Reverts(revert)[..i]
    {
      path := path + [Revert(revert[i])];
    }
    var i := |apply| - 1;
    while i >= 0
      invariant -1 <= i < |apply|
      invariant path == Reverts(revert) + Applies(Reverse(apply))[..|apply| - 1 - i]
    {
      ReverseAt(apply, |apply| - 1 - i);
      path := path + [Apply(apply[i])];
      i := i - 1;
    }
  }

  /** The path between two stored tipsets is the notification stream of that reorg. */
  method GetPath(store: Store, from: Key, to: Key) returns (r: Option<seq<HeadChange>>)
    requires WellFormed(store)
    ensures r.Some? <==> from in store && to in store && Related(store, store[from], store[to])
    ensures r.Some? ==> Replay(Path(store, store[from]), r.value) == Some(Path(store, store[to]))
    ensures r.Some? ==> exists left, right :: Branches(store, store[from], store[to], left, right) && r.value == Stream(left, right)
  {
    var fts, tts := Load(store, from), Load(store, to);
    if fts.None? || tts.None? {
      return None;
    }
    var ops := ReorgOps(store, fts.value, tts.value);
    if ops.None? {
      return None;
    }
    var (revert, apply) := ops.value;
    var path := BuildPath(revert, apply);
    ReplayReorg(store, fts.value, tts.value, revert, apply);
    return Some(path);
  }

  // ----- the store, its worker and a subscriber --------------------------

  lemma RelatedByGenesis(store: Store, a: TipSet, b: TipSet)
    requires OneGenesis(store) && Has(store, a) && Has(store, b)
    ensures Related(store, a, b)
  {
    PathReachesGenesis(store, a);
    PathReachesGenesis(store, b);
    PathShape(store, a);
    PathShape(store, b);
    var g := Path(store, a)[|Path(store, a)| - 1];
    assert Common(store, a, b, g) by {
      assert Path(store, b)[|Path(store, b)| - 1] in Path(store, b);
    }
  }

  lemma OneGenesisRelates(store: Store, a: TipSet, b: TipSet)
    requires Complete(store) && Has(store, a) && Has(store, b)
    ensures OneGenesis(store) ==> Related(store, a, b)
  {
    if OneGenesis(store) {
      RelatedByGenesis(store, a, b);
    }
  }

  lemma {:induction false} PathInLargerStore(store: Store, larger: Store, ts: TipSet)
    requires Complete(store) && WellFormed(larger) && Has(store, ts)
    requires forall k :: k in store ==> k in larger && larger[k] == store[k]
    ensures Has(larger, ts) && Path(larger, ts) == Path(store, ts)
    decreases ts.height
  {
    if ts.height > 0 {
      PathInLargerStore(store, larger, store[ts.parents]);
    } else {
      assert larger[ts.key].parents !in larger;
    }
  }

  datatype HeadMove = HeadMove(old_: TipSet, new_: TipSet)

  /** Each queued move starts where the one before it ended, and the last ends at the head. */
  ghost predicate Chained(moves: seq<HeadMove>, head: TipSet) {
    && (forall i :: 0 <= i < |moves| - 1 ==> moves[i].new_ == moves[i + 1].old_)
    && (moves != [] ==> moves[|moves| - 1].new_ == head)
  }

  ghost predicate AllStored(store: Store, moves: seq<HeadMove>) {
    forall m :: m in moves ==> Has(store, m.old_) && Has(store, m.new_)
  }

  lemma ChainedAppend(store: Store, moves: seq<HeadMove>, head: TipSet, ts: TipSet)
    requires AllStored(store, moves) && Chained(moves, head) && Has(store, head) && Has(store, ts)
    ensures AllStored(store, moves + [HeadMove(head, ts)]) && Chained(moves + [HeadMove(head, ts)], ts)
    ensures (moves + [HeadMove(head, ts)])[0] == if moves == [] then HeadMove(head, ts) else moves[0]
  {
  }

  lemma ChainedTail(store: Store, moves: seq<HeadMove>, head: TipSet)
    requires moves != [] && AllStored(store, moves) && Chained(moves, head)
    ensures AllStored(store, moves[1..]) && Chained(moves[1..], head)
    ensures Has(store, moves[0].old_) && Has(store, moves[0].new_)
    ensures moves[0].new_ == if |moves| == 1 then head else moves[1].old_
  {
    assert moves[0] in moves;
  }

  type Notice = (seq<TipSet>, array<TipSet>)

  /** What the worker sends for one move: nothing exactly when the two heads share no ancestor. */
  method Notify(store: Store, a: TipSet, b: TipSet) returns (r: Option<Notice>)
    requires WellFormed(store) && Has(store, a) && Has(store, b)
    ensures r.Some? <==> Related(store, a, b)
    ensures r.Some? ==> fresh(r.value.1) && Branches(store, a, b, r.value.0, Reverse(r.value.1[..]))
    ensures r.Some? ==> Replay(Path(store, a), Reverts(r.value.0) + Applies(r.value.1[..])) == Some(Path(store, b))
  {
    var ops := ReorgOps(store, a, b);
    if ops.None? {
      return None;
    }
    var revert, right := ops.value.0, ops.value.1;
    var apply := new TipSet[|right|](i requires 0 <= i < |right| => right[i]);
    assert apply[..] == right;
    ReverseInPlace(apply);
    ReverseTwice(right);
    ReplayReorg(store, a, b, revert, right);
    return Some((revert, apply));
  }

  lemma ReverseTwice<T>(s: seq<T>)
    ensures Reverse(Reverse(s)) == s
  {
    forall k | 0 <= k < |s|
      ensures Reverse(Reverse(s))[k] == s[k]
    {
      ReverseAt(Reverse(s), k);
      ReverseAt(s, |s| - 1 - k);
    }
  }

  class ChainStore {
    var store: Store
    var heaviest: Option<TipSet>
    var reorgCh: seq<HeadMove>
    ghost var subscriber: seq<TipSet>   // the chain a notified subscriber believes in, head first
    ghost var inStep: bool              // no move had to be skipped so far

    /** As long as no move was skipped, the subscriber stands where the oldest undelivered move
        starts; once the queue has drained, on the store's own head. */
    ghost predicate Valid()
      reads this
    {
      && Complete(store)
      && (heaviest.None? ==> reorgCh == [])
      && (heaviest.Some? ==> Has(store, heaviest.value) && AllStored(store, reorgCh) && Chained(reorgCh, heaviest.value))
      && (heaviest.Some? && inStep ==> subscriber == Path(store, if reorgCh == [] then heaviest.value else reorgCh[0].old_))
    }

    constructor (store: Store)
      requires Complete(store)
      ensures Valid() && this.store == store && heaviest == None && reorgCh == [] && inStep
    {
      this.store := store;
      heaviest := None;
      reorgCh := [];
      subscriber := [];
      inStep := true;
    }

    method Persist(more: Store)
      requires Valid()
      requires Complete(store + more)
      requires forall k :: k in store && k in more ==> store[k] == more[k]
      modifies this`store
      ensures Valid() && store == old(store) + more
    {
      var larger := store + more;
      if heaviest.Some? {
        PathInLargerStore(store, larger, if reorgCh == [] then heaviest.value else reorgCh[0].old_);
      }
      store := larger;
    }

    /** A new head is recorded at once; its notification waits in the queue. */
    method TakeHeaviestTipSet(ts: TipSet)
      requires Valid() && Has(store, ts)
      modifies this`heaviest, this`reorgCh, this`subscriber
      ensures Valid() && heaviest == Some(ts)
      ensures old(heaviest).Some? ==> subscriber == old(subscriber) && reorgCh == old(reorgCh) + [HeadMove(old(heaviest).value, ts)]
      ensures old(heaviest).None? ==> subscriber == Path(store, ts) && reorgCh == []
    {
      if heaviest.Some? {
        ChainedAppend(store, reorgCh, heaviest.value, ts);
        reorgCh := reorgCh + [HeadMove(heaviest.value, ts)];
      } else {
        subscriber := Path(store, ts);
      }
      heaviest := Some(ts);
    }

    /** The worker takes the oldest queued move. It is skipped exactly when its heads share no
        ancestor, which cannot be in a store with one genesis. Until then every single
        notification fits the subscriber's chain, and the subscriber ends on the move's new head. */
    method ReorgWorkerStep() returns (sent: Option<Notice>)
      requires Valid() && reorgCh != []
      modifies this`reorgCh, this`subscriber, this`inStep
      ensures Valid() && reorgCh == old(reorgCh)[1..] && heaviest == old(heaviest)
      ensures Has(store, old(reorgCh)[0].old_) && Has(store, old(reorgCh)[0].new_)
      ensures sent.Some? <==> Related(store, old(reorgCh)[0].old_, old(reorgCh)[0].new_)
      ensures OneGenesis(store) ==> sent.Some?
      ensures inStep <==> old(inStep) && sent.Some?
      ensures inStep ==> sent.Some? && Replay(old(subscriber), Reverts(sent.value.0) + Applies(sent.value.1[..])) == Some(subscriber)
      ensures inStep ==> subscriber == Path(store, old(reorgCh)[0].new_)
      ensures !inStep ==> subscriber == old(subscriber)
    {
      var r, rest := reorgCh[0], reorgCh[1..];
      ChainedTail(store, reorgCh, heaviest.value);
      OneGenesisRelates(store, r.old_, r.new_);
      sent := Notify(store, r.old_, r.new_);
      if inStep && sent.Some? {
        subscriber := Path(store, r.new_);
      } else {
        inStep := false;
      }
      reorgCh := rest;
    }
  }
}
