/** Collecting the headers of a chain to sync to (chain/sync.go, `collectHeaders` and
    `syncFork`). `world` stands for all tipsets there are; the local store holds some of
    them, and fetching from peers yields others. */
module SyncFork {
  import opened Wrappers
  import opened Chain

  datatype ForkResult = Fork(tips: seq<TipSet>) | TooLong | AtGenesis | WrongGenesis | Unavailable

  // ----- finding where a fork joins our chain ----------------------------

  /** The fetched tipsets before `cur` are not on our chain, and those from `cur` on are
      not on the part of it that lies above the `i`-th tipset. */
  ghost predicate Searched(ours: seq<TipSet>, tips: seq<TipSet>, i: nat, cur: nat) {
    && (forall j, k :: 0 <= j < cur && j < |tips| && 0 <= k < |ours| ==> tips[j] != ours[k])
    && (forall j, k :: cur <= j < |tips| && 0 <= k < i && k < |ours| ==> tips[j] != ours[k])
  }

  lemma SkipTip(ours: seq<TipSet>, tips: seq<TipSet>, i: nat, cur: nat)
    requires Falling(ours) && Falling(tips) && i < |ours| && cur < |tips|
    requires Searched(ours, tips, i, cur) && ours[i].height < tips[cur].height
    ensures Searched(ours, tips, i, cur + 1)
  {
    forall k | 0 <= k < |ours|
      ensures tips[cur] != ours[k]
    {
      assert k > i ==> ours[k].height < ours[i].height;
    }
  }

  lemma SkipOurs(ours: seq<TipSet>, tips: seq<TipSet>, i: nat, cur: nat)
    requires Falling(ours) && Falling(tips) && i < |ours| && cur < |tips|
    requires Searched(ours, tips, i, cur) && ours[i] != tips[cur] && ours[i].height >= tips[cur].height
    ensures Searched(ours, tips, i + 1, cur)
  {
    forall j | cur <= j < |tips|
      ensures tips[j] != ours[i]
    {
      assert j > cur ==> tips[j].height < tips[cur].height;
    }
  }

  /** The chain below the known tipset, empty when its parent is not stored. */
  ghost function Below(store: Store, known: TipSet): seq<TipSet>
    requires WellFormed(store)
  {
    if known.parents in store then Path(store, store[known.parents]) else []
  }

  ghost predicate Shared(ours: seq<TipSet>, ts: TipSet) {
    ts in ours && ts.height > 0
  }

  /** Where the fetched tipsets meet our chain, `tips` being what peers sent. */
  method JoinFork(store: Store, known: TipSet, genesis: TipSet, tips: seq<TipSet>) returns (r: ForkResult)
    requires WellFormed(store) && Falling(tips)
    ensures r.Fork? ==> 0 < |r.tips| <= |tips| && r.tips == tips[..|r.tips|] && Shared(Below(store, known), tips[|r.tips| - 1])
    ensures r.Fork? ==> forall j :: 0 <= j < |r.tips| - 1 ==> tips[j] !in Below(store, known)
    ensures r.TooLong? ==> forall j :: 0 <= j < |tips| ==> tips[j] !in Below(store, known)
    ensures r.AtGenesis? || r.WrongGenesis? ==> forall j :: 0 <= j < |tips| ==> !Shared(Below(store, known), tips[j])
    ensures r.AtGenesis? ==> genesis in Below(store, known)
    ensures Complete(store) && known.parents in store ==> !r.Unavailable?
  {
    if known.parents !in store {
      return Unavailable;
    }
    var nts := store[known.parents];
    ghost var ours := Path(store, nts);
    ghost var i := 0;
    PathShape(store, nts);
    var cur := 0;
    while cur < |tips|
      invariant 0 <= i < |ours| && ours[i] == nts && cur <= |tips|
      invariant Searched(ours, tips, i, cur)
      decreases |tips| - cur, nts.height
    {
      if nts.height == 0 {
        NothingShared(ours, tips, i, cur);
        if genesis != nts {
          return WrongGenesis;
        }
        return AtGenesis;
      }
      if nts == tips[cur] {
        assert tips[..cur + 1][..cur] == tips[..cur];
        return Fork(tips[..cur + 1]);
      }
      if nts.height < tips[cur].height {
        SkipTip(ours, tips, i, cur);
        cur := cur + 1;
      } else {
        SkipOurs(ours, tips, i, cur);
        PathSuffix(store, ours[0], i);
        if nts.parents !in store {
          return Unavailable;
        }
        assert Path(store, nts)[1] == store[nts.parents];
        nts := store[nts.parents];
        i := i + 1;
      }
    }
    return TooLong;
  }

  lemma NothingShared(ours: seq<TipSet>, tips: seq<TipSet>, i: nat, cur: nat)
    requires Falling(ours) && i < |ours| && ours[i].height == 0 && Searched(ours, tips, i, cur) && cur <= |tips|
    ensures forall j :: 0 <= j < |tips| ==> !Shared(ours, tips[j])
  {
    forall j | 0 <= j < |tips| && tips[j] in ours
      ensures tips[j].height == 0
    {
      var k :| 0 <= k < |ours| && ours[k] == tips[j];
      assert k > i ==> ours[k].height < ours[i].height;
    }
  }

  // ----- the known world -------------------------------------------------

  /** Every stored tipset is a tipset of the world. */
  ghost predicate Within(store: Store, world: Store) {
    forall k :: k in store ==> k in world && store[k] == world[k]
  }

  ghost predicate AllIn(world: Store, headers: seq<TipSet>) {
    forall i :: 0 <= i < |headers| ==> Has(world, headers[i])
  }

  /** A fetched segment starts at the key asked for and is linked. */
  ghost predicate Segment(world: Store, key: Key, seg: seq<TipSet>) {
    seg != [] && seg[0].key == key && Linked(seg) && AllIn(world, seg)
  }

  ghost predicate Fetches(world: Store, fetch: (Key, int) -> Option<seq<TipSet>>) {
    forall key, n :: fetch(key, n).Some? ==> Segment(world, key, fetch(key, n).value)
  }

  lemma ParentLower(world: Store, child: TipSet, parent: TipSet)
    requires WellFormed(world) && Has(world, child) && Has(world, parent) && child.parents == parent.key
    ensures parent.height < child.height
  {
  }

  lemma {:induction false} LinkedFalls(world: Store, seg: seq<TipSet>, i: nat, j: nat)
    requires WellFormed(world) && Linked(seg) && AllIn(world, seg) && i < j < |seg|
    ensures seg[j].height < seg[i].height
    decreases j
  {
    ParentLower(world, seg[j - 1], seg[j]);
    if i < j - 1 {
      LinkedFalls(world, seg, i, j - 1);
    }
  }

  lemma SegmentFalls(world: Store, seg: seq<TipSet>)
    requires WellFormed(world) && Linked(seg) && AllIn(world, seg)
    ensures Falling(seg)
  {
    forall i, j | 0 <= i < j < |seg|
      ensures seg[j].height < seg[i].height
    {
      LinkedFalls(world, seg, i, j);
    }
  }

  // ----- collecting headers ----------------------------------------------

  /** Headers from `incoming` down, linked, and good below `incoming`. */
  ghost predicate Collected(world: Store, incoming: TipSet, bad: set<Key>, headers: seq<TipSet>) {
    && headers != [] && headers[0] == incoming && Linked(headers) && AllIn(world, headers)
    && (forall i :: 0 < i < |headers| ==> headers[i].key !in bad)
  }

  lemma CollectOne(world: Store, incoming: TipSet, bad: set<Key>, headers: seq<TipSet>, ts: TipSet, more: seq<TipSet>)
    requires Collected(world, incoming, bad, headers) && Has(world, ts) && ts.key !in bad
    requires headers[|headers| - 1].parents == ts.key && more == headers + [ts]
    ensures Collected(world, incoming, bad, more)
  {
  }

  ghost predicate TakenUpTo(headers: seq<TipSet>, seg: seq<TipSet>, untilHeight: int, headers': seq<TipSet>, k: nat) {
    k <= |seg| && headers' == headers + seg[..k] && forall i :: 0 <= i < k ==> seg[i].height >= untilHeight
  }

  /** The first `k` fetched tipsets were taken, and the next one is too low. */
  ghost predicate TakenTo(headers: seq<TipSet>, seg: seq<TipSet>, untilHeight: int, headers': seq<TipSet>, k: nat) {
    TakenUpTo(headers, seg, untilHeight, headers', k) && (k < |seg| ==> seg[k].height < untilHeight)
  }

  /** Whatever comes next lies below this height. */
  ghost predicate ParentBelow(world: Store, ts: TipSet, height: int) {
    ts.parents in world ==> world[ts.parents].height < height
  }

  /** No tipset above the height is on the deny list, the first one apart. */
  ghost predicate NoneDenied(tips: seq<TipSet>, bad: set<Key>, height: int) {
    forall i :: 0 < i < |tips| && tips[i].height >= height ==> tips[i].key !in bad
  }

  /** Takes fetched tipsets down to the wanted height; stops at a bad one. */
  method TakeSegment(headers: seq<TipSet>, seg: seq<TipSet>, untilHeight: int, bad: set<Key>, ghost world: Store, ghost incoming: TipSet)
    returns (headers': seq<TipSet>, ok: bool, done: bool)
    requires WellFormed(world) && Collected(world, incoming, bad, headers)
    requires Segment(world, headers[|headers| - 1].parents, seg)
    ensures ok ==> Collected(world, incoming, bad, headers')
    ensures !ok ==> exists i :: 0 <= i < |seg| && seg[i].key in bad
    ensures ok ==> exists k: nat :: TakenTo(headers, seg, untilHeight, headers', k) && (done <==> k < |seg|)
    ensures ok && !done ==> headers'[|headers'| - 1].height < headers[|headers| - 1].height && headers'[|headers'| - 1] == seg[|seg| - 1]
    ensures ok && done ==> ParentBelow(world, headers'[|headers'| - 1], untilHeight)
  {
    headers', ok, done := headers, true, false;
    for i := 0 to |seg|
      invariant Collected(world, incoming, bad, headers') && ok && !done
      invariant headers'[|headers'| - 1].parents == if i < |seg| then seg[i].key else seg[i - 1].parents
      invariant TakenUpTo(headers, seg, untilHeight, headers', i)
      invariant i == 0 ==> headers' == headers
      invariant i > 0 ==> headers'[|headers'| - 1] == seg[i - 1]
    {
      if seg[i].height < untilHeight {
        done := true;
        assert TakenTo(headers, seg, untilHeight, headers', i);
        return;
      }
      if seg[i].key in bad {
        ok := false;
        return;
      }
      var more := headers' + [seg[i]];
      CollectOne(world, incoming, bad, headers', seg[i], more);
      assert headers + seg[..i + 1] == headers + seg[..i] + [seg[i]];
      headers' := more;
    }
    assert TakenTo(headers, seg, untilHeight, headers', |seg|);
    ParentLower(world, headers[|headers| - 1], seg[0]);
    SegmentFalls(world, seg);
  }

  /** How a successful sync ends: at a child of the known tipset, at a sibling of it, or
      at a proper ancestor above genesis. */
  ghost predicate Meets(store: Store, known: TipSet, last: TipSet)
    requires WellFormed(store)
  {
    last.parents == known.key || last.parents == known.parents || Shared(Below(store, known), last)
  }

  datatype Collection = Headers(tips: seq<TipSet>) | Denied | NotFetched | Unjoined(base: TipSet, fork: ForkResult)

  /** Peers can serve every tipset of the world, and none is on the deny list. */
  ghost predicate Served(world: Store, fetch: (Key, int) -> Option<seq<TipSet>>, bad: set<Key>) {
    Complete(world) && bad == {} && forall k, n :: k in world ==> fetch(k, n).Some?
  }

  method CollectDown(store: Store, incoming: TipSet, known: TipSet, bad: set<Key>, fetch: (Key, int) -> Option<seq<TipSet>>, ghost world: Store)
    returns (r: Collection)
    requires WellFormed(world) && Within(store, world) && Has(world, incoming) && Fetches(world, fetch)
    ensures r.Headers? ==> Collected(world, incoming, bad, r.tips)
    ensures r.Headers? ==> ParentBelow(world, r.tips[|r.tips| - 1], known.height + 1)
    ensures Served(world, fetch, bad) ==> r.Headers?
    ensures !r.Unjoined?
  {
    var headers := [incoming];
    var at := incoming.parents;
    var untilHeight := known.height + 1;
    while headers[|headers| - 1].height > untilHeight
      invariant Collected(world, incoming, bad, headers) && at == headers[|headers| - 1].parents
      decreases headers[|headers| - 1].height
    {
      if at in bad {
        return Denied;
      }
      if at in store {
        var ts, more := store[at], headers + [store[at]];
        ParentLower(world, headers[|headers| - 1], ts);
        CollectOne(world, incoming, bad, headers, ts, more);
        headers := more;
        at := ts.parents;
        continue;
      }
      var window := 500;
      var gap := headers[|headers| - 1].height - untilHeight;
      if gap < window {
        window := gap;
      }
      var blks := fetch(at, window);
      if blks.None? {
        assert Complete(world) ==> at in world;
        return NotFetched;
      }
      var ok, done;
      headers, ok, done := TakeSegment(headers, blks.value, untilHeight, bad, world, incoming);
      if !ok {
        return Denied;
      }
      if done {
        return Headers(headers);
      }
      at := blks.value[|blks.value| - 1].parents;
    }
    return Headers(headers);
  }

  /** The headers to sync, from `incoming` down to where they meet what we know. With
      peers that serve everything it fails only where a fork cannot be joined. */
  method CollectHeaders(store: Store, incoming: TipSet, known: TipSet, genesis: TipSet, bad: set<Key>, threshold: int,
                        fetch: (Key, int) -> Option<seq<TipSet>>, ghost world: Store)
    returns (r: Collection)
    requires WellFormed(store) && WellFormed(world) && Within(store, world) && Has(world, incoming) && Fetches(world, fetch)
    ensures r.Headers? ==> incoming.parents !in bad && NoneDenied(r.tips, bad, known.height + 1)
    ensures r.Headers? ==> r.tips != [] && r.tips[0] == incoming && Linked(r.tips) && AllIn(world, r.tips)
    ensures r.Headers? ==> Meets(store, known, r.tips[|r.tips| - 1])
    ensures Served(world, fetch, bad) && r.Unjoined? && r.base.height > 0 ==> NotJoinable(store, known, fetch(r.base.parents, threshold), r.fork)
    ensures Served(world, fetch, bad) ==> r.Headers? || (r.Unjoined? && r.base.parents != known.key && r.base.parents != known.parents)
  {
    if incoming.parents in bad {
      return Denied;
    }
    r := CollectDown(store, incoming, known, bad, fetch, world);
    if !r.Headers? {
      return;
    }
    var headers := r.tips;
    var base := headers[|headers| - 1];
    if base.parents == known.key || base.parents == known.parents {
      return;
    }
    var tips := fetch(base.parents, threshold);
    if tips.None? {
      return Unjoined(base, Unavailable);
    }
    assert Segment(world, base.parents, tips.value);
    SegmentFalls(world, tips.value);
    var fork := JoinFork(store, known, genesis, tips.value);
    if !fork.Fork? {
      return Unjoined(base, fork);
    }
    Joined(world, headers, tips.value, fork.tips);
    ForkIsLow(world, headers, tips.value, fork.tips, bad, known.height + 1);
    r := Headers(headers + fork.tips);
  }

  /** The fetched part of the fork shares nothing with our chain above genesis, or our
      chain is not all there. */
  ghost predicate NotJoinable(store: Store, known: TipSet, tips: Option<seq<TipSet>>, fork: ForkResult)
    requires WellFormed(store)
  {
    && tips.Some? && !fork.Fork?
    && (fork.Unavailable? ==> !Complete(store) || known.parents !in store)
    && (!fork.Unavailable? ==> forall j :: 0 <= j < |tips.value| ==> !Shared(Below(store, known), tips.value[j]))
  }

  lemma ForkIsLow(world: Store, headers: seq<TipSet>, tips: seq<TipSet>, part: seq<TipSet>, bad: set<Key>, height: int)
    requires WellFormed(world) && headers != [] && NoneDenied(headers, bad, height) && ParentBelow(world, headers[|headers| - 1], height)
    requires Segment(world, headers[|headers| - 1].parents, tips) && part <= tips && Falling(tips)
    ensures NoneDenied(headers + part, bad, height)
  {
    assert forall k :: 0 <= k < |tips| ==> tips[k].height < height;
    assert forall k :: 0 <= k < |part| ==> part[k] == tips[k];
  }

  lemma Joined(world: Store, headers: seq<TipSet>, tips: seq<TipSet>, part: seq<TipSet>)
    requires headers != [] && Linked(headers) && AllIn(world, headers)
    requires Segment(world, headers[|headers| - 1].parents, tips) && 0 < |part| <= |tips| && part == tips[..|part|]
    ensures Linked(headers + part) && AllIn(world, headers + part) && (headers + part)[|headers + part| - 1] == tips[|part| - 1]
  {
  }
}
