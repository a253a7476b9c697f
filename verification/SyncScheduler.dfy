/** The sync scheduler (chain/sync_manager.go, `SyncManager`): each handler of the
    scheduler loop is one step; steps may come in any order. */
module SyncScheduler {
  import opened Wrappers
  import opened Chain
  import Sorting
  import opened SyncBuckets

  type Peer = nat

  const INIT: nat := 0
  const SELECTED: nat := 1
  const SCHEDULED: nat := 2
  const COMPLETE: nat := 3

  /** A tipset waits in the queue, behind an active sync, or as part of the next target. */
  ghost predicate Waits(queue: Buckets, active: Buckets, next: Option<Bucket>, ts: TipSet) {
    Contains(queue, ts) || Contains(active, ts) || (next.Some? && ts in next.value.tips)
  }

  // ----- choosing the first target ---------------------------------------

  method SyncedPeerCount(heads: map<Peer, TipSet>) returns (count: nat)
    ensures count > 0 <==> exists p :: p in heads && heads[p].height > 0
  {
    count := 0;
    var todo := heads.Keys;
    while todo != {}
      invariant todo <= heads.Keys
      invariant count > 0 <==> exists p :: p in heads && p !in todo && heads[p].height > 0
      decreases todo
    {
      var p := Pick(todo);
      todo := todo - {p};
      if heads[p].height > 0 {
        count := count + 1;
      }
    }
  }

  method PeerHeads(heads: map<Peer, TipSet>) returns (list: seq<TipSet>)
    ensures forall x :: x in list <==> exists p :: p in heads && heads[p] == x
  {
    list := [];
    var todo := heads.Keys;
    while todo != {}
      invariant todo <= heads.Keys
      invariant forall x :: x in list <==> exists p :: p in heads && p !in todo && heads[p] == x
      decreases todo
    {
      var p := Pick(todo);
      ghost var before := list;
      list := list + [heads[p]];
      todo := todo - {p};
      assert forall x :: x in list <==> x in before || x == heads[p];
    }
  }

  function HeightOf(ts: TipSet): int {
    ts.height
  }

  /** The heaviest head of all peers, however they fall into buckets. */
  method SelectSyncTarget(heads: map<Peer, TipSet>) returns (target: Option<TipSet>)
    ensures target.None? <==> heads == map[]
    ensures target.Some? ==> exists p :: p in heads && heads[p] == target.value
    ensures target.Some? ==> forall p :: p in heads ==> heads[p].parentWeight <= target.value.parentWeight
  {
    var list := PeerHeads(heads);
    var sorted := Sorting.SortBy(list, HeightOf);
    var buckets: Buckets := [];
    for i := 0 to |sorted|
      invariant AllOk(buckets) && (buckets == [] <==> i == 0)
      invariant forall x :: Contains(buckets, x) <==> exists k :: 0 <= k < i && sorted[k] == x
    {
      buckets := Insert(buckets, sorted[i]);
    }
    Sorting.SameMembers(list, sorted);
    target := Heaviest(buckets);
    AllHeads(heads, list, sorted, buckets, target);
  }

  lemma AllHeads(heads: map<Peer, TipSet>, list: seq<TipSet>, sorted: seq<TipSet>, buckets: Buckets, target: Option<TipSet>)
    requires forall x :: x in list <==> exists p :: p in heads && heads[p] == x
    requires |list| == |sorted| && forall x :: x in list <==> x in sorted
    requires forall x :: Contains(buckets, x) <==> exists k :: 0 <= k < |sorted| && sorted[k] == x
    requires (target.None? <==> buckets == []) && (buckets == [] <==> |sorted| == 0)
    requires target.Some? ==> Contains(buckets, target.value) && forall x :: Contains(buckets, x) ==> x.parentWeight <= target.value.parentWeight
    ensures target.None? <==> heads == map[]
    ensures target.Some? ==> exists p :: p in heads && heads[p] == target.value
    ensures target.Some? ==> forall p :: p in heads ==> heads[p].parentWeight <= target.value.parentWeight
  {
    forall p | p in heads
      ensures Contains(buckets, heads[p])
    {
      assert heads[p] in list;
      assert heads[p] in sorted;
    }
    if target.Some? {
      assert target.value in sorted;
      assert target.value in list;
    }
  }

  // ----- the scheduler ---------------------------------------------------

  ghost predicate HasActiveParent(activeSyncs: map<Key, TipSet>, ts: TipSet) {
    exists k :: k in activeSyncs && activeSyncs[k].key == ts.parents
  }

  /** A tipset unrelated to active syncs joins the next target when that is on its
      chain; otherwise it is queued, unless it becomes the next target itself. */
  ghost predicate Joined(state: nat, next: Option<Bucket>, queue: Buckets, ts: TipSet, next': Option<Bucket>, queue': Buckets) {
    if state != SCHEDULED && next.Some? && OnChainOf(next.value, ts) then queue' == queue && next'.Some? && ts in next'.value.tips
    else if state == SCHEDULED || next.Some? then next' == next && Contains(queue', ts)
    else queue' == [] && next'.Some? && ts in next'.value.tips
  }

  /** The bucket's heaviest tipset is as heavy as anything in the queue. */
  ghost predicate HoldsHeaviest(b: Bucket, queue: Buckets) {
    exists ts :: IsHeaviest(b, ts) && forall x :: Contains(queue, x) ==> x.parentWeight <= ts.parentWeight
  }

  /** The next target once a sync of `ts` is over: a target that was there stays; otherwise what
      waited behind a successful sync goes first, and else a heaviest bucket of the queue. */
  ghost predicate Succeeds(next: Option<Bucket>, queue: Buckets, ts: TipSet, moved: bool, next': Option<Bucket>, queue': Buckets) {
    if next.Some? then next' == next && (!moved ==> queue' == queue)
    else if moved then next'.Some? && OnChainOf(next'.value, ts) && queue' == queue
    else if queue == [] then next'.None? && queue' == []
    else next'.Some? && HoldsHeaviest(next'.value, queue)
  }

  /** Whether the tipset builds on an active sync. The loop stops where it meets the
      tipset itself, so the answer may depend on the order of the map. */
  method BuildsOnActive(activeSyncs: map<Key, TipSet>, ts: TipSet) returns (yes: bool)
    ensures yes ==> HasActiveParent(activeSyncs, ts)
    ensures !yes && HasActiveParent(activeSyncs, ts) ==> exists k :: k in activeSyncs && activeSyncs[k] == ts
  {
    yes := false;
    var todo := activeSyncs.Keys;
    while todo != {}
      invariant todo <= activeSyncs.Keys
      invariant yes ==> exists k :: k in activeSyncs && activeSyncs[k].key == ts.parents
      invariant !yes ==> forall k :: k in activeSyncs && k !in todo ==> activeSyncs[k].key != ts.parents
      decreases todo
    {
      var k := Pick(todo);
      if ts == activeSyncs[k] {
        break;
      }
      if ts.parents == activeSyncs[k].key {
        yes := true;
      }
      todo := todo - {k};
    }
  }

  class SyncManager {
    var peerHeads: map<Peer, TipSet>
    var bootstrapState: nat
    var activeSyncs: map<Key, TipSet>
    var syncQueue: Buckets
    var activeSyncTips: Buckets
    var nextSyncTarget: Option<Bucket>
    var armed: bool   // whether the worker channel is set

    /** Buckets are in order, the worker channel is armed exactly when there is a next
        target, and, unless the bootstrap sync is still running, nothing queues up
        while there is none. */
    ghost predicate Valid()
      reads this
    {
      && AllOk(syncQueue) && AllOk(activeSyncTips) && (nextSyncTarget.Some? ==> BucketOk(nextSyncTarget.value))
      && (armed <==> nextSyncTarget.Some?)
      && (bootstrapState != SCHEDULED && nextSyncTarget.None? ==> syncQueue == [])
      && bootstrapState <= COMPLETE
    }

    constructor ()
      ensures Valid() && bootstrapState == INIT && syncQueue == activeSyncTips == [] && nextSyncTarget.None?
    {
      peerHeads, bootstrapState, activeSyncs := map[], INIT, map[];
      syncQueue, activeSyncTips, nextSyncTarget, armed := [], [], None, false;
    }

    /** A peer's head. Until the bootstrap target is selected nothing is scheduled; then
        the heaviest head of all goes first. `send` is what goes to the scheduler. */
    method SetPeerHead(p: Peer, ts: TipSet) returns (send: Option<TipSet>)
      requires Valid()
      modifies this`peerHeads, this`bootstrapState
      ensures Valid() && peerHeads == old(peerHeads)[p := ts] && old(bootstrapState) <= bootstrapState
      ensures old(bootstrapState) != INIT ==> send == Some(ts) && bootstrapState == old(bootstrapState)
      ensures old(bootstrapState) == INIT && send.None? ==> bootstrapState == INIT && forall q :: q in peerHeads ==> peerHeads[q].height == 0
      ensures old(bootstrapState) == INIT && send.Some? ==> bootstrapState == SELECTED && exists q :: q in peerHeads && peerHeads[q] == send.value
      ensures old(bootstrapState) == INIT && send.Some? ==> forall q :: q in peerHeads ==> peerHeads[q].parentWeight <= send.value.parentWeight
    {
      peerHeads := peerHeads[p := ts];
      if bootstrapState == INIT {
        var spc := SyncedPeerCount(peerHeads);
        if spc >= 1 {
          send := SelectSyncTarget(peerHeads);
          bootstrapState := SELECTED;
          return;
        }
        return None;
      }
      return Some(ts);
    }

    /** A tipset comes in. The first one after selection goes straight to a worker; any
        other one waits somewhere, and nothing that waited is lost. */
    method ScheduleIncoming(ts: TipSet) returns (direct: bool)
      requires Valid()
      modifies this
      ensures Valid() && old(bootstrapState) <= bootstrapState && activeSyncs == old(activeSyncs) && peerHeads == old(peerHeads)
      ensures direct <==> old(bootstrapState) == SELECTED
      ensures bootstrapState == if direct then SCHEDULED else old(bootstrapState)
      ensures forall x :: Waits(syncQueue, activeSyncTips, nextSyncTarget, x) <==>
        Waits(old(syncQueue), old(activeSyncTips), old(nextSyncTarget), x) || (!direct && x == ts)
      ensures old(nextSyncTarget).Some? ==> nextSyncTarget.Some?
      ensures !direct && AnyRelated(old(activeSyncTips), ts) ==> syncQueue == old(syncQueue) && nextSyncTarget == old(nextSyncTarget) && Contains(activeSyncTips, ts)
      ensures !direct && !AnyRelated(old(activeSyncTips), ts) && !HasActiveParent(activeSyncs, ts) ==> activeSyncTips == old(activeSyncTips)
      ensures !direct && activeSyncTips == old(activeSyncTips) && !AnyRelated(activeSyncTips, ts) ==> Joined(bootstrapState, old(nextSyncTarget), old(syncQueue), ts, nextSyncTarget, syncQueue)
    {
      if bootstrapState == SELECTED {
        bootstrapState := SCHEDULED;
        return true;
      }
      direct := false;
      var related := BuildsOnActive(activeSyncs, ts);
      if !related {
        related := RelatedToAny(activeSyncTips, ts);
      }
      if related {
        activeSyncTips := Insert(activeSyncTips, ts);
        return;
      }
      if bootstrapState == SCHEDULED {
        syncQueue := Insert(syncQueue, ts);
        return;
      }
      var same := false;
      if nextSyncTarget.Some? {
        same := SameChainAs(nextSyncTarget.value, ts);
      }
      if same {
        var b := Add(nextSyncTarget.value, ts);
        nextSyncTarget := Some(b);
      } else {
        syncQueue := Insert(syncQueue, ts);
        if nextSyncTarget.None? {
          PopNext();
        }
      }
    }

    /** Makes a bucket with a heaviest queued tipset the next target. */
    method PopNext()
      requires AllOk(syncQueue) && syncQueue != []
      modifies this`syncQueue, this`nextSyncTarget, this`armed
      ensures AllOk(syncQueue) && |syncQueue| == |old(syncQueue)| - 1 && armed
      ensures nextSyncTarget.Some? && BucketOk(nextSyncTarget.value)
      ensures forall x :: Contains(old(syncQueue), x) <==> Contains(syncQueue, x) || x in nextSyncTarget.value.tips
      ensures HoldsHeaviest(nextSyncTarget.value, old(syncQueue))
    {
      var b, rest := Pop(syncQueue);
      syncQueue, nextSyncTarget, armed := rest, Some(b), true;
    }

    /** A sync finished. On success what waited behind it moves on; on failure the
        bucket behind it is dropped, and nothing else. */
    method ScheduleProcessResult(ts: TipSet, success: bool) returns (ghost dropped: Option<Bucket>)
      requires Valid()
      modifies this
      ensures Valid() && old(bootstrapState) <= bootstrapState && (success ==> bootstrapState == COMPLETE) && peerHeads == old(peerHeads)
      ensures activeSyncs == old(activeSyncs) - {ts.key}
      ensures success ==> dropped.None?
      ensures |activeSyncTips| == |old(activeSyncTips)| - if AnyRelated(old(activeSyncTips), ts) then 1 else 0
      ensures !success && AnyRelated(old(activeSyncTips), ts) ==> dropped.Some?
      ensures dropped.Some? ==> OnChainOf(dropped.value, ts)
      ensures forall x :: Waits(old(syncQueue), old(activeSyncTips), old(nextSyncTarget), x) <==>
        Waits(syncQueue, activeSyncTips, nextSyncTarget, x) || (dropped.Some? && x in dropped.value.tips)
      ensures nextSyncTarget.None? ==> syncQueue == []
      ensures Succeeds(old(nextSyncTarget), old(syncQueue), ts, success && AnyRelated(old(activeSyncTips), ts), nextSyncTarget, syncQueue)
    {
      if success && bootstrapState != COMPLETE {
        bootstrapState := COMPLETE;
      }
      activeSyncs := activeSyncs - {ts.key};
      var relbucket, rest := PopRelated(activeSyncTips, ts);
      activeSyncTips := rest;
      dropped := if success then None else relbucket;
      if relbucket.Some? && success {
        if nextSyncTarget.None? {
          nextSyncTarget, armed := relbucket, true;
        } else {
          AppendBucket(syncQueue, relbucket.value);
          syncQueue := syncQueue + [relbucket.value];
        }
        return;
      }
      if nextSyncTarget.None? && |syncQueue| > 0 {
        PopNext();
      }
    }

    /** A worker took the next target; this step is enabled only while the channel is
        armed. Its heaviest tipset is now being synced. */
    method ScheduleWorkSent() returns (hts: TipSet)
      requires Valid() && armed
      modifies this
      ensures Valid() && bootstrapState == old(bootstrapState) && peerHeads == old(peerHeads) && activeSyncTips == old(activeSyncTips)
      ensures IsHeaviest(old(nextSyncTarget).value, hts) && activeSyncs == old(activeSyncs)[hts.key := hts]
      ensures nextSyncTarget.None? <==> old(syncQueue) == []
      ensures nextSyncTarget.Some? ==> HoldsHeaviest(nextSyncTarget.value, old(syncQueue))
      ensures forall x :: Contains(old(syncQueue), x) <==> Contains(syncQueue, x) || (nextSyncTarget.Some? && x in nextSyncTarget.value.tips)
    {
      hts := HeaviestTipSet(nextSyncTarget.value);
      activeSyncs := activeSyncs[hts.key := hts];
      if |syncQueue| > 0 {
        PopNext();
      } else {
        nextSyncTarget, armed := None, false;
      }
    }
  }
}
