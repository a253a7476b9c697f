/** Buckets of sync targets (chain/sync_manager.go, `syncTargetBucket` and
    `syncBucketSet`): tipsets that lie on one chain are kept together. Buckets have
    identity, so a bucket is named by its position. */
module SyncBuckets {
  import opened Wrappers
  import opened Chain

  datatype Bucket = Bucket(tips: seq<TipSet>, count: nat)

  type Buckets = seq<Bucket>

  /** Equal, or child and parent. */
  predicate Related(a: TipSet, b: TipSet) {
    a == b || a.key == b.parents || a.parents == b.key
  }

  /** Every tipset but the first is related to an earlier one. */
  ghost predicate Connected(tips: seq<TipSet>) {
    forall i :: 0 < i < |tips| ==> Anchored(tips, i)
  }

  ghost predicate Anchored(tips: seq<TipSet>, i: nat)
    requires i < |tips|
  {
    exists j :: 0 <= j < i && Related(tips[i], tips[j])
  }

  ghost predicate Distinct(tips: seq<TipSet>) {
    forall i, j :: 0 <= i < j < |tips| ==> tips[i] != tips[j]
  }

  /** Not empty, without duplicates, connected by parent and child links. */
  ghost predicate BucketOk(b: Bucket) {
    b.tips != [] && Distinct(b.tips) && Connected(b.tips) && b.count >= |b.tips|
  }

  ghost predicate AllOk(bs: Buckets) {
    forall i :: 0 <= i < |bs| ==> BucketOk(bs[i])
  }

  ghost predicate Contains(bs: Buckets, ts: TipSet) {
    exists i :: 0 <= i < |bs| && ts in bs[i].tips
  }

  // ----- one bucket ------------------------------------------------------

  ghost predicate OnChainOf(b: Bucket, ts: TipSet) {
    exists i :: 0 <= i < |b.tips| && Related(ts, b.tips[i])
  }

  method SameChainAs(b: Bucket, ts: TipSet) returns (yes: bool)
    ensures yes <==> OnChainOf(b, ts)
  {
    for i := 0 to |b.tips|
      invariant forall k :: 0 <= k < i ==> !Related(ts, b.tips[k])
    {
      var t := b.tips[i];
      if ts == t {
        return true;
      }
      if ts.key == t.parents {
        return true;
      }
      if ts.parents == t.key {
        return true;
      }
    }
    return false;
  }

  lemma AddedOk(tips: seq<TipSet>, ts: TipSet, more: seq<TipSet>)
    requires Distinct(tips) && Connected(tips) && ts !in tips && more == tips + [ts]
    requires tips != [] ==> exists i :: 0 <= i < |tips| && Related(ts, tips[i])
    ensures Distinct(more) && Connected(more)
  {
    forall i | 0 < i < |more|
      ensures Anchored(more, i)
    {
      if i < |tips| {
        assert Anchored(tips, i);
        var j :| 0 <= j < i && Related(tips[i], tips[j]);
        assert Related(more[i], more[j]);
      } else {
        var j :| 0 <= j < |tips| && Related(ts, tips[j]);
        assert Related(more[i], more[j]);
      }
    }
  }

  /** Adding a tipset of the same chain keeps the bucket in order. */
  method Add(b: Bucket, ts: TipSet) returns (b': Bucket)
    requires (b.tips == [] && b.count == 0) || (BucketOk(b) && OnChainOf(b, ts))
    ensures BucketOk(b') && forall x :: x in b'.tips <==> x in b.tips || x == ts
  {
    b' := b.(count := b.count + 1);
    for i := 0 to |b.tips|
      invariant forall k :: 0 <= k < i ==> b.tips[k] != ts
    {
      if b.tips[i] == ts {
        return;
      }
    }
    AddedOk(b.tips, ts, b.tips + [ts]);
    b' := b'.(tips := b.tips + [ts]);
  }

  ghost predicate IsHeaviest(b: Bucket, ts: TipSet) {
    ts in b.tips && forall x :: x in b.tips ==> x.parentWeight <= ts.parentWeight
  }

  method HeaviestTipSet(b: Bucket) returns (best: TipSet)
    requires b.tips != []
    ensures IsHeaviest(b, best)
  {
    best := b.tips[0];
    for i := 1 to |b.tips|
      invariant best in b.tips && forall k :: 0 <= k < i ==> b.tips[k].parentWeight <= best.parentWeight
    {
      if b.tips[i].parentWeight > best.parentWeight {
        best := b.tips[i];
      }
    }
  }

  // ----- sets of buckets -------------------------------------------------

  ghost predicate AnyRelated(bs: Buckets, ts: TipSet) {
    exists i :: 0 <= i < |bs| && OnChainOf(bs[i], ts)
  }

  method RelatedToAny(bs: Buckets, ts: TipSet) returns (yes: bool)
    ensures yes <==> AnyRelated(bs, ts)
  {
    for i := 0 to |bs|
      invariant forall k :: 0 <= k < i ==> !OnChainOf(bs[k], ts)
    {
      var same := SameChainAs(bs[i], ts);
      if same {
        return true;
      }
    }
    return false;
  }

  lemma ReplaceBucket(bs: Buckets, i: nat, b: Bucket, ts: TipSet)
    requires AllOk(bs) && i < |bs| && BucketOk(b) && forall x :: x in b.tips <==> x in bs[i].tips || x == ts
    ensures AllOk(bs[i := b]) && forall x :: Contains(bs[i := b], x) <==> Contains(bs, x) || x == ts
  {
    var bs' := bs[i := b];
    forall x
      ensures Contains(bs', x) <==> Contains(bs, x) || x == ts
    {
      if Contains(bs, x) {
        var j :| 0 <= j < |bs| && x in bs[j].tips;
        assert x in bs'[j].tips;
      }
      assert ts in bs'[i].tips;
    }
  }

  lemma AppendBucket(bs: Buckets, b: Bucket)
    requires AllOk(bs) && BucketOk(b)
    ensures AllOk(bs + [b]) && forall x :: Contains(bs + [b], x) <==> Contains(bs, x) || x in b.tips
  {
    var more := bs + [b];
    forall x
      ensures Contains(more, x) <==> Contains(bs, x) || x in b.tips
    {
      if Contains(bs, x) {
        var j :| 0 <= j < |bs| && x in bs[j].tips;
        assert x in more[j].tips;
      }
      assert more[|bs|] == b;
    }
  }

  /** Puts a tipset into the first bucket of its chain, or into a new one. */
  method Insert(bs: Buckets, ts: TipSet) returns (bs': Buckets)
    requires AllOk(bs)
    ensures AllOk(bs') && bs' != [] && forall x :: Contains(bs', x) <==> Contains(bs, x) || x == ts
    ensures |bs'| == |bs| + if AnyRelated(bs, ts) then 0 else 1
  {
    for i := 0 to |bs|
      invariant forall k :: 0 <= k < i ==> !OnChainOf(bs[k], ts)
    {
      var same := SameChainAs(bs[i], ts);
      if same {
        var b := Add(bs[i], ts);
        ReplaceBucket(bs, i, b, ts);
        return bs[i := b];
      }
    }
    var b := Add(Bucket([], 0), ts);
    AppendBucket(bs, b);
    return bs + [b];
  }

  lemma WithoutBucket(bs: Buckets, i: nat, rest: Buckets, j: nat)
    requires i < |bs| && rest == bs[..i] + bs[i + 1..] && j < |rest|
    ensures rest[j] == bs[if j < i then j else j + 1]
  {
  }

  lemma ContainsWithout(bs: Buckets, i: nat, rest: Buckets, x: TipSet)
    requires i < |bs| && rest == bs[..i] + bs[i + 1..]
    ensures Contains(bs, x) <==> Contains(rest, x) || x in bs[i].tips
  {
    if Contains(bs, x) && x !in bs[i].tips {
      var j :| 0 <= j < |bs| && x in bs[j].tips;
      WithoutBucket(bs, i, rest, if j < i then j else j - 1);
    }
    if Contains(rest, x) {
      var j :| 0 <= j < |rest| && x in rest[j].tips;
      WithoutBucket(bs, i, rest, j);
    }
  }

  lemma RemoveBucket(bs: Buckets, i: nat, rest: Buckets)
    requires AllOk(bs) && i < |bs| && rest == bs[..i] + bs[i + 1..]
    ensures AllOk(rest) && BucketOk(bs[i])
    ensures forall x :: Contains(bs, x) <==> Contains(rest, x) || x in bs[i].tips
  {
    forall j | 0 <= j < |rest|
      ensures BucketOk(rest[j])
    {
      WithoutBucket(bs, i, rest, j);
    }
    forall x
      ensures Contains(bs, x) <==> Contains(rest, x) || x in bs[i].tips
    {
      ContainsWithout(bs, i, rest, x);
    }
  }

  /** Takes out a bucket that holds a heaviest tipset of all. */
  method Pop(bs: Buckets) returns (b: Bucket, rest: Buckets)
    requires AllOk(bs) && bs != []
    ensures AllOk(rest) && BucketOk(b) && |rest| == |bs| - 1
    ensures forall x :: Contains(bs, x) <==> Contains(rest, x) || x in b.tips
    ensures exists ts :: IsHeaviest(b, ts) && forall x :: Contains(bs, x) ==> x.parentWeight <= ts.parentWeight
  {
    var best := 0;
    var bestTs := HeaviestTipSet(bs[0]);
    for i := 1 to |bs|
      invariant 0 <= best < |bs| && IsHeaviest(bs[best], bestTs)
      invariant forall k, x :: 0 <= k < i && x in bs[k].tips ==> x.parentWeight <= bestTs.parentWeight
    {
      var hts := HeaviestTipSet(bs[i]);
      if bestTs.parentWeight < hts.parentWeight {
        best, bestTs := i, hts;
      }
    }
    b, rest := bs[best], bs[..best] + bs[best + 1..];
    RemoveBucket(bs, best, rest);
    assert forall x :: Contains(bs, x) ==> x.parentWeight <= bestTs.parentWeight;
  }

  /** Takes out the first bucket on the tipset's chain. */
  method PopRelated(bs: Buckets, ts: TipSet) returns (b: Option<Bucket>, rest: Buckets)
    requires AllOk(bs)
    ensures AllOk(rest) && (b.Some? ==> BucketOk(b.value) && OnChainOf(b.value, ts))
    ensures b.Some? <==> AnyRelated(bs, ts)
    ensures if b.None? then rest == bs else |rest| == |bs| - 1
    ensures forall x :: Contains(bs, x) <==> Contains(rest, x) || (b.Some? && x in b.value.tips)
  {
    for i := 0 to |bs|
      invariant forall k :: 0 <= k < i ==> !OnChainOf(bs[k], ts)
    {
      var same := SameChainAs(bs[i], ts);
      if same {
        b, rest := Some(bs[i]), bs[..i] + bs[i + 1..];
        RemoveBucket(bs, i, rest);
        return;
      }
    }
    return None, bs;
  }

  method Heaviest(bs: Buckets) returns (best: Option<TipSet>)
    requires AllOk(bs)
    ensures best.None? <==> bs == []
    ensures best.Some? ==> Contains(bs, best.value) && forall x :: Contains(bs, x) ==> x.parentWeight <= best.value.parentWeight
  {
    best := None;
    for i := 0 to |bs|
      invariant best.None? <==> i == 0
      invariant best.Some? ==> Contains(bs, best.value)
      invariant forall k, x :: 0 <= k < i && x in bs[k].tips ==> best.Some? && x.parentWeight <= best.value.parentWeight
    {
      var bhts := HeaviestTipSet(bs[i]);
      if best.None? || bhts.parentWeight > best.value.parentWeight {
        best := Some(bhts);
      }
    }
  }
}
