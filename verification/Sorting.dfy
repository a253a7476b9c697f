/** Sorting by an integer key; the order of equal keys is left open, as it is for Go's
    `sort.Slice`. */
module Sorting {
  ghost predicate Sorted<T>(s: seq<T>, key: T -> int) {
    forall i, j :: 0 <= i < j < |s| ==> key(s[i]) <= key(s[j])
  }

  method SortBy<T(==)>(list: seq<T>, key: T -> int) returns (sorted: seq<T>)
    ensures Sorted(sorted, key) && multiset(sorted) == multiset(list)
  {
    sorted := [];
    for k := 0 to |list|
      invariant Sorted(sorted, key) && multiset(sorted) == multiset(list[..k])
    {
      assert list[..k + 1] == list[..k] + [list[k]];
      sorted := Insert(sorted, list[k], key);
    }
    assert list[..|list|] == list;
  }

  method Insert<T(==)>(list: seq<T>, x: T, key: T -> int) returns (r: seq<T>)
    requires Sorted(list, key)
    ensures Sorted(r, key) && multiset(r) == multiset(list) + multiset{x}
  {
    var i := 0;
    while i < |list|
      invariant 0 <= i <= |list|
      invariant forall k :: 0 <= k < i ==> key(list[k]) <= key(x)
    {
      var earlier: bool := *;
      if key(list[i]) > key(x) || (key(list[i]) == key(x) && earlier) {
        break;
      }
      i := i + 1;
    }
    InsertAt(list, i, x, key);
    r := list[..i] + [x] + list[i..];
  }

  lemma InsertCounts<T>(front: seq<T>, back: seq<T>, x: T)
    ensures multiset(front + [x] + back) == multiset(front + back) + multiset{x}
  {
  }

  lemma InsertAt<T>(list: seq<T>, i: nat, x: T, key: T -> int)
    requires Sorted(list, key) && i <= |list|
    requires forall k :: 0 <= k < i ==> key(list[k]) <= key(x)
    requires i < |list| ==> key(x) <= key(list[i])
    ensures Sorted(list[..i] + [x] + list[i..], key)
    ensures multiset(list[..i] + [x] + list[i..]) == multiset(list) + multiset{x}
  {
    InsertCounts(list[..i], list[i..], x);
    assert list == list[..i] + list[i..];
    var r := list[..i] + [x] + list[i..];
    forall j, k | 0 <= j < k < |r|
      ensures key(r[j]) <= key(r[k])
    {
      assert r[j] == if j < i then list[j] else if j == i then x else list[j - 1];
      assert r[k] == if k < i then list[k] else if k == i then x else list[k - 1];
    }
  }

  lemma SameMembers<T(!new)>(x: seq<T>, y: seq<T>)
    requires multiset(x) == multiset(y)
    ensures |x| == |y| && forall m :: m in x <==> m in y
  {
    assert |multiset(x)| == |multiset(y)|;
    forall m: T
      ensures m in x <==> m in y
    {
      assert m in multiset(x) <==> m in multiset(y);
    }
  }
}
