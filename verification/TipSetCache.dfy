/** The ring buffer of recent tipsets (chain/events/tscache.go).

    The abstract value is an unbounded stack with one entry per epoch, `None`
    for a null round. The buffer holds the top `len` entries of that stack. */
module TipSetCache {
  import opened Wrappers
  import opened Chain

  type Slot = Option<TipSet>

  /** Go's remainder takes the sign of the dividend. */
  function GoRem(n: int, m: int): int
    requires m > 0
  {
    if n >= 0 then n % m else -((-n) % m)
  }

  function NormalModulo(n: int, m: int): (r: int)
    requires m > 0
    ensures 0 <= r < m
  {
    GoRem(GoRem(n, m) + m, m)
  }

  lemma RemainderIs(x: int, q: int, r: int, m: int)
    requires m > 0 && x == q * m + r && 0 <= r < m
    ensures x % m == r
  {
    var d := x / m - q;
    assert x == (x / m) * m + x % m;
    assert d * m == r - x % m;
    assert d > 0 ==> d * m >= m;
    assert d < 0 ==> d * m <= -m;
  }

  /** On the offsets the ring uses, the double remainder wraps around once. */
  lemma NormalModuloWraps(n: int, m: int)
    requires m > 0 && -m <= n <= m
    ensures NormalModulo(n, m) == if n < 0 then n + m else if n == m then 0 else n
  {
    if n == m || n == -m {
      RemainderIs(m, 1, 0, m);
    } else if n < 0 {
      RemainderIs(-n, 0, -n, m);
      RemainderIs(n + m, 0, n + m, m);
    } else {
      RemainderIs(n, 0, n, m);
      RemainderIs(n + m, 1, n, m);
    }
  }

  // ----- the unbounded stack ---------------------------------------------

  /** Positions count epochs: two tipsets are as far apart as their heights. */
  ghost predicate ByHeight(stack: seq<Slot>) {
    forall i, j :: 0 <= i < j < |stack| && stack[i].Some? && stack[j].Some? ==>
      stack[j].value.height - stack[i].value.height == j - i
  }

  ghost predicate Settled(stack: seq<Slot>) {
    stack != [] ==> stack[0].Some? && stack[|stack| - 1].Some?
  }

  /** The entry `k` epochs below the top. */
  ghost function Below(stack: seq<Slot>, k: int): Slot
    requires 0 <= k < |stack|
  {
    stack[|stack| - 1 - k]
  }

  ghost function Nulls(n: nat): seq<Slot> {
    seq(n, _ => None)
  }

  ghost function Top(stack: seq<Slot>): TipSet
    requires stack != [] && Settled(stack)
  {
    stack[|stack| - 1].value
  }

  /** Adding a tipset first records the null rounds since the top. */
  ghost function Push(stack: seq<Slot>, ts: TipSet): seq<Slot>
    requires Settled(stack)
    requires stack != [] ==> Top(stack).height < ts.height
  {
    if stack == [] then [Some(ts)]
    else stack + Nulls(ts.height - Top(stack).height - 1) + [Some(ts)]
  }

  ghost function StripNulls(stack: seq<Slot>): (r: seq<Slot>)
    ensures r <= stack
    ensures r != [] ==> r[|r| - 1].Some?
  {
    if stack == [] || stack[|stack| - 1].Some? then stack else StripNulls(stack[..|stack| - 1])
  }

  ghost function Pop(stack: seq<Slot>): seq<Slot>
    requires stack != []
  {
    StripNulls(stack[..|stack| - 1])
  }

  lemma PushKeepsShape(stack: seq<Slot>, ts: TipSet)
    requires Settled(stack) && ByHeight(stack)
    requires stack != [] ==> Top(stack).height < ts.height
    ensures Settled(Push(stack, ts)) && ByHeight(Push(stack, ts)) && Top(Push(stack, ts)) == ts
  {
    if stack != [] {
      var next := Push(stack, ts);
      assert next[|stack| - 1] == stack[|stack| - 1];
    }
  }

  lemma {:induction false} StripKeepsShape(stack: seq<Slot>)
    requires ByHeight(stack) && (stack != [] ==> stack[0].Some?)
    ensures Settled(StripNulls(stack)) && ByHeight(StripNulls(stack))
    decreases |stack|
  {
    if stack != [] && stack[|stack| - 1].None? {
      StripKeepsShape(stack[..|stack| - 1]);
    }
  }

  lemma {:induction false} StripNullsOf(stack: seq<Slot>, n: nat)
    requires stack == [] || stack[|stack| - 1].Some?
    ensures StripNulls(stack + Nulls(n)) == stack
    decreases n
  {
    if n == 0 {
      assert stack + Nulls(0) == stack;
    } else {
      assert (stack + Nulls(n))[..|stack| + n - 1] == stack + Nulls(n - 1);
      StripNullsOf(stack, n - 1);
    }
  }

  /** Reverting the tipset just added restores the stack, null rounds included. */
  lemma PopPush(stack: seq<Slot>, ts: TipSet)
    requires Settled(stack)
    requires stack != [] ==> Top(stack).height < ts.height
    ensures Pop(Push(stack, ts)) == stack
  {
    if stack != [] {
      var n := ts.height - Top(stack).height - 1;
      assert Push(stack, ts)[..|stack| + n] == stack + Nulls(n);
      StripNullsOf(stack, n);
    }
  }

  function Min(a: int, b: int): int {
    if a <= b then a else b
  }

  // ----- the ring --------------------------------------------------------

  ghost function At(start: int, i: int, cap: int): int {
    if i <= start then start - i else start - i + cap
  }

  ghost predicate TailAt(stack: seq<Slot>, len: int, back: int, anchor: Key)
    requires len <= |stack|
  {
    && 0 <= back < len && Below(stack, back).Some? && Below(stack, back).value.key == anchor
    && (forall i :: back < i < len ==> Below(stack, i).None?)
  }

  /** The height lies below the oldest buffered tipset, whose key is the anchor. */
  ghost predicate BelowTail(stack: seq<Slot>, len: int, height: int, anchor: Key)
    requires len <= |stack| && stack != [] && Settled(stack)
  {
    exists back :: TailAt(stack, len, back, anchor) && height < Top(stack).height - back
  }

  lemma OnlyTail(stack: seq<Slot>, len: int, back: int, anchor: Key, height: int)
    requires len <= |stack| && stack != [] && Settled(stack)
    requires TailAt(stack, len, back, anchor) && height >= Top(stack).height - back
    ensures forall key :: !BelowTail(stack, len, height, key)
  {
    forall key, b | TailAt(stack, len, b, key)
      ensures b == back
    {
      assert Below(stack, b).Some? && Below(stack, back).Some?;
    }
  }

  ghost predicate FirstAtOrAbove(stack: seq<Slot>, from: int, k: int, slot: Slot) {
    && 0 <= k <= from < |stack| && Below(stack, k) == slot
    && (forall i :: k < i <= from ==> Below(stack, i).None?)
  }

  ghost predicate LowestFrom(stack: seq<Slot>, from: int, slot: Slot) {
    exists k :: FirstAtOrAbove(stack, from, k, slot)
  }

  lemma ApartByHeight(stack: seq<Slot>, k: int)
    requires stack != [] && Settled(stack) && ByHeight(stack) && 0 <= k < |stack|
    ensures Below(stack, k).Some? ==> Top(stack).height - Below(stack, k).value.height == k
  {
  }

  datatype Got = TooHigh | Cached(slot: Slot) | AskStorage(height: int, anchor: Key)

  /** What a lookup ends with: an error, no tipset, or a tipset. */
  datatype Fetched = Failed | Nil | Found(ts: TipSet)

  type Storage = (int, Key) -> Fetched

  function Resolve(got: Got, storage: Storage): Fetched {
    match got
    case TooHigh => Failed
    case Cached(slot) => if slot.Some? then Found(slot.value) else Nil
    case AskStorage(height, anchor) => storage(height, anchor)
  }

  /** How far below the top the oldest tipset of the top `len` entries lies. */
  ghost function OldestBack(stack: seq<Slot>, len: nat): (back: int)
    requires 0 < len <= |stack| && stack[|stack| - 1].Some?
    ensures 0 <= back < len && Below(stack, back).Some? && forall i :: back < i < len ==> Below(stack, i).None?
  {
    if Below(stack, len - 1).Some? then len - 1 else OldestBack(stack, len - 1)
  }

  /** What the cache answers for a height. */
  ghost function Looked(stack: seq<Slot>, len: nat, height: int): Got
    requires Settled(stack) && len <= |stack|
  {
    if len == 0 then AskStorage(height, EMPTY_KEY)
    else if height > Top(stack).height then TooHigh
    else
      var back := OldestBack(stack, len);
      if height < Top(stack).height - back then AskStorage(height, Below(stack, back).value.key)
      else Cached(Below(stack, Top(stack).height - height))
  }

  lemma TopIsFound(stack: seq<Slot>, len: nat, storage: Storage)
    requires Settled(stack) && ByHeight(stack) && len <= |stack|
    ensures len > 0 ==> Resolve(Looked(stack, len, Top(stack).height), storage) == Found(Top(stack))
    ensures forall h :: len > 0 && h > Top(stack).height ==> Resolve(Looked(stack, len, h), storage) == Failed
  {
  }

  /** Between a buffered height and the first tipset from there lie only null rounds. */
  lemma FoundLowest(stack: seq<Slot>, len: nat, height: int, at: int, storage: Storage)
    requires Settled(stack) && ByHeight(stack) && 0 < len <= |stack| && Looked(stack, len, height).Cached? && height <= at <= Top(stack).height
    requires forall h :: height <= h < at ==> Resolve(Looked(stack, len, h), storage) == Nil
    requires Resolve(Looked(stack, len, at), storage) != Nil
    ensures Resolve(Looked(stack, len, at), storage).Found?
    ensures LowestFrom(stack, Top(stack).height - height, Some(Resolve(Looked(stack, len, at), storage).ts))
  {
    var top := Top(stack).height;
    forall i | top - at < i <= top - height
      ensures Below(stack, i).None?
    {
      assert Resolve(Looked(stack, len, top - i), storage) == Nil;
    }
    assert FirstAtOrAbove(stack, top - height, top - at, Below(stack, top - at));
  }

  class Cache {
    const cache: array<Slot>
    var start: int
    var len: int
    ghost var stack: seq<Slot>

    /** The buffer's live slots are the top entries of the stack. */
    ghost predicate Ring()
      reads this, cache
    {
      && cache.Length > 0
      && 0 <= start < cache.Length
      && 0 <= len <= cache.Length
      && len <= |stack|
      && (forall i :: 0 <= i < len ==> cache[At(start, i, cache.Length)] == Below(stack, i))
    }

    ghost predicate Valid()
      reads this, cache
    {
      Ring() && Settled(stack) && ByHeight(stack)
    }

    constructor (cap: nat)
      requires cap > 0
      ensures Valid() && fresh(cache) && cache.Length == cap && len == 0 && stack == []
    {
      cache := new Slot[cap](_ => None);
      start := 0;
      len := 0;
      stack := [];
    }

    /** Advance the head by one epoch, overwriting the oldest slot when full. */
    method Advance(slot: Slot)
      requires Ring()
      modifies this, cache
      ensures Ring() && stack == old(stack) + [slot]
      ensures len == if old(len) < cache.Length then old(len) + 1 else old(len)
    {
      ghost var before, wasStart, wasLen := cache[..], start, len;
      NormalModuloWraps(start + 1, cache.Length);
      start := NormalModulo(start + 1, cache.Length);
      cache[start] := slot;
      stack := stack + [slot];
      if len < cache.Length {
        len := len + 1;
      }
      forall i | 0 <= i < len
        ensures cache[At(start, i, cache.Length)] == Below(stack, i)
      {
        if i > 0 {
          assert At(start, i, cache.Length) == At(wasStart, i - 1, cache.Length) != start;
          assert before[At(wasStart, i - 1, cache.Length)] == Below(old(stack), i - 1);
        }
      }
    }

    /** Refuses a tipset that is not above the head; otherwise the stack grows by
        the null rounds and the tipset, and the buffer keeps as much as fits. An
        emptied buffer has forgotten its head and starts over below it. */
    method Add(ts: TipSet) returns (ok: bool)
      requires Valid()
      modifies this, cache
      ensures Valid()
      ensures ok <==> old(len) == 0 || Top(old(stack)).height < ts.height
      ensures !ok ==> stack == old(stack) && len == old(len) && start == old(start)
      ensures ok ==> stack == (if old(stack) != [] && Top(old(stack)).height >= ts.height then [Some(ts)] else Push(old(stack), ts))
      ensures ok ==> len == Min(cache.Length, if old(len) == 0 then 1 else old(len) + |stack| - |old(stack)|)
    {
      if len > 0 {
        assert cache[At(start, 0, cache.Length)] == stack[|stack| - 1];
        if cache[start].value.height >= ts.height {
          return false;
        }
      }
      ghost var was, wasLen := stack, len;
      if len == 0 {
        // nothing is buffered: the null rounds below this tipset are recorded in the stack only
        stack := if was == [] || Top(was).height >= ts.height then [] else was + Nulls(ts.height - Top(was).height - 1);
      }
      var nextH := ts.height;
      if len > 0 {
        nextH := cache[start].value.height + 1;
      }
      while nextH != ts.height
        invariant Ring() && nextH <= ts.height
        invariant wasLen > 0 ==> nextH > Top(was).height && stack == was + Nulls(nextH - Top(was).height - 1)
        invariant wasLen > 0 ==> len == Min(cache.Length, wasLen + |stack| - |was|)
        invariant wasLen == 0 ==> nextH == ts.height && len == 0
        invariant wasLen == 0 ==> stack == if was == [] || Top(was).height >= ts.height then [] else was + Nulls(ts.height - Top(was).height - 1)
        decreases ts.height - nextH
      {
        Advance(None);
        nextH := nextH + 1;
      }
      Advance(Some(ts));
      if was == [] || Top(was).height < ts.height {
        PushKeepsShape(was, ts);
      }
      return true;
    }

    /** Takes the head off, then, by reverting the absent tipset, the null rounds
        under it. An empty buffer has nothing to check and nothing to do. */
    method Revert(ts: Slot) returns (ok: bool)
      requires Ring()
      modifies this, cache
      ensures Ring()
      ensures ok <==> old(len) == 0 || old(stack)[|old(stack)| - 1] == ts
      ensures stack == if old(stack) != [] && old(stack)[|old(stack)| - 1] == ts then Pop(old(stack)) else old(stack)
      ensures |stack| <= |old(stack)|
      ensures len == (if old(len) >= |old(stack)| - |stack| then old(len) - (|old(stack)| - |stack|) else 0)
      decreases len
    {
      if len == 0 {
        if stack != [] && stack[|stack| - 1] == ts {
          stack := Pop(stack);
        }
        return true;
      }
      assert cache[At(start, 0, cache.Length)] == stack[|stack| - 1];
      if cache[start] != ts {
        return false;
      }
      ghost var before := cache[..];
      ghost var wasStart := start;
      cache[start] := None;
      NormalModuloWraps(start - 1, cache.Length);
      start := NormalModulo(start - 1, cache.Length);
      len := len - 1;
      stack := stack[..|stack| - 1];
      forall i | 0 <= i < len
        ensures cache[At(start, i, cache.Length)] == Below(stack, i)
      {
        assert At(start, i, cache.Length) == At(wasStart, i + 1, cache.Length) != wasStart;
        assert before[At(wasStart, i + 1, cache.Length)] == Below(old(stack), i + 1);
      }
      var _ := Revert(None);
      return true;
    }

    /** Reverting a tipset of the chain: the stack loses exactly that tipset and
        the null rounds it was added with. */
    method RevertTipSet(ts: TipSet) returns (ok: bool)
      requires Valid()
      modifies this, cache
      ensures Valid()
      ensures ok <==> old(len) == 0 || Top(old(stack)) == ts
      ensures stack == if old(stack) != [] && Top(old(stack)) == ts then Pop(old(stack)) else old(stack)
      ensures len == (if old(len) >= |old(stack)| - |stack| then old(len) - (|old(stack)| - |stack|) else 0)
    {
      if stack != [] {
        StripKeepsShape(stack[..|stack| - 1]);
      }
      ok := Revert(Some(ts));
    }

    /** The oldest buffered tipset. */
    method Tail() returns (back: int, tail: TipSet)
      requires Valid() && len > 0
      ensures 0 <= back < len && Below(stack, back) == Some(tail)
      ensures forall i :: back < i < len ==> Below(stack, i).None?
    {
      assert Below(stack, 0).Some?;
      var i := 1;
      while i <= len
        invariant 1 <= i <= len + 1
        invariant forall k :: len - i < k < len ==> Below(stack, k).None?
      {
        NormalModuloWraps(start - len + i, cache.Length);
        assert NormalModulo(start - len + i, cache.Length) == At(start, len - i, cache.Length);
        var slot := cache[NormalModulo(start - len + i, cache.Length)];
        assert slot == Below(stack, len - i);
        if slot.Some? {
          return len - i, slot.value;
        }
        i := i + 1;
      }
      assert false;
    }

    /** Inside the buffered heights the answer is the stack's entry for that epoch.
        Storage is asked about anything below the oldest buffered tipset. */
    method Get(height: int) returns (r: Got)
      requires Valid()
      ensures r == Looked(stack, len, height)
      ensures r.Cached? && r.slot.Some? ==> r.slot.value.height == height
      ensures len > 0 && r.AskStorage? ==> BelowTail(stack, len, height, r.anchor)
      ensures len > 0 && r.Cached? ==> forall key :: !BelowTail(stack, len, height, key)
    {
      if len == 0 {
        return AskStorage(height, EMPTY_KEY);
      }
      assert cache[At(start, 0, cache.Length)] == Below(stack, 0);
      var headH := cache[start].value.height;
      if height > headH {
        return TooHigh;
      }
      var back, tail := Tail();
      ApartByHeight(stack, back);
      if height < tail.height {
        assert TailAt(stack, len, back, tail.key);
        return AskStorage(height, tail.key);
      }
      OnlyTail(stack, len, back, tail.key, height);
      var k := headH - height;
      ApartByHeight(stack, k);
      NormalModuloWraps(start - k, cache.Length);
      assert NormalModulo(start - k, cache.Length) == At(start, k, cache.Length);
      r := Cached(cache[NormalModulo(start - k, cache.Length)]);
    }

    /** The first answer at or above the height that is not empty: past null rounds, and past
        heights for which storage has nothing. When nothing is buffered and storage has nothing
        at any height the search does not end; `limit` is a height where it does. */
    method GetNonNull(height: int, storage: Storage, ghost limit: int) returns (r: Fetched, ghost at: int)
      requires Valid() && (len == 0 ==> height <= limit && storage(limit, EMPTY_KEY) != Nil)
      ensures at >= height && r == Resolve(Looked(stack, len, at), storage) && r != Nil
      ensures forall h :: height <= h < at ==> Resolve(Looked(stack, len, h), storage) == Nil
      ensures len > 0 && Looked(stack, len, height).Cached? ==> r.Found? && LowestFrom(stack, Top(stack).height - height, Some(r.ts))
    {
      at := height;
      var h := height;
      while true
        invariant h == at >= height && (len == 0 ==> at <= limit) && (len > 0 && height <= Top(stack).height ==> at <= Top(stack).height)
        invariant forall g :: height <= g < at ==> Resolve(Looked(stack, len, g), storage) == Nil
        decreases if len == 0 then limit - at else Top(stack).height - at
      {
        var got := Get(h);
        r := Resolve(got, storage);
        if r != Nil {
          if len > 0 && Looked(stack, len, height).Cached? {
            FoundLowest(stack, len, height, at, storage);
          }
          return;
        }
        assert len > 0 ==> at < Top(stack).height by {
          TopIsFound(stack, len, storage);
        }
        h := h + 1;
        at := h;
      }
    }

    method Best() returns (ts: TipSet)
      requires Valid() && len > 0
      ensures ts == Top(stack)
    {
      assert cache[At(start, 0, cache.Length)] == stack[|stack| - 1];
      ts := cache[start].value;
    }
  }
}
