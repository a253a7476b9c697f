/** Pruning the message pool (chain/messagepool/pruning.go): the block packer's filter
    and greedy choice decide what stays, everything else is removed. */
module Pruning {
  import opened Wrappers
  import opened Messages
  import opened PoolState
  import opened MessagePool
  import opened ReorgSlots
  import opened PoolReorg
  import opened Sorting
  import opened SenderRuns
  import opened MessageSelection

  // ----- listing the pool ------------------------------------------------

  ghost predicate HeldBy(pending: Slots, a: Address, x: SignedMessage) {
    a in pending && x.message.nonce in pending[a].msgs && pending[a].msgs[x.message.nonce] == x
  }

  ghost predicate IsPending(pending: Slots, x: SignedMessage) {
    HeldBy(pending, x.message.from, x)
  }

  /** One sender's messages by nonce. */
  method PendingFor(pending: Slots, a: Address) returns (list: Pending)
    requires PendingOk(pending) && a in pending
    ensures SortedByNonce(list) && forall x :: x in list <==> HeldBy(pending, a, x)
  {
    list := [];
    var msgs := pending[a].msgs;
    var todo := msgs.Keys;
    while todo != {}
      invariant todo <= msgs.Keys
      invariant forall x :: x in list <==> HeldBy(pending, a, x) && x.message.nonce !in todo
      decreases todo
    {
      var n := Pick(todo);
      assert SetOk(pending[a], a);
      ghost var before := list;
      list := list + [msgs[n]];
      todo := todo - {n};
      assert forall x :: x in list <==> x in before || x == msgs[n];
    }
    ghost var unsorted := list;
    list := SortByNonce(list);
    SameMembers(unsorted, list);
  }

  method AllPending(pending: Slots) returns (msgs: Pending)
    requires PendingOk(pending)
    ensures forall x :: x in msgs <==> IsPending(pending, x)
  {
    msgs := [];
    var todo := pending.Keys;
    while todo != {}
      invariant todo <= pending.Keys
      invariant forall x :: x in msgs <==> IsPending(pending, x) && x.message.from !in todo
      decreases todo
    {
      var a := Pick(todo);
      var list := PendingFor(pending, a);
      Own(pending, a);
      ghost var before := msgs;
      msgs := msgs + list;
      todo := todo - {a};
      assert forall x :: x in msgs <==> x in before || x in list;
    }
  }

  lemma Own(pending: Slots, a: Address)
    requires PendingOk(pending)
    ensures forall x :: HeldBy(pending, a, x) <==> IsPending(pending, x) && x.message.from == a
  {
  }

  // ----- choosing what stays ---------------------------------------------

  function PoolRoom(lo: nat): Room {
    Room(None, lo - 1)
  }

  /** Greedy choice without a gas limit: a prefix of every run, at most `lo` messages,
      and all runs whole when that is fewer. */
  method ChooseKept(lists: Senders, lo: nat, score: (int, int) -> real) returns (out: Pending)
    requires Scores(score) && SoundLists(lists) && FullLists(lists)
    ensures forall a :: Of(out, a) <= ListOf(lists, a)
    ensures |out| <= lo
    ensures |out| < lo ==> forall a :: Of(out, a) == ListOf(lists, a)
  {
    var senders := lists;
    var order := AllSenders(senders);
    out := [];
    StartRemaining(lists);
    while true
      invariant |out| <= lo && (|out| == lo ==> out == [])
      invariant Remaining(lists, senders, out) && forall a :: a in senders ==> a in order
      decreases lo - |out|
    {
      RemainingPriced(lists, senders, out);
      var best, nBest := BestPrefix(senders, order, |out|, PoolRoom(lo), score);
      if nBest == 0 {
        NothingLeft(lists, senders, out, lo);
        break;
      }
      var meta := senders[best];
      var chunk, rest := meta.msgs[..nBest], SenderMeta(meta.gasReward[nBest..], meta.gasLimit[nBest..], meta.msgs[nBest..]);
      TakeStep(lists, senders, out, best, nBest, rest, chunk, out + chunk);
      out := out + chunk;
      senders := if |rest.msgs| == 0 then senders - {best} else senders[best := rest];
      if |out| >= lo {
        break;
      }
    }
    RemainingPrefix(lists, senders, out);
  }

  lemma NothingLeft(lists: Senders, senders: Senders, out: Pending, lo: nat)
    requires Remaining(lists, senders, out) && NothingFits(senders, |out|, PoolRoom(lo))
    ensures |out| < lo ==> forall a :: Of(out, a) == ListOf(lists, a)
  {
    if |out| < lo {
      forall a
        ensures Of(out, a) == ListOf(lists, a)
      {
        assert a in senders ==> Fits(senders[a], 0, |out|, PoolRoom(lo));
        assert Of(out, a) + ListOf(senders, a) == ListOf(lists, a);
        assert Of(out, a) + [] == Of(out, a);
      }
    }
  }

  // ----- removing the rest -----------------------------------------------

  /** A message stays when a message with its CID was chosen. */
  predicate Good(out: Pending, m: SignedMessage) {
    exists i :: 0 <= i < |out| && SameCid(out[i], m)
  }

  ghost predicate SlotChosen(out: Pending, s: Slot) {
    exists i :: 0 <= i < |out| && SlotOf(out[i].message) == s
  }

  lemma GoodIsChosen(pending: Slots, out: Pending, m: SignedMessage)
    requires PendingOk(pending) && IsPending(pending, m)
    requires forall x :: x in out ==> IsPending(pending, x)
    ensures Good(out, m) <==> SlotChosen(out, SlotOf(m.message))
  {
    if SlotChosen(out, SlotOf(m.message)) {
      var i :| 0 <= i < |out| && SlotOf(out[i].message) == SlotOf(m.message);
      assert IsPending(pending, out[i]);
      assert SameCid(out[i], m);
    }
  }

  /** What a prune leaves: the chosen slots, untouched. */
  ghost predicate PrunedTo(pending: Slots, pending': Slots, out: Pending) {
    forall s :: if SlotChosen(out, s) then SameAt(pending, pending', s) else !Holds(pending', s)
  }

  /** The first `n` messages were sifted: the slots gone are those not chosen. */
  ghost predicate Sifted(pending: Slots, pending': Slots, msgs: Pending, out: Pending, gone: seq<Slot>, n: nat) {
    && Struck(pending, map[], pending', map[], gone)
    && (forall s :: s in gone ==> !SlotChosen(out, s))
    && (forall k :: 0 <= k < n && k < |msgs| ==> SlotChosen(out, SlotOf(msgs[k].message)) || SlotOf(msgs[k].message) in gone)
  }

  lemma SiftOut(pending: Slots, before: Slots, pending': Slots, msgs: Pending, out: Pending, gone: seq<Slot>, more: seq<Slot>, n: nat, next: nat)
    requires Sifted(pending, before, msgs, out, gone, n) && n < |msgs| && next == n + 1
    requires !SlotChosen(out, SlotOf(msgs[n].message)) && more == gone + [SlotOf(msgs[n].message)]
    requires Cleared(before, pending', SlotOf(msgs[n].message))
    ensures Sifted(pending, pending', msgs, out, more, next)
  {
    StrikeStep(pending, map[], before, map[], gone, pending', map[], more, SlotOf(msgs[n].message));
    assert more[|gone|] == SlotOf(msgs[n].message);
    assert forall s :: s in gone ==> s in more;
  }

  method RemoveRest(pending: Slots, size: int, msgs: Pending, out: Pending) returns (pending': Slots, size': int)
    requires PoolOk(pending, size)
    requires forall x :: x in msgs <==> IsPending(pending, x)
    requires forall x :: x in out ==> IsPending(pending, x)
    ensures PoolOk(pending', size') && PrunedTo(pending, pending', out)
  {
    pending', size' := pending, size;
    ghost var gone: seq<Slot> := [];
    var i := 0;
    while i < |msgs|
      invariant PoolOk(pending', size') && i <= |msgs| && Sifted(pending, pending', msgs, out, gone, i)
    {
      var m, next := msgs[i], i + 1;
      GoodIsChosen(pending, out, m);
      if !Good(out, m) {
        ghost var before, more := pending', gone + [SlotOf(m.message)];
        pending', size' := Remove(pending', size', m.message.from, m.message.nonce);
        SiftOut(pending, before, pending', msgs, out, gone, more, i, next);
        gone := more;
      }
      i := next;
    }
    Pruned(pending, pending', msgs, out, gone);
  }

  lemma Pruned(pending: Slots, pending': Slots, msgs: Pending, out: Pending, gone: seq<Slot>)
    requires PendingOk(pending) && Sifted(pending, pending', msgs, out, gone, |msgs|)
    requires forall x :: x in msgs <==> IsPending(pending, x)
    ensures PrunedTo(pending, pending', out)
  {
    forall s: Slot
      ensures if SlotChosen(out, s) then SameAt(pending, pending', s) else !Holds(pending', s)
    {
      assert StruckAt(pending, map[], pending', map[], gone, s);
      if Holds(pending, s) {
        var x := pending[s.from].msgs[s.nonce];
        assert SetOk(pending[s.from], s.from);
        assert IsPending(pending, x) && SlotOf(x.message) == s;
        assert x in msgs;
      }
    }
  }

  // ----- the prune -------------------------------------------------------

  lemma {:induction false} SlotsAtMost(msgs: Pending)
    ensures |SlotSet(msgs)| <= |msgs|
  {
    if msgs != [] {
      var front, last := msgs[..|msgs| - 1], SlotOf(msgs[|msgs| - 1].message);
      SlotsAtMost(front);
      assert SlotSet(msgs) == SlotSet(front) + {last};
    }
  }

  lemma {:induction false} Smaller<T>(small: set<T>, large: set<T>)
    requires small <= large
    ensures |small| <= |large|
  {
    if small != {} {
      var x :| x in small;
      Smaller(small - {x}, large - {x});
    }
  }

  lemma PrunedSize(pending: Slots, pending': Slots, out: Pending)
    requires PrunedTo(pending, pending', out)
    ensures |Filled(pending')| <= |out|
  {
    forall s | s in Filled(pending')
      ensures s in SlotSet(out)
    {
      FilledMeaning(pending', s);
    }
    Smaller(Filled(pending'), SlotSet(out));
    SlotsAtMost(out);
  }

  lemma SoundFromRuns(lists: Senders, actors: map<Address, Actor>)
    requires SendersOk(lists, actors)
    ensures SoundLists(lists) && FullLists(lists)
  {
  }

  lemma {:induction false} InOwnPart(out: Pending, i: nat)
    requires i < |out|
    ensures out[i] in Of(out, out[i].message.from)
    decreases |out|
  {
    if i < |out| - 1 {
      InOwnPart(out[..|out| - 1], i);
    }
  }

  lemma ChosenArePending(pending: Slots, sorted: Pending, lists: Senders, out: Pending)
    requires forall x :: x in sorted <==> IsPending(pending, x)
    requires AllFrom(lists, sorted) && forall a :: Of(out, a) <= ListOf(lists, a)
    ensures forall x :: x in out ==> IsPending(pending, x)
  {
    forall x | x in out
      ensures IsPending(pending, x)
    {
      var i :| 0 <= i < |out| && out[i] == x;
      InOwnPart(out, i);
      assert Of(out, x.message.from) <= ListOf(lists, x.message.from);
      assert x in ListOf(lists, x.message.from);
    }
  }

  /** Each sender's part is a run: nonces count up from the account's nonce, and its
      balance covers the part. */
  ghost predicate FundedRuns(out: Pending, actors: map<Address, Actor>) {
    forall a :: Of(out, a) != [] ==> Run(Of(out, a), a, actors)
  }

  lemma {:induction false} FundsPrefix(list: Pending, k: nat, a: Address)
    requires k <= |list| && AllOwn(list, a)
    ensures Funds(list[..k]) <= Funds(list)
    decreases |list|
  {
    if k == |list| {
      assert list[..k] == list;
    } else {
      var front, last := list[..|list| - 1], list[|list| - 1];
      assert list[..k] == front[..k];
      FundsPrefix(front, k, a);
      TimesIsProduct(last.message.gasPrice, AsUint64(last.message.gasLimit));
    }
  }

  lemma PrefixRun(part: Pending, list: Pending, a: Address, actors: map<Address, Actor>)
    requires Run(list, a, actors) && part <= list
    ensures Run(part, a, actors)
  {
    assert part == list[..|part|];
    FundsPrefix(list, |part|, a);
  }

  lemma ChosenAreRuns(lists: Senders, out: Pending, actors: map<Address, Actor>)
    requires SendersOk(lists, actors) && forall a :: Of(out, a) <= ListOf(lists, a)
    ensures FundedRuns(out, actors)
  {
    forall a | Of(out, a) != []
      ensures Run(Of(out, a), a, actors)
    {
      assert Of(out, a) <= ListOf(lists, a);
      PrefixRun(Of(out, a), lists[a].msgs, a, actors);
    }
  }

  /** No pending message continues its sender's part and is still affordable. */
  ghost predicate NothingMore(pending: Slots, out: Pending, actors: map<Address, Actor>) {
    forall x :: IsPending(pending, x) && Packable(x) && x.message.from in actors &&
                x.message.nonce == actors[x.message.from].nonce + |Of(out, x.message.from)| ==>
                Funds(Of(out, x.message.from)) + RequiredFunds(x.message) > actors[x.message.from].balance
  }

  lemma NothingMoreToKeep(pending: Slots, sorted: Pending, lists: Senders, out: Pending, actors: map<Address, Actor>)
    requires forall x :: x in sorted <==> IsPending(pending, x)
    requires Maximal(sorted, |sorted|, lists, actors) && forall a :: Of(out, a) == ListOf(lists, a)
    ensures NothingMore(pending, out, actors)
  {
    forall x | IsPending(pending, x) && Packable(x) && x.message.from in actors && x.message.nonce == actors[x.message.from].nonce + |Of(out, x.message.from)|
      ensures Funds(Of(out, x.message.from)) + RequiredFunds(x.message) > actors[x.message.from].balance
    {
      assert x in sorted;
      var i :| 0 <= i < |sorted| && sorted[i] == x;
      assert Continues(sorted[i], lists, actors);
    }
  }

  /** What is left is exactly what was chosen. */
  lemma KeptExactly(pending: Slots, pending': Slots, out: Pending)
    requires PendingOk(pending) && PendingOk(pending') && PrunedTo(pending, pending', out)
    requires forall x :: x in out ==> IsPending(pending, x)
    ensures forall x :: x in out <==> IsPending(pending', x)
  {
    forall x | x in out
      ensures IsPending(pending', x)
    {
      var i :| 0 <= i < |out| && out[i] == x;
      assert SlotChosen(out, SlotOf(x.message)) && SameAt(pending, pending', SlotOf(x.message));
    }
    forall x | IsPending(pending', x)
      ensures x in out
    {
      var s := SlotOf(x.message);
      assert Holds(pending', s);
      var i :| 0 <= i < |out| && SlotOf(out[i].message) == s;
      assert SameAt(pending, pending', s) && IsPending(pending, out[i]);
    }
  }

  /** Prunes the pool down to at most `lo` messages. */
  method PruneMessages(pending: Slots, size: int, lo: nat, actors: map<Address, Actor>, guess: SignedMessage -> nat, score: (int, int) -> real)
    returns (pending': Slots, size': int, ghost kept: Pending)
    requires PoolOk(pending, size) && Scores(score)
    ensures PoolOk(pending', size') && size' <= lo
    ensures PrunedTo(pending, pending', kept) && FundedRuns(kept, actors)
    ensures |kept| <= lo && (|kept| < lo ==> NothingMore(pending, kept, actors))
    ensures forall x :: x in kept <==> IsPending(pending', x)
  {
    var msgs := AllPending(pending);
    var sorted := SortByNonce(msgs);
    SameMembers(msgs, sorted);
    var lists := FilterPending(sorted, actors, guess);
    SoundFromRuns(lists, actors);
    var out := ChooseKept(lists, lo, score);
    ChosenArePending(pending, sorted, lists, out);
    ChosenAreRuns(lists, out, actors);
    if |out| < lo {
      NothingMoreToKeep(pending, sorted, lists, out, actors);
    }
    pending', size' := RemoveRest(pending, size, sorted, out);
    PrunedSize(pending, pending', out);
    KeptExactly(pending, pending', out);
    kept := out;
  }
}
