/** Building a block from the pool (miner/selectmessages.go, miner/miner.go,
    chain/gen/mining.go): selection, truncation and the split by signature type.

    The main result is `CreateBlock`: exactly when the validator accepts what the miner packs. */
module Mining {
  import opened Messages
  import opened BlockRules
  import opened Sorting
  import opened SenderRuns
  import opened MessageSelection

  // ----- selection -------------------------------------------------------

  /** A pending message that continues its sender's run is not affordable. */
  ghost predicate NoneLeftOut(msgs: Pending, lists: Senders, actors: map<Address, Actor>) {
    forall x :: x in msgs && Continues(x, lists, actors) ==> !Joins(x, lists, actors)
  }

  /** Every sender's longest funded run of pending messages. */
  ghost predicate Selection(msgs: Pending, lists: Senders, actors: map<Address, Actor>) {
    SendersOk(lists, actors) && AllFrom(lists, msgs) && NoneLeftOut(msgs, lists, actors)
  }

  ghost predicate PrefixPerSender(out: Pending, lists: Senders) {
    forall a :: Of(out, a) <= ListOf(lists, a)
  }

  method SelectMessages(msgs: Pending, actors: map<Address, Actor>, guess: SignedMessage -> nat, score: (int, int) -> real)
    returns (out: Pending, ghost lists: Senders, ghost choices: seq<Choice>)
    requires Scores(score)
    ensures Selection(msgs, lists, actors) && PrefixPerSender(out, lists)
    ensures out == Chosen(choices) && RealChoices(choices)
    ensures Gas(out) <= Charged(choices) <= BLOCK_GAS_LIMIT && |out| <= BLOCK_MESSAGE_LIMIT + 1
    ensures |out| < BLOCK_MESSAGE_LIMIT ==> NextDoesNotFit(lists, out, BLOCK_GAS_LIMIT - Charged(choices))
  {
    var sorted := SortByNonce(msgs);
    var senders := FilterPending(sorted, actors, guess);
    lists := senders;
    SameSelection(sorted, msgs, lists, actors);
    OwnLists(lists, actors);
    out, choices := PackBlock(senders, score);
  }

  lemma SameSelection(sorted: Pending, msgs: Pending, lists: Senders, actors: map<Address, Actor>)
    requires multiset(sorted) == multiset(msgs)
    requires Maximal(sorted, |sorted|, lists, actors) && AllFrom(lists, sorted)
    ensures NoneLeftOut(msgs, lists, actors) && AllFrom(lists, msgs)
  {
    SameMembers(sorted, msgs);
    forall x | x in msgs && Continues(x, lists, actors)
      ensures !Joins(x, lists, actors)
    {
      assert x in sorted;
      var i :| 0 <= i < |sorted| && sorted[i] == x;
    }
  }

  lemma OwnLists(lists: Senders, actors: map<Address, Actor>)
    requires SendersOk(lists, actors)
    ensures SoundLists(lists) && FullLists(lists)
  {
    forall a | a in lists
      ensures AllOwn(lists[a].msgs, a)
    {
      assert Run(lists[a].msgs, a, actors);
    }
  }

  // ----- the split by signature type -------------------------------------

  ghost function BlsOf(list: Pending): Pending {
    if list == [] then []
    else BlsOf(list[..|list| - 1]) + if list[|list| - 1].signature.kind.Bls? then [list[|list| - 1]] else []
  }

  ghost function SecpkOf(list: Pending): Pending {
    if list == [] then []
    else SecpkOf(list[..|list| - 1]) + if list[|list| - 1].signature.kind.Bls? then [] else [list[|list| - 1]]
  }

  ghost function Unsigned(list: Pending): seq<Message> {
    seq(|list|, i requires 0 <= i < |list| => list[i].message)
  }

  method SplitBySignature(msgs: Pending) returns (bls: seq<Message>, secpk: Pending)
    ensures bls == Unsigned(BlsOf(msgs)) && secpk == SecpkOf(msgs)
  {
    bls, secpk := [], [];
    for i := 0 to |msgs|
      invariant bls == Unsigned(BlsOf(msgs[..i])) && secpk == SecpkOf(msgs[..i])
    {
      assert msgs[..i + 1][..i] == msgs[..i];
      if msgs[i].signature.kind.Bls? {
        bls := bls + [msgs[i].message];
      } else {
        secpk := secpk + [msgs[i]];
      }
    }
    assert msgs[..|msgs|] == msgs;
  }

  /** The block's order: BLS messages first. */
  ghost function Reordered(list: Pending): Pending {
    BlsOf(list) + SecpkOf(list)
  }

  ghost predicate OneSigType(list: Pending) {
    forall i, j :: 0 <= i < |list| && 0 <= j < |list| && list[i].message.from == list[j].message.from ==>
      list[i].signature.kind == list[j].signature.kind
  }

  /** No sender's Secp256k1 message precedes one of its BLS messages. */
  ghost predicate BlsFirst(list: Pending) {
    forall i, j :: 0 <= i < j < |list| && list[i].message.from == list[j].message.from && list[j].signature.kind.Bls? ==>
      list[i].signature.kind.Bls?
  }

  ghost predicate OnlyBlsOf(list: Pending, a: Address) {
    forall i :: 0 <= i < |list| && list[i].message.from == a ==> list[i].signature.kind.Bls?
  }

  lemma OfAppend(list: Pending, x: SignedMessage, a: Address)
    ensures Of(list + [x], a) == if x.message.from == a then Of(list, a) + [x] else Of(list, a)
  {
    assert (list + [x])[..|list|] == list;
  }

  lemma {:induction false} NoSecpkOf(list: Pending, a: Address)
    requires OnlyBlsOf(list, a)
    ensures Of(SecpkOf(list), a) == []
    decreases |list|
  {
    if list != [] {
      var rest, last := list[..|list| - 1], list[|list| - 1];
      NoSecpkOf(rest, a);
      if !last.signature.kind.Bls? {
        OfAppend(SecpkOf(rest), last, a);
      } else {
        assert SecpkOf(list) == SecpkOf(rest);
      }
    }
  }

  lemma BlsFirstFront(list: Pending, rest: Pending, last: SignedMessage)
    requires BlsFirst(list) && list == rest + [last]
    ensures BlsFirst(rest) && (last.signature.kind.Bls? ==> OnlyBlsOf(rest, last.message.from))
  {
    assert forall i :: 0 <= i < |rest| ==> rest[i] == list[i];
    assert list[|rest|] == last;
  }

  /** A sender's BLS messages and then its others are its messages in order. */
  lemma {:induction false} PartsOf(list: Pending, a: Address)
    requires BlsFirst(list)
    ensures Of(BlsOf(list), a) + Of(SecpkOf(list), a) == Of(list, a)
    decreases |list|
  {
    if list != [] {
      var rest, last := list[..|list| - 1], list[|list| - 1];
      assert list == rest + [last];
      BlsFirstFront(list, rest, last);
      PartsOf(rest, a);
      if last.signature.kind.Bls? && last.message.from == a {
        NoSecpkOf(rest, a);
      }
      PartsStep(rest, last, list, a);
    }
  }

  lemma PartsStep(rest: Pending, last: SignedMessage, list: Pending, a: Address)
    requires list == rest + [last] && Of(BlsOf(rest), a) + Of(SecpkOf(rest), a) == Of(rest, a)
    requires last.signature.kind.Bls? && last.message.from == a ==> Of(SecpkOf(rest), a) == []
    ensures Of(BlsOf(list), a) + Of(SecpkOf(list), a) == Of(list, a)
  {
    SplitAppend(rest, last, list);
    OfAppend(rest, last, a);
    OfAppend(BlsOf(rest), last, a);
    OfAppend(SecpkOf(rest), last, a);
    InsertBetween(Of(BlsOf(rest), a), Of(SecpkOf(rest), a), last);
  }

  lemma SplitAppend(rest: Pending, last: SignedMessage, list: Pending)
    requires list == rest + [last]
    ensures BlsOf(list) == if last.signature.kind.Bls? then BlsOf(rest) + [last] else BlsOf(rest)
    ensures SecpkOf(list) == if last.signature.kind.Bls? then SecpkOf(rest) else SecpkOf(rest) + [last]
  {
    assert list[..|rest|] == rest;
  }

  lemma InsertBetween(x: Pending, y: Pending, last: SignedMessage)
    ensures x + (y + [last]) == (x + y) + [last]
    ensures y == [] ==> (x + [last]) + y == (x + y) + [last]
  {
  }

  /** Reordering leaves each sender's messages in order when its BLS messages come first. */
  lemma ReorderKeepsSenders(list: Pending, a: Address)
    requires BlsFirst(list)
    ensures Of(Reordered(list), a) == Of(list, a)
  {
    OfConcat(BlsOf(list), SecpkOf(list), a);
    PartsOf(list, a);
  }

  lemma GasAppend(list: Pending, x: SignedMessage)
    ensures Gas(list + [x]) == Gas(list) + x.message.gasLimit
  {
    assert (list + [x])[..|list|] == list;
  }

  lemma {:induction false} SplitKeepsGas(list: Pending)
    ensures Gas(list) == Gas(BlsOf(list)) + Gas(SecpkOf(list))
    decreases |list|
  {
    if list != [] {
      var rest, last := list[..|list| - 1], list[|list| - 1];
      SplitKeepsGas(rest);
      GasAppend(BlsOf(rest), last);
      GasAppend(SecpkOf(rest), last);
      assert BlsOf(rest) + [] == BlsOf(rest) && SecpkOf(rest) + [] == SecpkOf(rest);
    }
  }

  lemma ReorderKeepsGas(list: Pending)
    ensures Gas(Reordered(list)) == Gas(list)
  {
    GasConcat(BlsOf(list), SecpkOf(list));
    SplitKeepsGas(list);
  }

  lemma {:induction false} SplitKinds(list: Pending)
    ensures forall i :: 0 <= i < |BlsOf(list)| ==> BlsOf(list)[i].signature.kind.Bls?
    ensures forall i :: 0 <= i < |SecpkOf(list)| ==> !SecpkOf(list)[i].signature.kind.Bls?
    decreases |list|
  {
    if list != [] {
      SplitKinds(list[..|list| - 1]);
    }
  }

  // ----- the validator's view of the block -------------------------------

  ghost function OnChain(sm: SignedMessage): ChainMsg {
    if sm.signature.kind.Bls? then Bare(sm.message) else Signed(sm)
  }

  ghost function AllOnChain(list: Pending): (r: seq<ChainMsg>)
    ensures |r| == |list| && forall i :: 0 <= i < |list| ==> r[i] == OnChain(list[i])
  {
    seq(|list|, i requires 0 <= i < |list| => OnChain(list[i]))
  }

  lemma BlockIsReordered(list: Pending)
    ensures BlockMessages(Unsigned(BlsOf(list)), SecpkOf(list)) == AllOnChain(Reordered(list))
  {
    SplitKinds(list);
  }

  lemma {:induction false} SameCounts(list: Pending, a: Address)
    ensures CountFrom(AllOnChain(list), a) == |Of(list, a)| && TotalGas(AllOnChain(list)) == Gas(list)
    decreases |list|
  {
    if list != [] {
      var n := |list| - 1;
      SameCounts(list[..n], a);
      assert AllOnChain(list)[..n] == AllOnChain(list[..n]);
    }
  }

  /** The message at position `i` is its sender's next one after those before it. */
  lemma OfAt(list: Pending, i: nat, a: Address)
    requires i < |list| && list[i].message.from == a
    ensures |Of(list[..i], a)| < |Of(list, a)| && Of(list, a)[|Of(list[..i], a)|] == list[i]
  {
    OfPrefix(list, i + 1, a);
    assert list[..i + 1][..i] == list[..i];
    assert Of(list[..i + 1], a) == Of(list[..i], a) + [list[i]];
  }

  /** The validator prices a bare BLS message by its own length, which is shorter. */
  lemma PackableIsAdmissible(sm: SignedMessage, actors: map<Address, Actor>)
    requires Packable(sm) && sm.message.from in actors && actors[sm.message.from].account
    ensures Admissible(OnChain(sm), actors)
  {
  }

  ghost predicate AccountsIn(list: Pending, actors: map<Address, Actor>) {
    forall i :: 0 <= i < |list| ==> list[i].message.from in actors && actors[list[i].message.from].account
  }

  /** Where a message of the list stands in its sender's run. */
  lemma InRun(list: Pending, i: nat, lists: Senders, actors: map<Address, Actor>)
    requires i < |list| && PrefixPerSender(list, lists) && SendersOk(lists, actors)
    ensures var m := list[i].message;
      Packable(list[i]) && m.from in actors && m.nonce == actors[m.from].nonce + |Of(list[..i], m.from)|
  {
    var a := list[i].message.from;
    OfAt(list, i, a);
    var k := |Of(list[..i], a)|;
    assert Of(list, a) <= ListOf(lists, a);
    assert a in lists && lists[a].msgs[k] == list[i];
    assert Run(lists[a].msgs, a, actors);
  }

  lemma PositionOk(list: Pending, i: nat, lists: Senders, actors: map<Address, Actor>)
    requires i < |list| && PrefixPerSender(list, lists) && SendersOk(lists, actors) && AccountsIn(list, actors)
    ensures Admissible(AllOnChain(list)[i], actors) && NonceInTurn(AllOnChain(list), i, actors)
  {
    InRun(list, i, lists, actors);
    PackableIsAdmissible(list[i], actors);
    SameCounts(list[..i], list[i].message.from);
    assert AllOnChain(list)[..i] == AllOnChain(list[..i]);
  }

  lemma ReorderedPrefix(list: Pending, lists: Senders)
    requires BlsFirst(list) && PrefixPerSender(list, lists)
    ensures PrefixPerSender(Reordered(list), lists)
  {
    forall a
      ensures Of(Reordered(list), a) <= ListOf(lists, a)
    {
      ReorderKeepsSenders(list, a);
    }
  }

  /** Where a message of the list stands in the block. */
  lemma {:induction false} InSplit(list: Pending, i: nat) returns (p: nat)
    requires i < |list|
    ensures if list[i].signature.kind.Bls? then p < |BlsOf(list)| && BlsOf(list)[p] == list[i]
            else p < |SecpkOf(list)| && SecpkOf(list)[p] == list[i]
    decreases |list|
  {
    var n := |list| - 1;
    if i < n {
      p := InSplit(list[..n], i);
    } else {
      p := if list[i].signature.kind.Bls? then |BlsOf(list[..n])| else |SecpkOf(list[..n])|;
    }
  }

  lemma {:induction false} SplitIn(list: Pending, x: SignedMessage)
    requires x in Reordered(list)
    ensures x in list
    decreases |list|
  {
    var n := |list| - 1;
    if n >= 0 && x != list[n] {
      assert x in Reordered(list[..n]);
      SplitIn(list[..n], x);
    }
  }

  lemma ReorderedAccounts(list: Pending, actors: map<Address, Actor>)
    requires AccountsIn(list, actors)
    ensures AccountsIn(Reordered(list), actors)
  {
    var order := Reordered(list);
    forall i | 0 <= i < |order|
      ensures order[i].message.from in actors && actors[order[i].message.from].account
    {
      SplitIn(list, order[i]);
    }
  }

  lemma {:induction false} CountGrows(msgs: seq<ChainMsg>, p: nat, q: nat, a: Address)
    requires p < q <= |msgs| && VmMessage(msgs[p]).from == a
    ensures CountFrom(msgs[..p], a) < CountFrom(msgs[..q], a)
    decreases q
  {
    assert msgs[..q][..q - 1] == msgs[..q - 1];
    if p < q - 1 {
      CountGrows(msgs, p, q - 1, a);
    }
  }

  /** In an acceptable block a sender's nonces go up. */
  lemma NoncesGoUp(msgs: seq<ChainMsg>, actors: map<Address, Actor>, p: nat, q: nat)
    requires Acceptable(msgs, actors) && p < q < |msgs| && VmMessage(msgs[p]).from == VmMessage(msgs[q]).from
    ensures VmMessage(msgs[p]).nonce < VmMessage(msgs[q]).nonce
  {
    assert NonceInTurn(msgs, p, actors) && NonceInTurn(msgs, q, actors);
    CountGrows(msgs, p, q, VmMessage(msgs[p]).from);
  }

  /** In the list too. */
  lemma RunGoesUp(list: Pending, i: nat, j: nat, lists: Senders, actors: map<Address, Actor>)
    requires i < j < |list| && list[i].message.from == list[j].message.from
    requires PrefixPerSender(list, lists) && SendersOk(lists, actors)
    ensures list[i].message.nonce < list[j].message.nonce
  {
    InRun(list, i, lists, actors);
    InRun(list, j, lists, actors);
    assert list[..j][..i] == list[..i];
    OfAt(list[..j], i, list[i].message.from);
  }

  lemma PairInOrder(list: Pending, i: nat, j: nat, lists: Senders, actors: map<Address, Actor>)
    requires PrefixPerSender(list, lists) && SendersOk(lists, actors) && Acceptable(AllOnChain(Reordered(list)), actors)
    requires i < j < |list| && list[i].message.from == list[j].message.from && list[j].signature.kind.Bls?
    ensures list[i].signature.kind.Bls?
  {
    var order, n := Reordered(list), |BlsOf(list)|;
    RunGoesUp(list, i, j, lists, actors);
    var p := InSplit(list, j);
    var q := InSplit(list, i);
    assert order[p] == list[j];
    assert !list[i].signature.kind.Bls? ==> n + q < |order| && order[n + q] == list[i];
    if !list[i].signature.kind.Bls? {
      NoncesGoUp(AllOnChain(order), actors, p, n + q);
    }
  }

  /** An acceptable block carries no sender's BLS message past an earlier other one. */
  lemma AcceptableIsBlsFirst(list: Pending, lists: Senders, actors: map<Address, Actor>)
    requires PrefixPerSender(list, lists) && SendersOk(lists, actors) && Acceptable(AllOnChain(Reordered(list)), actors)
    ensures BlsFirst(list)
  {
    forall i, j | 0 <= i < j < |list| && list[i].message.from == list[j].message.from && list[j].signature.kind.Bls?
      ensures list[i].signature.kind.Bls?
    {
      PairInOrder(list, i, j, lists, actors);
    }
  }

  lemma AcceptableAccounts(list: Pending, actors: map<Address, Actor>)
    requires Acceptable(AllOnChain(Reordered(list)), actors)
    ensures AccountsIn(list, actors)
  {
    var order := Reordered(list);
    forall i | 0 <= i < |list|
      ensures list[i].message.from in actors && actors[list[i].message.from].account
    {
      var p := InSplit(list, i);
      var k := if list[i].signature.kind.Bls? then p else |BlsOf(list)| + p;
      assert order[k] == list[i];
      assert Admissible(AllOnChain(order)[k], actors);
    }
  }

  /** What is a prefix of every sender's run and within the gas limit passes validation in the
      block's order exactly when all senders are accounts and no sender's Secp256k1 message
      precedes one of its BLS messages. */
  lemma PackedIsAcceptable(list: Pending, lists: Senders, actors: map<Address, Actor>)
    requires PrefixPerSender(list, lists) && SendersOk(lists, actors) && Gas(list) <= BLOCK_GAS_LIMIT
    ensures Acceptable(BlockMessages(Unsigned(BlsOf(list)), SecpkOf(list)), actors) <==> AccountsIn(list, actors) && BlsFirst(list)
  {
    var order := Reordered(list);
    BlockIsReordered(list);
    if AccountsIn(list, actors) && BlsFirst(list) {
      ReorderedPrefix(list, lists);
      ReorderedAccounts(list, actors);
      ReorderKeepsGas(list);
      SameCounts(order, UNDEF);
      forall i | 0 <= i < |order|
        ensures Admissible(AllOnChain(order)[i], actors) && NonceInTurn(AllOnChain(order), i, actors)
      {
        PositionOk(order, i, lists, actors);
      }
    }
    if Acceptable(AllOnChain(order), actors) {
      AcceptableAccounts(list, actors);
      AcceptableIsBlsFirst(list, lists, actors);
    }
  }

  /** Cutting the block at the message limit keeps everything that matters. */
  lemma TruncatedPrefix(out: Pending, k: nat, lists: Senders)
    requires k <= |out| && PrefixPerSender(out, lists)
    ensures PrefixPerSender(out[..k], lists)
  {
    forall a
      ensures Of(out[..k], a) <= ListOf(lists, a)
    {
      OfPrefix(out, k, a);
    }
  }

  lemma {:induction false} GasOfPrefix(list: Pending, k: nat)
    requires k <= |list| && forall i :: 0 <= i < |list| ==> list[i].message.gasLimit >= 0
    ensures Gas(list[..k]) <= Gas(list)
    decreases |list|
  {
    if k < |list| {
      var rest := list[..|list| - 1];
      GasOfPrefix(rest, k);
      assert rest[..k] == list[..k];
    } else {
      assert list[..k] == list;
    }
  }

  /** Every chosen message comes from the pool and is worth its gas. */
  lemma ChosenFromPool(out: Pending, lists: Senders, msgs: Pending, actors: map<Address, Actor>)
    requires PrefixPerSender(out, lists) && AllFrom(lists, msgs) && SendersOk(lists, actors)
    ensures forall i :: 0 <= i < |out| ==> out[i] in msgs && out[i].message.gasLimit >= 0
  {
    forall i | 0 <= i < |out|
      ensures out[i] in msgs && out[i].message.gasLimit >= 0
    {
      var a := out[i].message.from;
      OfAt(out, i, a);
      var k := |Of(out[..i], a)|;
      assert Of(out, a) <= ListOf(lists, a);
      assert a in lists && lists[a].msgs[k] == out[i] && out[i] in ListOf(lists, a);
      assert Run(lists[a].msgs, a, actors);
    }
  }

  /** A pool that promises acceptable blocks: accounts only, each signing one way. */
  ghost predicate PlainPool(pending: Pending, actors: map<Address, Actor>) {
    OneSigType(pending) && forall x :: x in pending && x.message.from in actors ==> actors[x.message.from].account
  }

  lemma PlainIsOk(out: Pending, pending: Pending, lists: Senders, actors: map<Address, Actor>)
    requires PlainPool(pending, actors) && PrefixPerSender(out, lists) && SendersOk(lists, actors)
    requires forall i :: 0 <= i < |out| ==> out[i] in pending
    ensures AccountsIn(out, actors) && BlsFirst(out)
  {
    forall i | 0 <= i < |out|
      ensures out[i].message.from in actors && actors[out[i].message.from].account
    {
      InRun(out, i, lists, actors);
    }
    forall i, j | 0 <= i < j < |out| && out[i].message.from == out[j].message.from
      ensures out[i].signature.kind == out[j].signature.kind
    {
      var p :| 0 <= p < |pending| && pending[p] == out[i];
      var q :| 0 <= q < |pending| && pending[q] == out[j];
    }
  }

  ghost function Truncated(msgs: Pending): Pending {
    if |msgs| > BLOCK_MESSAGE_LIMIT then msgs[..BLOCK_MESSAGE_LIMIT] else msgs
  }

  /** The miner's block: at most the allowed number of messages, all from the pool, not smaller
      than it must be, and acceptable to the validator exactly when its senders are accounts and
      none has a Secp256k1 message before a BLS message. */
  method CreateBlock(pending: Pending, actors: map<Address, Actor>, guess: SignedMessage -> nat, score: (int, int) -> real)
    returns (bls: seq<Message>, secpk: Pending, ghost lists: Senders, ghost choices: seq<Choice>)
    requires Scores(score)
    ensures |bls| + |secpk| <= BLOCK_MESSAGE_LIMIT
    ensures Selection(pending, lists, actors) && PrefixPerSender(Chosen(choices), lists)
    ensures RealChoices(choices) && Charged(choices) <= BLOCK_GAS_LIMIT
    ensures var kept := Truncated(Chosen(choices));
      && bls == Unsigned(BlsOf(kept)) && secpk == SecpkOf(kept)
      && (Acceptable(BlockMessages(bls, secpk), actors) <==> AccountsIn(kept, actors) && BlsFirst(kept))
    ensures PlainPool(pending, actors) ==> Acceptable(BlockMessages(bls, secpk), actors)
    ensures |bls| + |secpk| < BLOCK_MESSAGE_LIMIT ==> NextDoesNotFit(lists, Chosen(choices), BLOCK_GAS_LIMIT - Charged(choices))
  {
    var msgs;
    msgs, lists, choices := SelectMessages(pending, actors, guess, score);
    ChosenFromPool(msgs, lists, pending, actors);
    if |msgs| > BLOCK_MESSAGE_LIMIT {
      GasOfPrefix(msgs, BLOCK_MESSAGE_LIMIT);
      TruncatedPrefix(msgs, BLOCK_MESSAGE_LIMIT, lists);
      msgs := msgs[..BLOCK_MESSAGE_LIMIT];
    }
    if PlainPool(pending, actors) {
      PlainIsOk(msgs, pending, lists, actors);
    }
    PackedIsAcceptable(msgs, lists, actors);
    SplitCount(msgs);
    bls, secpk := SplitBySignature(msgs);
  }

  lemma {:induction false} SplitCount(list: Pending)
    ensures |BlsOf(list)| + |SecpkOf(list)| == |list|
    decreases |list|
  {
    if list != [] {
      SplitCount(list[..|list| - 1]);
    }
  }

  // ----- a block the validator refuses -----------------------------------

  /** A pool of one sender with a Secp256k1 message followed by a BLS message. */
  ghost predicate MixedPool(pending: Pending, actors: map<Address, Actor>, a: Address) {
    && |pending| == 2 && a in actors && actors[a] == Actor(true, 0, 0)
    && (forall i :: 0 <= i < 2 ==> Packable(pending[i]) && pending[i].message.from == a && pending[i].message.nonce == i)
    && (forall i :: 0 <= i < 2 ==> pending[i].message.gasPrice == 0 && pending[i].message.gasLimit == 1_000_000)
    && pending[0].signature.kind.Secp256k1? && pending[1].signature.kind.Bls?
  }

  lemma SelectedIsPending(pending: Pending, actors: map<Address, Actor>, lists: Senders, b: Address, i: nat) returns (k: nat)
    requires Selection(pending, lists, actors) && b in lists && i < |lists[b].msgs|
    ensures k < |pending| && pending[k] == lists[b].msgs[i]
    ensures pending[k].message.from == b && b in actors && pending[k].message.nonce == actors[b].nonce + i
  {
    var x := lists[b].msgs[i];
    assert Run(lists[b].msgs, b, actors);
    assert x in ListOf(lists, b) && x in pending;
    k :| 0 <= k < |pending| && pending[k] == x;
  }

  /** Both are selected. */
  lemma MixedSelection(pending: Pending, actors: map<Address, Actor>, a: Address, lists: Senders)
    requires MixedPool(pending, actors, a) && Selection(pending, lists, actors)
    ensures ListOf(lists, a) == pending && forall b :: b != a ==> ListOf(lists, b) == []
  {
    forall b | b in lists
      ensures b == a
    {
      var k := SelectedIsPending(pending, actors, lists, b, 0);
    }
    var list := ListOf(lists, a);
    forall i | 0 <= i < |list|
      ensures i < 2 && list[i] == pending[i]
    {
      var k := SelectedIsPending(pending, actors, lists, a, i);
    }
    NoFunds(list);
    NoneWaits(pending, actors, a, lists, |list|);
  }

  /** A message that comes next would have joined. */
  lemma NoneWaits(pending: Pending, actors: map<Address, Actor>, a: Address, lists: Senders, n: nat)
    requires MixedPool(pending, actors, a) && Selection(pending, lists, actors)
    requires n == |ListOf(lists, a)| && Funds(ListOf(lists, a)) == 0
    ensures n >= 2
  {
    forall k | 0 <= k < 2
      ensures RequiredFunds(pending[k].message) == 0 && pending[k] in pending
    {
      TimesIsProduct(pending[k].message.gasPrice, AsUint64(pending[k].message.gasLimit));
    }
    assert n == 0 ==> Joins(pending[0], lists, actors);
    assert n == 1 ==> Joins(pending[1], lists, actors);
  }

  lemma {:induction false} NoFunds(list: Pending)
    requires forall i :: 0 <= i < |list| ==> list[i].message.gasPrice == 0
    ensures Funds(list) == 0
  {
    if list != [] {
      var m := list[|list| - 1].message;
      NoFunds(list[..|list| - 1]);
      TimesIsProduct(m.gasPrice, AsUint64(m.gasLimit));
    }
  }

  lemma {:induction false} ChoicesCount(choices: seq<Choice>)
    requires RealChoices(choices)
    ensures |choices| <= |Chosen(choices)|
  {
    if choices != [] {
      ChoicesCount(choices[..|choices| - 1]);
    }
  }

  /** Real choices of at most one message are charged its gas. */
  lemma ChargedOnce(choices: seq<Choice>)
    requires RealChoices(choices)
    ensures |Chosen(choices)| < 2 ==> Charged(choices) == Gas(Chosen(choices))
  {
    ChoicesCount(choices);
    if |choices| == 1 {
      var front, last := choices[..0], choices[0];
      assert front == [] && Chosen(choices) == last.taken;
    }
  }

  lemma ShortIsLight(out: Pending, pending: Pending, gas: int)
    requires out <= pending && |pending| == 2 && pending[0].message.gasLimit == gas
    ensures |out| < 2 ==> Gas(out) <= if gas >= 0 then gas else 0
  {
    if |out| == 1 {
      assert out[..0] == [];
    }
  }

  lemma OnlySender(out: Pending, lists: Senders, a: Address)
    requires PrefixPerSender(out, lists) && forall b :: b != a ==> ListOf(lists, b) == []
    ensures Of(out, a) == out
  {
    forall i | 0 <= i < |out|
      ensures out[i].message.from == a
    {
      OfAt(out, i, out[i].message.from);
      assert Of(out, out[i].message.from) <= ListOf(lists, out[i].message.from);
    }
    OfAll(out, a);
  }

  /** Both are packed, in the order of their nonces. */
  lemma MixedPacked(pending: Pending, actors: map<Address, Actor>, a: Address, lists: Senders, choices: seq<Choice>, out: Pending)
    requires MixedPool(pending, actors, a) && Selection(pending, lists, actors)
    requires out == Chosen(choices) && PrefixPerSender(out, lists) && RealChoices(choices)
    requires |out| < BLOCK_MESSAGE_LIMIT ==> NextDoesNotFit(lists, out, BLOCK_GAS_LIMIT - Charged(choices))
    ensures out == pending
  {
    MixedSelection(pending, actors, a, lists);
    OnlySender(out, lists, a);
    assert Of(out, a) <= ListOf(lists, a);
    ChargedOnce(choices);
    ShortIsLight(out, pending, 1_000_000);
  }

  lemma {:induction false} OfAll(list: Pending, a: Address)
    requires forall i :: 0 <= i < |list| ==> list[i].message.from == a
    ensures Of(list, a) == list
  {
    if list != [] {
      OfAll(list[..|list| - 1], a);
    }
  }

  lemma MixedSplit(pending: Pending)
    requires |pending| == 2 && pending[0].signature.kind.Secp256k1? && pending[1].signature.kind.Bls?
    requires pending[0].message.from == pending[1].message.from
    ensures |BlsOf(pending)| == 1 && |SecpkOf(pending)| == 1 && !BlsFirst(pending) && Truncated(pending) == pending
  {
    var first := pending[..1];
    assert first[..0] == [] && pending[..2] == pending;
    assert BlsOf(first) == [] && SecpkOf(first) == [pending[0]];
  }

  /** The miner packs such a pool into a block that the validator refuses. */
  method MixedSignatures(pending: Pending, actors: map<Address, Actor>, a: Address, guess: SignedMessage -> nat, score: (int, int) -> real)
    returns (bls: seq<Message>, secpk: Pending)
    requires Scores(score) && MixedPool(pending, actors, a)
    ensures |bls| == |secpk| == 1 && !Acceptable(BlockMessages(bls, secpk), actors)
  {
    ghost var lists, choices;
    bls, secpk, lists, choices := CreateBlock(pending, actors, guess, score);
    MixedRefused(pending, actors, a, lists, choices, bls, secpk, Chosen(choices));
  }

  lemma MixedRefused(pending: Pending, actors: map<Address, Actor>, a: Address, lists: Senders, choices: seq<Choice>,
                     bls: seq<Message>, secpk: Pending, out: Pending)
    requires MixedPool(pending, actors, a) && Selection(pending, lists, actors)
    requires out == Chosen(choices) && PrefixPerSender(out, lists) && RealChoices(choices)
    requires bls == Unsigned(BlsOf(Truncated(out))) && secpk == SecpkOf(Truncated(out))
    requires |bls| + |secpk| < BLOCK_MESSAGE_LIMIT ==> NextDoesNotFit(lists, out, BLOCK_GAS_LIMIT - Charged(choices))
    requires Acceptable(BlockMessages(bls, secpk), actors) ==> BlsFirst(Truncated(out))
    ensures |bls| == |secpk| == 1 && !Acceptable(BlockMessages(bls, secpk), actors)
  {
    SplitCount(Truncated(out));
    MixedPacked(pending, actors, a, lists, choices, out);
    MixedSplit(pending);
  }
}
