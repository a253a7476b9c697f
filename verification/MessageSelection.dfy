/** Choosing pending messages for a block (miner/selectmessages.go): every sender's funded
    run, and the greedy choice among the senders.

    The floating-point gas-to-reward ratio is a parameter `score`: any non-negative
    number will do, none of the results depends on which sender wins. */
module MessageSelection {
  import opened Wrappers
  import opened Messages
  import opened Sorting
  import opened SenderRuns

  // ----- filtering -------------------------------------------------------

  lemma AppendRun(list: Pending, x: SignedMessage, a: Address, actors: map<Address, Actor>)
    requires Run(list, a, actors) || (list == [] && a in actors)
    requires Packable(x) && x.message.from == a && x.message.nonce == actors[a].nonce + |list|
    requires Funds(list) + RequiredFunds(x.message) <= actors[a].balance
    ensures Run(list + [x], a, actors)
  {
    assert (list + [x])[..|list|] == list;
  }

  /** A sender's record with one more message; the arrays are running totals. */
  function Extended(meta: SenderMeta, x: SignedMessage, reward: int): SenderMeta
    requires |meta.gasLimit| == |meta.gasReward| == |meta.msgs|
  {
    var n := |meta.msgs|;
    var lastReward := if n == 0 then 0 else meta.gasReward[n - 1];
    var lastGasLimit := if n == 0 then 0 else meta.gasLimit[n - 1];
    SenderMeta(meta.gasReward + [lastReward + reward], meta.gasLimit + [lastGasLimit + x.message.gasLimit], meta.msgs + [x])
  }

  lemma ExtendedCumulative(meta: SenderMeta, x: SignedMessage, reward: int)
    requires Cumulative(meta, 0) && reward >= 0
    ensures Cumulative(Extended(meta, x, reward), 0)
  {
    var n, list, more := |meta.msgs|, meta.msgs + [x], Extended(meta, x, reward);
    assert list[..n] == meta.msgs == meta.msgs[..n];
    forall m | 0 < m <= |list|
      ensures more.gasLimit[m - 1] == 0 + Gas(list[..m])
    {
      if m <= n {
        assert list[..m] == meta.msgs[..m];
      } else {
        assert list[..m] == list;
      }
    }
  }

  /** The books after the sender `a` got one more message. */
  lemma BooksStep(nonces: map<Address, nat>, balances: map<Address, int>, senders: Senders, actors: map<Address, Actor>,
                  a: Address, more: SenderMeta, next: nat, left: int)
    requires Books(nonces, balances, senders, actors) && a in nonces
    requires next == nonces[a] + 1 && |more.msgs| == |ListOf(senders, a)| + 1
    requires balances[a] - left == Funds(more.msgs) - Funds(ListOf(senders, a))
    ensures Books(nonces[a := next], balances[a := left], senders[a := more], actors)
  {
    var n', b', s' := nonces[a := next], balances[a := left], senders[a := more];
    assert BookOf(a, nonces, balances, senders, actors);
    forall x | x in n'
      ensures BookOf(x, n', b', s', actors)
    {
      assert x != a ==> BookOf(x, nonces, balances, senders, actors) && ListOf(s', x) == ListOf(senders, x);
    }
  }

  lemma SendersStep(senders: Senders, actors: map<Address, Actor>, a: Address, more: SenderMeta)
    requires SendersOk(senders, actors)
    requires Run(more.msgs, a, actors) && more.msgs != [] && Cumulative(more, 0)
    ensures SendersOk(senders[a := more], actors)
  {
  }

  lemma FundsAppend(list: Pending, x: SignedMessage)
    ensures Funds(list + [x]) == Funds(list) + RequiredFunds(x.message)
  {
    assert (list + [x])[..|list|] == list;
  }

  /** An affordable message in turn may join its sender. */
  lemma AcceptStep(nonces: map<Address, nat>, balances: map<Address, int>, senders: Senders, actors: map<Address, Actor>,
                   msg: SignedMessage, a: Address, meta: SenderMeta, reward: int, next: nat, left: int)
    requires Books(nonces, balances, senders, actors) && SendersOk(senders, actors) && reward >= 0
    requires a == msg.message.from && a in nonces && Packable(msg)
    requires msg.message.nonce == nonces[a] && next == nonces[a] + 1
    requires left == balances[a] - RequiredFunds(msg.message) && left >= 0
    requires if a in senders then meta == senders[a] else meta == SenderMeta([], [], [])
    ensures Cumulative(meta, 0) && meta.msgs == ListOf(senders, a)
    ensures Books(nonces[a := next], balances[a := left], senders[a := Extended(meta, msg, reward)], actors)
    ensures SendersOk(senders[a := Extended(meta, msg, reward)], actors)
  {
    assert Cumulative(meta, 0);
    var more := Extended(meta, msg, reward);
    AppendRun(meta.msgs, msg, a, actors);
    ExtendedCumulative(meta, msg, reward);
    FundsAppend(meta.msgs, msg);
    BooksStep(nonces, balances, senders, actors, a, more, next, left);
    SendersStep(senders, actors, a, more);
  }

  lemma LookupStep(nonces: map<Address, nat>, balances: map<Address, int>, senders: Senders, actors: map<Address, Actor>,
                   a: Address, nonce: nat, balance: int)
    requires Books(nonces, balances, senders, actors) && a in actors && a !in nonces
    requires nonce == actors[a].nonce && balance == actors[a].balance
    ensures Books(nonces[a := nonce], balances[a := balance], senders, actors)
  {
    var n', b' := nonces[a := nonce], balances[a := balance];
    forall x | x in n'
      ensures BookOf(x, n', b', senders, actors)
    {
      assert x != a ==> BookOf(x, nonces, balances, senders, actors);
    }
  }

  function NonceOf(sm: SignedMessage): int {
    sm.message.nonce
  }

  method SortByNonce(msgs: Pending) returns (sorted: Pending)
    ensures SortedByNonce(sorted) && multiset(sorted) == multiset(msgs)
  {
    sorted := SortBy(msgs, NonceOf);
    NonceOrder(sorted);
  }

  lemma NonceOrder(list: Pending)
    requires Sorted(list, NonceOf)
    ensures SortedByNonce(list)
  {
    assert forall i :: 0 <= i < |list| ==> NonceOf(list[i]) == list[i].message.nonce;
  }

  /** One pending message: taken into its sender's run when it is valid, affordable
      and next in turn. */
  method FilterOne(msg: SignedMessage, nonces: map<Address, nat>, balances: map<Address, int>, senders: Senders,
                   actors: map<Address, Actor>, guess: SignedMessage -> nat)
    returns (nonces': map<Address, nat>, balances': map<Address, int>, senders': Senders)
    requires Books(nonces, balances, senders, actors) && SendersOk(senders, actors)
    ensures Books(nonces', balances', senders', actors) && SendersOk(senders', actors)
    ensures Filtered(msg, senders, senders', actors)
  {
    nonces', balances', senders' := nonces, balances, senders;
    if !ValidForBlockInclusion(msg.message, OnChainMessage(SignedLength(msg))) {
      return;
    }
    if msg.message.gasLimit > BLOCK_GAS_LIMIT {
      return;
    }
    if msg.message.to_ == UNDEF {
      return;
    }
    var from := msg.message.from;
    if from !in nonces {
      if from !in actors {
        return;
      }
      var act := actors[from];
      LookupStep(nonces, balances, senders, actors, from, act.nonce, act.balance);
      nonces' := nonces[from := act.nonce];
      balances' := balances[from := act.balance];
    }
    Verdict(nonces', balances', senders, actors, msg);
    if balances'[from] < RequiredFunds(msg.message) {
      return;
    }
    if msg.message.nonce > nonces'[from] {
      return;
    }
    if msg.message.nonce < nonces'[from] {
      return;
    }
    var meta := if from in senders then senders[from] else SenderMeta([], [], []);
    var reward := Times(msg.message.gasPrice, guess(msg));
    TimesIsProduct(msg.message.gasPrice, guess(msg));
    var next, left := msg.message.nonce + 1, balances'[from] - RequiredFunds(msg.message);
    AcceptStep(nonces', balances', senders, actors, msg, from, meta, reward, next, left);
    nonces' := nonces'[from := next];
    balances' := balances'[from := left];
    senders' := senders[from := Extended(meta, msg, reward)];
    Accepted(msg, senders, senders', actors, Extended(meta, msg, reward));
  }

  /** With the sender looked up, a message joins exactly when its cost and its nonce fit the books. */
  lemma Verdict(nonces: map<Address, nat>, balances: map<Address, int>, senders: Senders, actors: map<Address, Actor>, msg: SignedMessage)
    requires Books(nonces, balances, senders, actors) && msg.message.from in nonces && Packable(msg)
    ensures Joins(msg, senders, actors) <==>
      RequiredFunds(msg.message) <= balances[msg.message.from] && msg.message.nonce == nonces[msg.message.from]
  {
  }

  lemma Accepted(msg: SignedMessage, senders: Senders, senders': Senders, actors: map<Address, Actor>, more: SenderMeta)
    requires Joins(msg, senders, actors)
    requires senders' == senders[msg.message.from := more] && more.msgs == ListOf(senders, msg.message.from) + [msg]
    ensures Filtered(msg, senders, senders', actors)
  {
  }

  lemma MaximalStep(sorted: Pending, k: nat, senders: Senders, senders': Senders, actors: map<Address, Actor>)
    requires SortedByNonce(sorted) && k < |sorted|
    requires Maximal(sorted, k, senders, actors) && Filtered(sorted[k], senders, senders', actors)
    ensures Maximal(sorted, k + 1, senders', actors)
  {
    forall i | 0 <= i < k + 1 && Continues(sorted[i], senders', actors)
      ensures !Joins(sorted[i], senders', actors)
    {
      assert sorted[i].message.nonce <= sorted[k].message.nonce;
      assert i < k ==> (Continues(sorted[i], senders, actors) ==> !Joins(sorted[i], senders, actors));
    }
  }

  lemma AllFromStep(sorted: Pending, k: nat, senders: Senders, senders': Senders, actors: map<Address, Actor>)
    requires k < |sorted| && AllFrom(senders, sorted) && Filtered(sorted[k], senders, senders', actors)
    ensures AllFrom(senders', sorted)
  {
    forall a, x | x in ListOf(senders', a)
      ensures x in sorted
    {
      assert x in ListOf(senders, a) || x == sorted[k];
    }
  }

  method FilterPending(sorted: Pending, actors: map<Address, Actor>, guess: SignedMessage -> nat) returns (senders: Senders)
    requires SortedByNonce(sorted)
    ensures SendersOk(senders, actors) && Maximal(sorted, |sorted|, senders, actors)
    ensures AllFrom(senders, sorted)
  {
    var nonces, balances := map[], map[];
    senders := map[];
    for k := 0 to |sorted|
      invariant Books(nonces, balances, senders, actors) && SendersOk(senders, actors)
      invariant Maximal(sorted, k, senders, actors)
      invariant AllFrom(senders, sorted)
    {
      ghost var before := senders;
      nonces, balances, senders := FilterOne(sorted[k], nonces, balances, senders, actors, guess);
      MaximalStep(sorted, k, before, senders, actors);
      AllFromStep(sorted, k, before, senders, actors);
    }
  }

  // ----- packing ---------------------------------------------------------

  method AllSenders(senders: Senders) returns (order: seq<Address>)
    ensures forall a :: a in senders ==> a in order
  {
    order := [];
    var todo := senders.Keys;
    while todo != {}
      invariant forall a :: a in senders ==> a in todo || a in order
      decreases todo
    {
      var a := Pick(todo);
      order := order + [a];
      todo := todo - {a};
    }
  }

  /** The best-paying prefix of any sender that still fits; none when nothing fits. */
  method BestPrefix(senders: Senders, order: seq<Address>, outLen: nat, room: Room, score: (int, int) -> real)
    returns (best: Address, nBest: nat)
    requires Scores(score) && Priced(senders)
    requires forall a :: a in senders ==> a in order
    ensures nBest == 0 ==> NothingFits(senders, outLen, room)
    ensures nBest > 0 ==> best in senders && Fits(senders[best], nBest - 1, outLen, room)
    ensures nBest > 0 ==> Beats(senders, outLen, room, score, score(senders[best].gasReward[nBest - 1], senders[best].gasLimit[nBest - 1]))
  {
    best, nBest := UNDEF, 0;
    var bestScore: real := 0.0;
    for i := 0 to |order|
      invariant BestSoFar(senders, outLen, room, score, best, nBest, bestScore)
      invariant forall j, k :: 0 <= j < i && order[j] in senders && Fits(senders[order[j]], k, outLen, room) ==>
        nBest > 0 && score(senders[order[j]].gasReward[k], senders[order[j]].gasLimit[k]) <= bestScore
    {
      if order[i] !in senders {
        continue;
      }
      best, nBest, bestScore := BestOf(senders, order[i], outLen, room, score, best, nBest, bestScore);
    }
    forall a, k | a in senders && Fits(senders[a], k, outLen, room)
      ensures nBest > 0 && score(senders[a].gasReward[k], senders[a].gasLimit[k]) <= bestScore
    {
      var j :| 0 <= j < |order| && order[j] == a;
    }
  }

  method BestOf(senders: Senders, a: Address, outLen: nat, room: Room, score: (int, int) -> real,
                best: Address, nBest: nat, bestScore: real)
    returns (best': Address, nBest': nat, bestScore': real)
    requires Scores(score) && Priced(senders) && a in senders
    requires BestSoFar(senders, outLen, room, score, best, nBest, bestScore)
    ensures BestSoFar(senders, outLen, room, score, best', nBest', bestScore')
    ensures bestScore <= bestScore' && (nBest > 0 ==> nBest' > 0)
    ensures forall k :: Fits(senders[a], k, outLen, room) ==>
      nBest' > 0 && score(senders[a].gasReward[k], senders[a].gasLimit[k]) <= bestScore'
  {
    best', nBest', bestScore' := best, nBest, bestScore;
    var meta := senders[a];
    for n := 0 to |meta.msgs|
      invariant BestSoFar(senders, outLen, room, score, best', nBest', bestScore')
      invariant bestScore <= bestScore' && (nBest > 0 ==> nBest' > 0)
      invariant n > 0 ==> Fits(meta, n - 1, outLen, room)
      invariant forall k :: 0 <= k < n ==> nBest' > 0 && score(meta.gasReward[k], meta.gasLimit[k]) <= bestScore'
    {
      if room.gas.Some? && meta.gasLimit[n] > room.gas.value {
        break;
      }
      if n + outLen > room.last {
        break;
      }
      assert Fits(meta, n, outLen, room);
      var gasToReward := score(meta.gasReward[n], meta.gasLimit[n]);
      if gasToReward >= bestScore' {
        best', nBest', bestScore' := a, n + 1, gasToReward;
      }
    }
  }

  /** What was taken from a sender and what is left are both its own messages. */
  lemma Parts(lists: Senders, senders: Senders, out: Pending, a: Address)
    requires Remaining(lists, senders, out) && SoundLists(lists) && a in senders
    ensures a in lists && lists[a].msgs == Of(out, a) + senders[a].msgs
    ensures AllOwn(Of(out, a), a) && AllOwn(senders[a].msgs, a)
  {
    assert ListOf(lists, a) == Of(out, a) + ListOf(senders, a);
    AllOwnParts(Of(out, a), senders[a].msgs, a);
  }

  /** Taking a prefix from one sender: its part of the block grows by it, the others'
      parts do not change. */
  lemma TakeStep(lists: Senders, senders: Senders, out: Pending, a: Address, n: nat, rest: SenderMeta, chunk: Pending, more: Pending)
    requires Remaining(lists, senders, out) && SoundLists(lists)
    requires a in senders && 0 < n <= |senders[a].msgs| == |senders[a].gasReward| == |senders[a].gasLimit|
    requires chunk == senders[a].msgs[..n] && more == out + chunk
    requires rest == SenderMeta(senders[a].gasReward[n..], senders[a].gasLimit[n..], senders[a].msgs[n..])
    ensures rest.msgs != [] ==> Remaining(lists, senders[a := rest], more)
    ensures rest.msgs == [] ==> Remaining(lists, senders - {a}, more)
  {
    TakeFacts(lists, senders, out, a, n, rest, chunk, more);
    if rest.msgs != [] {
      Replaced(senders, a, rest);
      RemainingStep(lists, senders, senders[a := rest], out, more, a, rest.msgs);
    } else {
      Removed(senders, a);
      RemainingStep(lists, senders, senders - {a}, out, more, a, rest.msgs);
    }
  }

  lemma TakeFacts(lists: Senders, senders: Senders, out: Pending, a: Address, n: nat, rest: SenderMeta, chunk: Pending, more: Pending)
    requires Remaining(lists, senders, out) && SoundLists(lists)
    requires a in senders && 0 < n <= |senders[a].msgs| == |senders[a].gasReward| == |senders[a].gasLimit|
    requires chunk == senders[a].msgs[..n] && more == out + chunk
    requires rest == SenderMeta(senders[a].gasReward[n..], senders[a].gasLimit[n..], senders[a].msgs[n..])
    ensures forall b :: b != a ==> Of(more, b) == Of(out, b)
    ensures a in lists && Of(more, a) + rest.msgs == lists[a].msgs
    ensures Cumulative(rest, Gas(Of(more, a)))
  {
    Parts(lists, senders, out, a);
    assert senders[a].msgs == chunk + rest.msgs;
    AllOwnParts(chunk, rest.msgs, a);
    TakenParts(out, a, chunk, more);
    Regroup(Of(out, a), chunk, rest.msgs);
    GasConcat(Of(out, a), chunk);
    RestCumulative(senders[a], Gas(Of(out, a)), n, chunk, rest, Gas(Of(more, a)));
  }

  lemma Regroup(x: Pending, y: Pending, z: Pending)
    ensures (x + y) + z == x + (y + z)
  {
  }

  lemma TakenParts(out: Pending, a: Address, chunk: Pending, more: Pending)
    requires AllOwn(chunk, a) && more == out + chunk
    ensures forall b :: Of(more, b) == if b == a then Of(out, a) + chunk else Of(out, b)
  {
    forall b
      ensures Of(more, b) == if b == a then Of(out, a) + chunk else Of(out, b)
    {
      OfOwn(chunk, a, b);
      OfConcat(out, chunk, b);
    }
  }

  lemma RemainingStep(lists: Senders, senders: Senders, senders': Senders, out: Pending, more: Pending, a: Address, rest: Pending)
    requires Remaining(lists, senders, out)
    requires forall b :: b != a ==> Of(more, b) == Of(out, b)
    requires SameElsewhere(senders, senders', a)
    requires a in lists && ListOf(senders', a) == rest && Of(more, a) + rest == lists[a].msgs
    requires a in senders' ==> a in lists && senders'[a].msgs != [] && Cumulative(senders'[a], Gas(Of(more, a)))
    ensures Remaining(lists, senders', more)
  {
    forall b
      ensures Of(more, b) + ListOf(senders', b) == ListOf(lists, b)
    {
      if b != a {
        assert Of(out, b) + ListOf(senders, b) == ListOf(lists, b);
        assert ListOf(senders', b) == ListOf(senders, b);
      }
    }
    forall b | b in senders'
      ensures b in lists && senders'[b].msgs != [] && Cumulative(senders'[b], Gas(Of(more, b)))
    {
      assert b != a ==> b in senders && senders'[b] == senders[b] && Of(more, b) == Of(out, b);
    }
  }

  ghost predicate SameElsewhere(senders: Senders, senders': Senders, a: Address) {
    forall b :: b != a ==> (b in senders' <==> b in senders) && (b in senders ==> senders'[b] == senders[b])
  }

  lemma Replaced(senders: Senders, a: Address, rest: SenderMeta)
    ensures SameElsewhere(senders, senders[a := rest], a) && a in senders[a := rest] && senders[a := rest][a] == rest
    ensures ListOf(senders[a := rest], a) == rest.msgs
  {
  }

  lemma Removed(senders: Senders, a: Address)
    ensures SameElsewhere(senders, senders - {a}, a) && a !in senders - {a}
    ensures ListOf(senders - {a}, a) == []
  {
  }

  /** The running totals, never rebased, only overstate the gas of what is taken. */
  lemma TakeGas(lists: Senders, senders: Senders, out: Pending, a: Address, n: nat, chunk: Pending)
    requires Remaining(lists, senders, out) && SoundLists(lists)
    requires a in senders && 0 < n <= |senders[a].msgs| && chunk == senders[a].msgs[..n]
    ensures |senders[a].gasLimit| == |senders[a].msgs| && Gas(out + chunk) <= Gas(out) + senders[a].gasLimit[n - 1]
    ensures senders[a].gasLimit[n - 1] == Gas(Of(out, a)) + Gas(chunk)
  {
    Parts(lists, senders, out, a);
    GasConcat(out, chunk);
    GasNonNegative(Of(out, a), a);
  }

  lemma RestCumulative(meta: SenderMeta, base: int, n: nat, chunk: Pending, rest: SenderMeta, higher: int)
    requires Cumulative(meta, base) && n <= |meta.msgs| && chunk == meta.msgs[..n]
    requires rest == SenderMeta(meta.gasReward[n..], meta.gasLimit[n..], meta.msgs[n..])
    requires higher == base + Gas(chunk)
    ensures Cumulative(rest, higher)
  {
    forall m | 0 < m <= |rest.msgs|
      ensures rest.gasLimit[m - 1] == higher + Gas(rest.msgs[..m])
    {
      var k := n + m;
      assert meta.msgs[..k] == chunk + rest.msgs[..m];
      GasConcat(chunk, rest.msgs[..m]);
      assert rest.gasLimit[m - 1] == meta.gasLimit[k - 1];
    }
  }

  function BlockRoom(gasLeft: int): Room {
    Room(Some(gasLeft), BLOCK_MESSAGE_LIMIT)
  }

  /** Part way through packing: what is left of the senders and of the gas. */
  ghost predicate Packing(lists: Senders, senders: Senders, out: Pending, choices: seq<Choice>, left: int) {
    && Remaining(lists, senders, out) && senders.Keys <= lists.Keys
    && out == Chosen(choices) && RealChoices(choices) && left == BLOCK_GAS_LIMIT - Charged(choices)
    && 0 <= left && Gas(out) + left <= BLOCK_GAS_LIMIT
  }

  /** The best prefix moves from its sender into the block. */
  method TakeBest(lists: Senders, senders: Senders, best: Address, n: nat, out: Pending, left: int, ghost choices: seq<Choice>)
    returns (senders': Senders, out': Pending, left': int, ghost choices': seq<Choice>)
    requires SoundLists(lists) && Packing(lists, senders, out, choices, left)
    requires best in senders && 0 < n && Fits(senders[best], n - 1, |out|, BlockRoom(left)) && |out| < BLOCK_MESSAGE_LIMIT
    ensures Packing(lists, senders', out', choices', left')
    ensures |out| < |out'| <= BLOCK_MESSAGE_LIMIT + 1
  {
    var meta := senders[best];
    var chunk, rest := meta.msgs[..n], SenderMeta(meta.gasReward[n..], meta.gasLimit[n..], meta.msgs[n..]);
    choices' := choices + [Choice(best, chunk)];
    TakeStep(lists, senders, out, best, n, rest, chunk, out + chunk);
    TakeGas(lists, senders, out, best, n, chunk);
    Parts(lists, senders, out, best);
    RealMore(choices, Choice(best, chunk), choices', meta.msgs);
    OneMoreChoice(choices, Choice(best, chunk), choices', out);
    out' := out + chunk;
    left' := left - meta.gasLimit[n - 1];
    senders' := if |rest.msgs| == 0 then senders - {best} else senders[best := rest];
  }

  /** Greedy packing. The block gets a prefix of every sender's run, stays within the
      gas limit, and has at most one message too many. Packing stops only when the
      block is full or nothing more fits into the gas not accounted for. */
  method PackBlock(lists: Senders, score: (int, int) -> real) returns (out: Pending, ghost choices: seq<Choice>)
    requires Scores(score) && SoundLists(lists) && FullLists(lists)
    ensures forall a :: Of(out, a) <= ListOf(lists, a)
    ensures out == Chosen(choices) && RealChoices(choices) && Gas(out) <= Charged(choices) <= BLOCK_GAS_LIMIT
    ensures |out| <= BLOCK_MESSAGE_LIMIT + 1
    ensures |out| < BLOCK_MESSAGE_LIMIT ==> NextDoesNotFit(lists, out, BLOCK_GAS_LIMIT - Charged(choices))
  {
    var gasLimitLeft := BLOCK_GAS_LIMIT;
    var senders := lists;
    var order := AllSenders(senders);
    out, choices := [], [];
    StartRemaining(lists);
    while true
      invariant |out| < BLOCK_MESSAGE_LIMIT && Packing(lists, senders, out, choices, gasLimitLeft)
      decreases BLOCK_MESSAGE_LIMIT - |out|
    {
      RemainingPriced(lists, senders, out);
      var best, nBest := BestPrefix(senders, order, |out|, BlockRoom(gasLimitLeft), score);
      if nBest == 0 {
        Stopped(lists, senders, out, gasLimitLeft);
        break;
      }
      senders, out, gasLimitLeft, choices := TakeBest(lists, senders, best, nBest, out, gasLimitLeft, choices);
      if |out| >= BLOCK_MESSAGE_LIMIT {
        break;
      }
    }
    RemainingPrefix(lists, senders, out);
  }

  lemma RealMore(choices: seq<Choice>, c: Choice, more: seq<Choice>, list: Pending)
    requires RealChoices(choices) && more == choices + [c] && c.taken != [] && c.taken <= list && AllOwn(list, c.sender)
    ensures RealChoices(more)
  {
  }

  lemma StartRemaining(lists: Senders)
    requires SoundLists(lists) && FullLists(lists)
    ensures Remaining(lists, lists, [])
  {
  }

  lemma RemainingPrefix(lists: Senders, senders: Senders, out: Pending)
    requires Remaining(lists, senders, out)
    ensures forall a :: Of(out, a) <= ListOf(lists, a)
  {
  }

  /** Running totals are positive, since every packable message costs gas. */
  lemma RemainingPriced(lists: Senders, senders: Senders, out: Pending)
    requires Remaining(lists, senders, out) && SoundLists(lists)
    ensures Priced(senders)
  {
    forall a | a in senders
      ensures WellPriced(senders[a])
    {
      Parts(lists, senders, out, a);
      GasNonNegative(Of(out, a), a);
      TotalsPositive(senders[a], a, Gas(Of(out, a)));
    }
  }

  lemma TotalsPositive(meta: SenderMeta, a: Address, base: int)
    requires Cumulative(meta, base) && base >= 0 && AllOwn(meta.msgs, a)
    ensures WellPriced(meta)
  {
    forall n | 0 <= n < |meta.msgs|
      ensures meta.gasLimit[n] > 0
    {
      var m := n + 1;
      var prefix := meta.msgs[..m];
      assert prefix == meta.msgs[..n] + [meta.msgs[n]];
      GasConcat(meta.msgs[..n], [meta.msgs[n]]);
      GasNonNegative(meta.msgs[..n], a);
      assert Gas([meta.msgs[n]]) == Gas([]) + meta.msgs[n].message.gasLimit;
      assert meta.gasLimit[m - 1] == base + Gas(prefix);
    }
  }

  ghost predicate NextDoesNotFit(lists: Senders, out: Pending, left: int) {
    forall a :: a in lists && |Of(out, a)| < |lists[a].msgs| ==>
      Gas(Of(out, a)) + lists[a].msgs[|Of(out, a)|].message.gasLimit > left
  }

  lemma Stopped(lists: Senders, senders: Senders, out: Pending, left: int)
    requires Remaining(lists, senders, out) && NothingFits(senders, |out|, BlockRoom(left)) && |out| < BLOCK_MESSAGE_LIMIT
    ensures NextDoesNotFit(lists, out, left)
  {
    forall a | a in lists && |Of(out, a)| < |lists[a].msgs|
      ensures Gas(Of(out, a)) + lists[a].msgs[|Of(out, a)|].message.gasLimit > left
    {
      assert Of(out, a) + ListOf(senders, a) == ListOf(lists, a);
      StoppedAt(senders[a], lists[a].msgs, Of(out, a), |out|, left);
    }
  }

  lemma StoppedAt(meta: SenderMeta, list: Pending, taken: Pending, outLen: nat, left: int)
    requires list == taken + meta.msgs && meta.msgs != [] && Cumulative(meta, Gas(taken))
    requires outLen < BLOCK_MESSAGE_LIMIT && !Fits(meta, 0, outLen, BlockRoom(left))
    ensures Gas(taken) + list[|taken|].message.gasLimit > left
  {
    FirstTotal(meta, Gas(taken));
    assert list[|taken|] == meta.msgs[0];
  }

  lemma FirstTotal(meta: SenderMeta, base: int)
    requires Cumulative(meta, base) && meta.msgs != []
    ensures meta.gasLimit[0] == base + meta.msgs[0].message.gasLimit
  {
    var first := meta.msgs[..1];
    assert first[..0] == [] && first[0] == meta.msgs[0];
    assert meta.gasLimit[1 - 1] == base + Gas(first);
  }
}
