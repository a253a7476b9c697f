/** What message selection (miner/selectmessages.go) keeps for each sender: a run of
    packable messages, running gas totals, the next nonce and the balance left. */
module SenderRuns {
  import opened Wrappers
  import opened Messages

  type Pending = seq<SignedMessage>

  // ----- a sender's part of a list ---------------------------------------

  ghost function Of(list: Pending, a: Address): (r: Pending)
    ensures |r| <= |list|
  {
    if list == [] then []
    else Of(list[..|list| - 1], a) + if list[|list| - 1].message.from == a then [list[|list| - 1]] else []
  }

  ghost function Gas(list: Pending): int {
    if list == [] then 0 else Gas(list[..|list| - 1]) + list[|list| - 1].message.gasLimit
  }

  ghost function Funds(list: Pending): int {
    if list == [] then 0 else Funds(list[..|list| - 1]) + RequiredFunds(list[|list| - 1].message)
  }

  lemma {:induction false} OfConcat(x: Pending, y: Pending, a: Address)
    ensures Of(x + y, a) == Of(x, a) + Of(y, a)
    decreases |y|
  {
    if y == [] {
      assert x + y == x;
    } else {
      assert (x + y)[..|x + y| - 1] == x + y[..|y| - 1];
      OfConcat(x, y[..|y| - 1], a);
    }
  }

  lemma {:induction false} OfOwn(list: Pending, a: Address, b: Address)
    requires AllOwn(list, a)
    ensures Of(list, b) == if b == a then list else []
    decreases |list|
  {
    if list != [] {
      OfOwn(list[..|list| - 1], a, b);
      assert list == list[..|list| - 1] + [list[|list| - 1]];
    }
  }

  lemma OfPrefix(list: Pending, k: nat, a: Address)
    requires k <= |list|
    ensures Of(list[..k], a) <= Of(list, a)
  {
    OfConcat(list[..k], list[k..], a);
    assert list == list[..k] + list[k..];
  }

  lemma {:induction false} GasConcat(x: Pending, y: Pending)
    ensures Gas(x + y) == Gas(x) + Gas(y)
    decreases |y|
  {
    if y == [] {
      assert x + y == x;
    } else {
      assert (x + y)[..|x + y| - 1] == x + y[..|y| - 1];
      GasConcat(x, y[..|y| - 1]);
    }
  }

  lemma {:induction false} GasNonNegative(list: Pending, a: Address)
    requires AllOwn(list, a)
    ensures Gas(list) >= 0
    decreases |list|
  {
    if list != [] {
      GasNonNegative(list[..|list| - 1], a);
    }
  }

  // ----- filtering -------------------------------------------------------

  predicate Packable(sm: SignedMessage) {
    ValidForBlockInclusion(sm.message, OnChainMessage(SignedLength(sm)))
  }

  /** Messages of one account whose nonces count up from the account's nonce and
      which its balance covers together. */
  ghost predicate Run(list: Pending, a: Address, actors: map<Address, Actor>) {
    && a in actors
    && (forall i :: 0 <= i < |list| ==> Packable(list[i]) && list[i].message.from == a && list[i].message.nonce == actors[a].nonce + i)
    && Funds(list) <= actors[a].balance
  }

  datatype SenderMeta = SenderMeta(gasReward: seq<int>, gasLimit: seq<int>, msgs: Pending)

  type Senders = map<Address, SenderMeta>

  ghost function ListOf(senders: Senders, a: Address): Pending {
    if a in senders then senders[a].msgs else []
  }

  /** Running totals over a sender's remaining messages. They start from the gas of
      what was taken before, because slicing never rebases them. */
  ghost predicate Cumulative(meta: SenderMeta, base: int) {
    && |meta.gasLimit| == |meta.gasReward| == |meta.msgs|
    && (forall m :: 0 < m <= |meta.msgs| ==> meta.gasLimit[m - 1] == base + Gas(meta.msgs[..m]))
    && (forall n :: 0 <= n < |meta.msgs| ==> meta.gasReward[n] >= 0)
  }

  ghost predicate SendersOk(senders: Senders, actors: map<Address, Actor>) {
    forall a :: a in senders ==> Run(senders[a].msgs, a, actors) && senders[a].msgs != [] && Cumulative(senders[a], 0)
  }

  ghost predicate SortedByNonce(list: Pending) {
    forall i, j :: 0 <= i < j < |list| ==> list[i].message.nonce <= list[j].message.nonce
  }

  /** Among the first `n`, a message that continues a sender's run was left out only
      for want of funds. */
  ghost predicate Maximal(list: Pending, n: int, senders: Senders, actors: map<Address, Actor>) {
    forall i :: 0 <= i < n && i < |list| ==> Continues(list[i], senders, actors) ==> !Joins(list[i], senders, actors)
  }

  ghost predicate Continues(x: SignedMessage, senders: Senders, actors: map<Address, Actor>) {
    && Packable(x) && x.message.from in actors
    && x.message.nonce == actors[x.message.from].nonce + |ListOf(senders, x.message.from)|
  }

  /** What the filter keeps: the next nonce and the remaining balance per sender. */
  ghost predicate Books(nonces: map<Address, nat>, balances: map<Address, int>, senders: Senders, actors: map<Address, Actor>) {
    && (forall a :: a in nonces ==> BookOf(a, nonces, balances, senders, actors))
    && (forall a :: a in senders ==> a in nonces)
  }

  ghost predicate BookOf(a: Address, nonces: map<Address, nat>, balances: map<Address, int>, senders: Senders, actors: map<Address, Actor>)
    requires a in nonces
  {
    && a in actors && nonces[a] == actors[a].nonce + |ListOf(senders, a)|
    && a in balances && balances[a] == actors[a].balance - Funds(ListOf(senders, a))
  }

  ghost predicate AllFrom(senders: Senders, list: Pending) {
    forall a, x :: x in ListOf(senders, a) ==> x in list
  }

  ghost predicate Joins(msg: SignedMessage, senders: Senders, actors: map<Address, Actor>) {
    && Continues(msg, senders, actors)
    && Funds(ListOf(senders, msg.message.from)) + RequiredFunds(msg.message) <= actors[msg.message.from].balance
  }

  /** A message joins its sender's run exactly when it continues it and is affordable. */
  ghost predicate Filtered(msg: SignedMessage, senders: Senders, senders': Senders, actors: map<Address, Actor>) {
    var a := msg.message.from;
    if Joins(msg, senders, actors)
    then ListOf(senders', a) == ListOf(senders, a) + [msg] && forall b :: b != a ==> ListOf(senders', b) == ListOf(senders, b)
    else senders' == senders
  }

  // ----- packing ---------------------------------------------------------

  ghost predicate AllOwn(list: Pending, a: Address) {
    forall i :: 0 <= i < |list| ==> Packable(list[i]) && list[i].message.from == a
  }

  lemma AllOwnParts(x: Pending, y: Pending, a: Address)
    requires AllOwn(x + y, a)
    ensures AllOwn(x, a) && AllOwn(y, a)
  {
    assert forall i :: 0 <= i < |x| ==> x[i] == (x + y)[i];
    assert forall i :: 0 <= i < |y| ==> y[i] == (x + y)[|x| + i];
  }

  /** The lists packing starts from: valid messages with their running totals. */
  ghost predicate SoundLists(lists: Senders) {
    forall a :: a in lists ==> AllOwn(lists[a].msgs, a)
  }

  ghost predicate FullLists(lists: Senders) {
    forall a :: a in lists ==> lists[a].msgs != [] && Cumulative(lists[a], 0)
  }

  /** A block and the rest of each sender's list make up that list. */
  ghost predicate Remaining(lists: Senders, senders: Senders, out: Pending) {
    && (forall a :: Of(out, a) + ListOf(senders, a) == ListOf(lists, a))
    && (forall a :: a in senders ==> a in lists && senders[a].msgs != [] && Cumulative(senders[a], Gas(Of(out, a))))
  }

  ghost predicate Scores(score: (int, int) -> real) {
    forall reward, gas :: reward >= 0 && gas > 0 ==> score(reward, gas) >= 0.0
  }

  ghost predicate Priced(senders: Senders) {
    forall a :: a in senders ==> WellPriced(senders[a])
  }

  ghost predicate WellPriced(meta: SenderMeta) {
    && |meta.gasLimit| == |meta.gasReward| == |meta.msgs|
    && (forall n :: 0 <= n < |meta.msgs| ==> meta.gasLimit[n] > 0 && meta.gasReward[n] >= 0)
  }

  /** The gas that may still be used, if that is limited, and the highest message index. */
  datatype Room = Room(gas: Option<int>, last: int)

  predicate Within(room: Room, gas: int) {
    room.gas.Some? ==> gas <= room.gas.value
  }

  /** The first `k + 1` messages of the sender pass both limits, one after another. */
  ghost predicate Fits(meta: SenderMeta, k: int, outLen: nat, room: Room) {
    && 0 <= k < |meta.msgs| && |meta.gasLimit| == |meta.gasReward| == |meta.msgs|
    && (forall j :: 0 <= j <= k ==> Within(room, meta.gasLimit[j]) && j + outLen <= room.last)
  }

  ghost predicate NothingFits(senders: Senders, outLen: nat, room: Room) {
    forall a, k :: a in senders ==> !Fits(senders[a], k, outLen, room)
  }

  ghost predicate Beats(senders: Senders, outLen: nat, room: Room, score: (int, int) -> real, s: real) {
    forall a, k :: a in senders && Fits(senders[a], k, outLen, room) ==> score(senders[a].gasReward[k], senders[a].gasLimit[k]) <= s
  }

  ghost predicate BestSoFar(senders: Senders, outLen: nat, room: Room, score: (int, int) -> real, best: Address, nBest: nat, s: real) {
    && (nBest == 0 ==> s == 0.0)
    && (nBest > 0 ==> best in senders && Fits(senders[best], nBest - 1, outLen, room))
    && (nBest > 0 ==> s == score(senders[best].gasReward[nBest - 1], senders[best].gasLimit[nBest - 1]))
  }

  // ----- the choices made ------------------------------------------------

  /** One choice: the next messages of one sender. */
  datatype Choice = Choice(sender: Address, taken: Pending)

  ghost function Chosen(choices: seq<Choice>): Pending {
    if choices == [] then [] else Chosen(choices[..|choices| - 1]) + choices[|choices| - 1].taken
  }

  /** Every choice takes something, all of it from its sender. */
  ghost predicate RealChoices(choices: seq<Choice>) {
    forall i :: 0 <= i < |choices| ==> choices[i].taken != [] && AllOwn(choices[i].taken, choices[i].sender)
  }

  /** The gas accounted for: a choice is charged for all the sender gave so far, since
      running totals are not rebased. */
  ghost function Charged(choices: seq<Choice>): int {
    if choices == [] then 0 else
    var before, last := Chosen(choices[..|choices| - 1]), choices[|choices| - 1];
    Charged(choices[..|choices| - 1]) + Gas(Of(before, last.sender)) + Gas(last.taken)
  }

  lemma OneMoreChoice(choices: seq<Choice>, c: Choice, more: seq<Choice>, out: Pending)
    requires more == choices + [c] && out == Chosen(choices)
    ensures Chosen(more) == out + c.taken && Charged(more) == Charged(choices) + Gas(Of(out, c.sender)) + Gas(c.taken)
  {
    assert more[..|choices|] == choices;
  }
}
