/** The nonce the pool hands out (chain/messagepool/messagepool.go, `getStateNonce`) against
    the slots the current tipset takes: it counts the messages listed for the tipset
    (chain/store/store.go, `MessagesForTipset`), and a message its sender cannot pay for is
    on the chain but not listed. */
module HeadNonces {
  import opened Wrappers
  import opened Messages
  import opened BlockRules
  import opened TipsetMessages
  import opened Receipts
  import opened PoolState
  import opened ReorgSlots

  // ----- the state nonce -------------------------------------------------

  ghost function Sent(msgs: Msgs, a: Address): seq<nat> {
    if msgs == [] then [] else
    var m := VmMessage(msgs[|msgs| - 1]);
    Sent(msgs[..|msgs| - 1], a) + if m.from == a then [m.nonce] else []
  }

  ghost predicate CountsUp(nonces: seq<nat>, base: nat) {
    forall i :: 0 <= i < |nonces| ==> nonces[i] == base + i
  }

  /** The nonce after the listed messages of the current tipset. */
  method StateNonce(actor: Option<Actor>, listed: Option<Msgs>, a: Address) returns (r: Option<nat>)
    ensures r.Some? <==> actor.Some? && listed.Some? && CountsUp(Sent(listed.value, a), actor.value.nonce)
    ensures r.Some? ==> r.value == actor.value.nonce + |Sent(listed.value, a)|
  {
    if actor.None? {
      return None;
    }
    var baseNonce := actor.value.nonce;
    if listed.None? {
      return None;
    }
    var msgs := listed.value;
    for i := 0 to |msgs|
      invariant CountsUp(Sent(msgs[..i], a), actor.value.nonce) && baseNonce == actor.value.nonce + |Sent(msgs[..i], a)|
    {
      assert msgs[..i + 1][..i] == msgs[..i];
      var msg := VmMessage(msgs[i]);
      if msg.from == a {
        if msg.nonce != baseNonce {
          BadOrder(msgs, i, a, actor.value.nonce);
          return None;
        }
        baseNonce := baseNonce + 1;
      }
    }
    assert msgs[..|msgs|] == msgs;
    return Some(baseNonce);
  }

  lemma {:induction false} SentPrefix(msgs: Msgs, n: nat, a: Address)
    requires n <= |msgs|
    ensures Sent(msgs[..n], a) <= Sent(msgs, a)
    decreases |msgs|
  {
    if n == |msgs| {
      assert msgs[..n] == msgs;
    } else {
      assert msgs[..n] == msgs[..|msgs| - 1][..n];
      SentPrefix(msgs[..|msgs| - 1], n, a);
    }
  }

  lemma BadOrder(msgs: Msgs, i: nat, a: Address, base: nat)
    requires i < |msgs| && VmMessage(msgs[i]).from == a && VmMessage(msgs[i]).nonce != base + |Sent(msgs[..i], a)|
    ensures !CountsUp(Sent(msgs, a), base)
  {
    assert msgs[..i + 1][..i] == msgs[..i];
    SentPrefix(msgs, i + 1, a);
    assert Sent(msgs, a)[|Sent(msgs[..i], a)|] == VmMessage(msgs[i]).nonce;
  }

  /** Not below the state nonce, and within the sender's balance. */
  ghost predicate Admitted(m: Message, actor: Option<Actor>, listed: Option<Msgs>) {
    && actor.Some? && listed.Some? && CountsUp(Sent(listed.value, m.from), actor.value.nonce)
    && m.nonce >= actor.value.nonce + |Sent(listed.value, m.from)|
    && RequiredFunds(m) <= actor.value.balance
  }

  method CheckState(m: Message, actor: Option<Actor>, listed: Option<Msgs>) returns (ok: bool)
    ensures ok <==> Admitted(m, actor, listed)
  {
    var nonce := StateNonce(actor, listed, m.from);
    if nonce.None? {
      return false;
    }
    if nonce.value > m.nonce {
      return false;
    }
    if actor.value.balance < RequiredFunds(m) {
      return false;
    }
    return true;
  }

  // ----- what a tipset lists of one sender -------------------------------

  lemma SentAppend(msgs: Msgs, cm: ChainMsg, a: Address)
    ensures Sent(msgs + [cm], a) == Sent(msgs, a) + if VmMessage(cm).from == a then [VmMessage(cm).nonce] else []
    ensures msgs + [] == msgs
  {
    assert (msgs + [cm])[..|msgs|] == msgs;
  }

  /** The sender's messages taken in turn count up to the next nonce. */
  lemma {:induction false} TakenCounts(msgs: Msgs, actors: map<Address, Actor>, a: Address)
    requires a in actors
    ensures CountsUp(Sent(Taken(msgs, actors), a), actors[a].nonce)
    ensures actors[a].nonce + |Sent(Taken(msgs, actors), a)| == Next(msgs, a, actors[a].nonce)
    decreases |msgs|
  {
    if msgs != [] {
      var rest, last := msgs[..|msgs| - 1], msgs[|msgs| - 1];
      TakenCounts(rest, actors, a);
      SentAppend(Taken(rest, actors), last, a);
    }
  }

  /** No more is listed than taken; if as much, it costs the same. */
  lemma {:induction false} ListedFewer(msgs: Msgs, actors: map<Address, Actor>, a: Address)
    ensures |Sent(Listed(msgs, actors), a)| <= |Sent(Taken(msgs, actors), a)|
    ensures |Sent(Listed(msgs, actors), a)| == |Sent(Taken(msgs, actors), a)| ==>
      CostFrom(Listed(msgs, actors), a) == CostFrom(Taken(msgs, actors), a)
    decreases |msgs|
  {
    if msgs != [] {
      var rest, last := msgs[..|msgs| - 1], msgs[|msgs| - 1];
      ListedFewer(rest, actors, a);
      SentAppend(Taken(rest, actors), last, a);
      SentAppend(Listed(rest, actors), last, a);
      CostAppend(Taken(rest, actors), last, a);
      CostAppend(Listed(rest, actors), last, a);
    }
  }

  /** A sender who can pay for everything taken has everything listed. */
  lemma {:induction false} PaidIsListed(msgs: Msgs, actors: map<Address, Actor>, a: Address)
    requires Solvent(msgs, actors) && a in actors && CostFrom(Taken(msgs, actors), a) <= actors[a].balance
    ensures Sent(Listed(msgs, actors), a) == Sent(Taken(msgs, actors), a)
    ensures CostFrom(Listed(msgs, actors), a) == CostFrom(Taken(msgs, actors), a)
    decreases |msgs|
  {
    if msgs != [] {
      var rest, last := msgs[..|msgs| - 1], msgs[|msgs| - 1];
      CostOfTakenGrows(msgs, actors, a);
      PaidIsListed(rest, actors, a);
      SentAppend(Taken(rest, actors), last, a);
      SentAppend(Listed(rest, actors), last, a);
      CostAppend(Taken(rest, actors), last, a);
      CostAppend(Listed(rest, actors), last, a);
    }
  }

  /** The sender can pay for its messages in the tipset. */
  ghost predicate Pays(blocks: seq<Block>, actors: map<Address, Actor>, a: Address)
    requires a in actors
  {
    CostFrom(Taken(AllMessages(blocks), actors), a) <= actors[a].balance
  }

  lemma ListsAllExactly(blocks: seq<Block>, actors: map<Address, Actor>, a: Address)
    requires Solvent(AllMessages(blocks), actors) && a in actors
    ensures Pays(blocks, actors, a) <==>
      actors[a].nonce + |Sent(Listed(AllMessages(blocks), actors), a)| == Next(AllMessages(blocks), a, actors[a].nonce)
  {
    var all := AllMessages(blocks);
    TakenCounts(all, actors, a);
    ListedFewer(all, actors, a);
    ListedWithinBalance(all, actors, a);
    if Pays(blocks, actors, a) {
      PaidIsListed(all, actors, a);
    }
  }

  // ----- the slots of a tipset -------------------------------------------

  /** Every message lies below the next nonce of its sender. */
  ghost predicate AllBelow(msgs: Msgs, actors: map<Address, Actor>) {
    forall i :: 0 <= i < |msgs| ==> BelowNext(msgs[i], msgs, actors)
  }

  lemma BelowStep(done: Msgs, cm: ChainMsg, more: Msgs, actors: map<Address, Actor>)
    requires AllBelow(done, actors) && more == done + [cm] && BelowNext(cm, more, actors)
    ensures AllBelow(more, actors)
  {
    forall i | 0 <= i < |more|
      ensures BelowNext(more[i], more, actors)
    {
      if i < |done| {
        var m := VmMessage(done[i]);
        assert BelowNext(done[i], done, actors);
        NextGrows(done, cm, m.from, actors[m.from].nonce);
      }
    }
  }

  lemma {:induction false} BlockBelow(done: Msgs, block: Msgs, k: nat, actors: map<Address, Actor>)
    requires AllBelow(done, actors) && BlockInTurn(block, actors) && Through(done, [], actors) && k <= |block|
    ensures AllBelow(done + block[..k], actors) && Through(done + block[..k], block[..k], actors)
    decreases k
  {
    if k == 0 {
      assert done + block[..0] == done;
    } else {
      var i := k - 1;
      var part, cm, longer := block[..i], block[i], block[..k];
      var before, after := done + part, done + longer;
      BlockBelow(done, block, i, actors);
      Slices(done, block, i, k);
      assert NonceInTurn(block, i, actors);
      ThroughStep(before, part, cm, after, longer, actors);
      assert longer[..|part|] == part;
      BelowStep(before, cm, after, actors);
    }
  }

  lemma {:induction false} TipsetBelow(blocks: seq<Block>, actors: map<Address, Actor>)
    requires EveryBlockInTurn(blocks, actors)
    ensures AllBelow(AllMessages(blocks), actors)
    decreases |blocks|
  {
    if blocks != [] {
      var n := |blocks| - 1;
      var rest, block := AllMessages(blocks[..n]), BlockMessages(blocks[n].bls, blocks[n].secpk);
      TipsetBelow(blocks[..n], actors);
      forall a | a in actors
        ensures actors[a].nonce + CountFrom([], a) <= Next(rest, a, actors[a].nonce)
      {
        NextFromNonce(rest, a, actors[a].nonce);
      }
      BlockBelow(rest, block, |block|, actors);
      assert block[..|block|] == block;
    }
  }

  /** Every nonce below the next one was used. */
  lemma {:induction false} NextWasReached(msgs: Msgs, a: Address, nonce: nat, n: nat) returns (m: Message)
    requires nonce <= n < Next(msgs, a, nonce)
    ensures m in Seen(msgs) && SlotOf(m) == Slot(a, n)
    decreases |msgs|
  {
    var rest, last := msgs[..|msgs| - 1], msgs[|msgs| - 1];
    if n < Next(rest, a, nonce) {
      m := NextWasReached(rest, a, nonce, n);
      var i :| 0 <= i < |rest| && VmMessage(rest[i]) == m;
      assert VmMessage(msgs[i]) == m;
    } else {
      m := VmMessage(last);
      assert VmMessage(msgs[|msgs| - 1]) == m;
    }
  }

  ghost function Loaded(blocks: seq<Block>): seq<Option<Block>> {
    seq(|blocks|, i requires 0 <= i < |blocks| => Some(blocks[i]))
  }

  ghost predicate Uses(msgs: Msgs, s: Slot) {
    exists i :: 0 <= i < |msgs| && SlotOf(VmMessage(msgs[i])) == s
  }

  lemma BlockUses(b: Block, s: Slot)
    ensures s in SlotsOf(b) <==> Uses(BlockMessages(b.bls, b.secpk), s)
  {
    var (slots, msgs, n) := (SlotsOf(b), BlockMessages(b.bls, b.secpk), |b.secpk|);
    forall i | 0 <= i < |slots| && slots[i] == s
      ensures Uses(msgs, s)
    {
      assert SlotOf(VmMessage(msgs[if i < n then |b.bls| + i else i - n])) == s;
    }
    forall i | 0 <= i < |msgs| && SlotOf(VmMessage(msgs[i])) == s
      ensures s in slots
    {
      assert slots[if i < |b.bls| then n + i else i - |b.bls|] == s;
    }
  }

  lemma UsesConcat(x: Msgs, y: Msgs, s: Slot)
    ensures Uses(x + y, s) <==> Uses(x, s) || Uses(y, s)
  {
    var z := x + y;
    assert forall i :: 0 <= i < |x| ==> z[i] == x[i];
    forall i | 0 <= i < |y| && SlotOf(VmMessage(y[i])) == s
      ensures Uses(z, s)
    {
      assert z[|x| + i] == y[i];
    }
  }

  lemma {:induction false} TipUses(blocks: seq<Block>, s: Slot)
    ensures s in TipSlots(Loaded(blocks)) <==> Uses(AllMessages(blocks), s)
    decreases |blocks|
  {
    if blocks != [] {
      var rest, last := blocks[..|blocks| - 1], blocks[|blocks| - 1];
      assert Loaded(blocks)[..|blocks| - 1] == Loaded(rest);
      TipUses(rest, s);
      BlockUses(last, s);
      UsesConcat(AllMessages(rest), BlockMessages(last.bls, last.secpk), s);
    }
  }

  // ----- chain and state -------------------------------------------------

  /** What the state of the current tipset says of the chain: `blocks` is the top of the chain,
      its blocks are valid on `actors`, and what lies below was executed before. */
  ghost predicate AtHead(chain: seq<Tip>, blocks: seq<Block>, actors: map<Address, Actor>) {
    && chain != [] && chain[|chain| - 1].blocks == Loaded(blocks)
    && EveryBlockInTurn(blocks, actors) && Solvent(AllMessages(blocks), actors)
    && (forall s: Slot :: OnChain(chain[..|chain| - 1], s) && s.from in actors ==> s.nonce < actors[s.from].nonce)
  }

  lemma OnTop(chain: seq<Tip>, s: Slot)
    requires chain != []
    ensures OnChain(chain, s) <==> OnChain(chain[..|chain| - 1], s) || s in TipSlots(chain[|chain| - 1].blocks)
  {
    var rest := chain[..|chain| - 1];
    assert forall i :: 0 <= i < |rest| ==> rest[i] == chain[i];
  }

  /** From the account's nonce on, the chain uses exactly the slots below the next nonce. */
  lemma HeadSlots(chain: seq<Tip>, blocks: seq<Block>, actors: map<Address, Actor>, a: Address, n: nat)
    requires AtHead(chain, blocks, actors) && a in actors && n >= actors[a].nonce
    ensures OnChain(chain, Slot(a, n)) <==> n < Next(AllMessages(blocks), a, actors[a].nonce)
  {
    var all, s := AllMessages(blocks), Slot(a, n);
    OnTop(chain, s);
    TipUses(blocks, s);
    TipsetBelow(blocks, actors);
    if Uses(all, s) {
      var i :| 0 <= i < |all| && SlotOf(VmMessage(all[i])) == s;
      assert BelowNext(all[i], all, actors);
    }
    if n < Next(all, a, actors[a].nonce) {
      var m := NextWasReached(all, a, actors[a].nonce, n);
      var i :| 0 <= i < |all| && VmMessage(all[i]) == m;
    }
  }

  /** The nonces from the state nonce on are all off the chain exactly when the sender can pay
      for its messages in the current tipset. */
  lemma FreeExactly(chain: seq<Tip>, blocks: seq<Block>, actors: map<Address, Actor>, a: Address, listed: Msgs)
    requires AtHead(chain, blocks, actors) && a in actors && listed == Listed(AllMessages(blocks), actors)
    ensures (forall n: nat :: n >= actors[a].nonce + |Sent(listed, a)| ==> !OnChain(chain, Slot(a, n))) <==> Pays(blocks, actors, a)
  {
    var all := AllMessages(blocks);
    var free, next := actors[a].nonce + |Sent(listed, a)|, Next(all, a, actors[a].nonce);
    ListsAllExactly(blocks, actors, a);
    TakenCounts(all, actors, a);
    ListedFewer(all, actors, a);
    forall n: nat | n >= free
      ensures OnChain(chain, Slot(a, n)) <==> n < next
    {
      HeadSlots(chain, blocks, actors, a, n);
    }
    assert free < next ==> OnChain(chain, Slot(a, free));
  }

  // ----- a message its sender cannot pay for -----------------------------

  /** A tipset of one block with one message, which its sender cannot pay for: nothing is listed,
      and any message its sender can pay for is admitted to the slot that is on the chain. */
  lemma UnpaidIsAdmitted(m: Message, cheap: Message, actors: map<Address, Actor>, blocks: seq<Block>, chain: seq<Tip>)
    requires m.from in actors && m.nonce == actors[m.from].nonce && RequiredFunds(m) > actors[m.from].balance
    requires blocks == [Block([m], [])] && chain == [Tip(true, Loaded(blocks))]
    requires SlotOf(cheap) == SlotOf(m) && RequiredFunds(cheap) <= actors[m.from].balance
    ensures Listed(AllMessages(blocks), actors) == [] && !Pays(blocks, actors, m.from)
    ensures Admitted(cheap, Some(actors[m.from]), Some([])) && OnChain(chain, SlotOf(cheap))
  {
    var all := AllMessages(blocks);
    assert blocks[..0] == [];
    assert all == [Bare(m)] && all[..0] == [];
    assert Taken(all, actors) == [Bare(m)] && Taken(all, actors)[..0] == [];
    assert Uses(all, SlotOf(m));
    TipUses(blocks, SlotOf(m));
    assert SlotOf(cheap) in TipSlots(chain[0].blocks);
  }

  /** Such a block is acceptable: block validation checks nonces, not balances. */
  lemma UnpaidExample() returns (actors: map<Address, Actor>, blocks: seq<Block>, chain: seq<Tip>, cheap: Message)
    ensures cheap.from in actors && |blocks| == 1 && Acceptable(BlockMessages(blocks[0].bls, blocks[0].secpk), actors)
    ensures AtHead(chain, blocks, actors) && NonRepeating(chain)
    ensures Admitted(cheap, Some(actors[cheap.from]), Some(Listed(AllMessages(blocks), actors))) && OnChain(chain, SlotOf(cheap))
  {
    var sender: Address, gas: Int64, price := 1000, 1_000_000, 100;
    var m := Message(0, 1001, sender, 5, 0, price, gas, 0, 100);
    cheap := m.(gasPrice := 0);
    actors, blocks := map[sender := Actor(true, 5, 10)], [Block([m], [])];
    chain := [Tip(true, Loaded(blocks))];
    TimesIsProduct(price, gas);
    TimesIsProduct(0, gas);
    UnpaidIsAdmitted(m, cheap, actors, blocks, chain);
    var msgs := BlockMessages([m], []);
    assert msgs == [Bare(m)] && msgs[..0] == [];
    assert TotalGas(msgs) == gas && NonceInTurn(msgs, 0, actors);
    assert AllMessages(blocks[..0]) == [] && AllMessages(blocks) == msgs;
    assert chain[..0] == [];
  }
}
