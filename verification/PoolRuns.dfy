/** Runs of the message pool (chain/messagepool/messagepool.go): adding, handing out
    nonces, pruning and following the chain, and when a pending message is already on it. */
module PoolRuns {
  import opened Wrappers
  import opened Messages
  import opened BlockRules
  import opened TipsetMessages
  import opened HeadNonces
  import opened PoolState
  import opened MessagePool
  import opened ReorgSlots
  import opened PoolReorg
  import opened SenderRuns
  import opened Pruning

  /** Within the gas limit, and outbidding what is in its slot. */
  ghost predicate Accepts(pending: Slots, m: SignedMessage) {
    && m.message.gasLimit <= BLOCK_GAS_LIMIT
    && (Holds(pending, SlotOf(m.message)) ==> MayReplace(m, pending[m.message.from].msgs[m.message.nonce]))
  }

  /** What the current tipset's state and message list are to the pool. */
  ghost predicate Reads(chain: seq<Tip>, blocks: seq<Block>, actors: map<Address, Actor>, listed: Option<Msgs>) {
    AtHead(chain, blocks, actors) && listed == Some(Listed(AllMessages(blocks), actors))
  }

  function ActorOf(actors: map<Address, Actor>, a: Address): Option<Actor> {
    if a in actors then Some(actors[a]) else None
  }

  /** Which slots of the chain a nonce not below the state nonce still runs into. */
  ghost predicate RunsInto(chain: seq<Tip>, blocks: seq<Block>, actors: map<Address, Actor>, a: Address, r: nat)
    requires a in actors
  {
    && (forall n: nat :: n >= r ==> (OnChain(chain, Slot(a, n)) <==> n < Next(AllMessages(blocks), a, actors[a].nonce)))
    && (Pays(blocks, actors, a) ==> forall n: nat :: n >= r ==> !OnChain(chain, Slot(a, n)))
  }

  lemma RunsIntoExactly(chain: seq<Tip>, blocks: seq<Block>, actors: map<Address, Actor>, listed: Msgs, a: Address, r: nat)
    requires Reads(chain, blocks, actors, Some(listed)) && a in actors && r >= actors[a].nonce + |Sent(listed, a)|
    ensures RunsInto(chain, blocks, actors, a, r)
  {
    forall n: nat | n >= r
      ensures OnChain(chain, Slot(a, n)) <==> n < Next(AllMessages(blocks), a, actors[a].nonce)
    {
      HeadSlots(chain, blocks, actors, a, n);
    }
    FreeExactly(chain, blocks, actors, a, listed);
  }

  /** An admitted message is on the chain exactly when the current tipset holds its slot without
      listing it, and that cannot be if its sender pays for its messages there. */
  lemma AdmittedOnChain(chain: seq<Tip>, blocks: seq<Block>, actors: map<Address, Actor>, listed: Option<Msgs>, m: Message)
    requires Reads(chain, blocks, actors, listed) && Admitted(m, ActorOf(actors, m.from), listed)
    ensures OnChain(chain, SlotOf(m)) <==> m.nonce < Next(AllMessages(blocks), m.from, actors[m.from].nonce)
    ensures Pays(blocks, actors, m.from) ==> !OnChain(chain, SlotOf(m))
  {
    HeadSlots(chain, blocks, actors, m.from, m.nonce);
    FreeExactly(chain, blocks, actors, m.from, listed.value);
  }

  lemma {:induction false} SignedFrom(bls: seq<Message>, sigs: Sigs, m: SignedMessage)
    requires m in Resigned(bls, sigs)
    ensures m.message in bls
  {
    var last := bls[|bls| - 1];
    if !(last in sigs && m == SignedMessage(last, sigs[last])) {
      SignedFrom(bls[..|bls| - 1], sigs, m);
    }
  }

  lemma InSlotsOf(b: Block, sigs: Sigs, m: SignedMessage)
    requires m in b.secpk + Resigned(b.bls, sigs)
    ensures SlotOf(m.message) in SlotsOf(b)
  {
    if m in b.secpk {
      var i :| 0 <= i < |b.secpk| && b.secpk[i] == m;
      assert SlotsOf(b)[i] == SlotOf(m.message);
    } else {
      SignedFrom(b.bls, sigs, m);
      var i :| 0 <= i < |b.bls| && b.bls[i] == m.message;
      assert SlotsOf(b)[|b.secpk| + i] == SlotOf(m.message);
    }
  }

  lemma {:induction false} InTipSlots(blocks: seq<Option<Block>>, sigs: Sigs, m: SignedMessage)
    requires m in TipRecovered(blocks, sigs)
    ensures SlotOf(m.message) in TipSlots(blocks)
  {
    var front, last := blocks[..|blocks| - 1], blocks[|blocks| - 1];
    if m in TipRecovered(front, sigs) {
      InTipSlots(front, sigs, m);
    } else {
      InSlotsOf(last.value, sigs, m);
    }
  }

  /** A recovered message occupies a slot of some reverted tipset. */
  lemma {:induction false} RecoveredFrom(tips: seq<Tip>, sigs: Sigs, m: SignedMessage) returns (i: nat)
    requires m in ChainRecovered(tips, sigs)
    ensures i < |tips| && SlotOf(m.message) in TipSlots(tips[i].blocks)
  {
    var front, last := tips[..|tips| - 1], tips[|tips| - 1];
    if m in ChainRecovered(front, sigs) {
      i := RecoveredFrom(front, sigs, m);
    } else {
      i := |tips| - 1;
      InTipSlots(last.blocks, sigs, m);
    }
  }

  /** A recovered message was on the chain, and is not on what remains of it. */
  lemma RecoveredOnTop(chain: seq<Tip>, revert: seq<Tip>, sigs: Sigs, m: SignedMessage)
    requires IsTop(chain, revert) && NonRepeating(chain) && m in ChainRecovered(revert, sigs)
    ensures OnChain(chain, SlotOf(m.message)) && !OnChain(chain[..|chain| - |revert|], SlotOf(m.message))
  {
    var i := RecoveredFrom(revert, sigs, m);
    var j, rest, s := |chain| - 1 - i, chain[..|chain| - |revert|], SlotOf(m.message);
    assert chain[j] == revert[i];
    forall k | 0 <= k < |rest|
      ensures s !in TipSlots(rest[k].blocks)
    {
      assert chain[k] == rest[k] && k < j;
    }
  }

  lemma {:induction false} InChainSlots(tips: seq<Tip>, i: nat, s: Slot)
    requires i < |tips| && s in TipSlots(tips[i].blocks)
    ensures s in ChainSlots(tips)
    decreases |tips|
  {
    if i < |tips| - 1 {
      InChainSlots(tips[..|tips| - 1], i, s);
    }
  }

  lemma OnEither(rest: seq<Tip>, apply: seq<Tip>, s: Slot)
    requires OnChain(rest + apply, s)
    ensures OnChain(rest, s) || s in ChainSlots(apply)
  {
    var i :| 0 <= i < |rest + apply| && s in TipSlots((rest + apply)[i].blocks);
    if i < |rest| {
      assert rest[i] == (rest + apply)[i];
    } else {
      InChainSlots(apply, i - |rest|, s);
    }
  }

  lemma OnRest(chain: seq<Tip>, n: nat, s: Slot)
    requires n <= |chain| && OnChain(chain[..n], s)
    ensures OnChain(chain, s)
  {
    var i :| 0 <= i < n && s in TipSlots(chain[..n][i].blocks);
    assert chain[i] == chain[..n][i];
  }

  /** A slot that was not applied and is on the new chain was on the old one, below what was reverted. */
  lemma OnRemaining(chain: seq<Tip>, n: nat, apply: seq<Tip>, s: Slot)
    requires n <= |chain| && OnChain(chain[..n] + apply, s) && s !in ChainSlots(apply)
    ensures OnChain(chain[..n], s) && OnChain(chain, s)
  {
    OnEither(chain[..n], apply, s);
    OnRest(chain, n, s);
  }

  /** A recovered message was on the chain, so its slot is not pending, and is not on what remains. */
  lemma RecoveredApart(pending: Slots, chain: seq<Tip>, revert: seq<Tip>, sigs: Sigs, s: Slot)
    requires NotOnChain(pending, chain) && IsTop(chain, revert) && NonRepeating(chain)
    requires s in BySlot(ChainRecovered(revert, sigs))
    ensures !Holds(pending, s) && !OnChain(chain[..|chain| - |revert|], s)
  {
    BySlotMeaning(ChainRecovered(revert, sigs), s);
    RecoveredOnTop(chain, revert, sigs, BySlot(ChainRecovered(revert, sigs))[s]);
  }

  lemma FollowedOffChainAt(pending: Slots, pending': Slots, chain: seq<Tip>, revert: seq<Tip>, apply: seq<Tip>, sigs: Sigs,
                           stored: SignedMessage -> bool, s: Slot)
    requires NotOnChain(pending, chain) && IsTop(chain, revert) && NonRepeating(chain)
    requires FollowedAt(pending, pending', BySlot(ChainRecovered(revert, sigs)), ChainSlots(apply), stored, s)
    ensures OnChain(chain[..|chain| - |revert|] + apply, s) ==> !Holds(pending', s)
  {
    var n, back := |chain| - |revert|, BySlot(ChainRecovered(revert, sigs));
    if s in back {
      RecoveredApart(pending, chain, revert, sigs, s);
    }
    if OnChain(chain[..n] + apply, s) && s !in ChainSlots(apply) {
      OnRemaining(chain, n, apply, s);
    }
  }

  /** Following the chain keeps pool and chain apart. */
  lemma FollowedOffChain(pending: Slots, pending': Slots, chain: seq<Tip>, revert: seq<Tip>, apply: seq<Tip>, sigs: Sigs, stored: SignedMessage -> bool)
    requires NotOnChain(pending, chain) && IsTop(chain, revert) && NonRepeating(chain)
    requires Followed(pending, pending', BySlot(ChainRecovered(revert, sigs)), ChainSlots(apply), stored)
    ensures NotOnChain(pending', chain[..|chain| - |revert|] + apply)
  {
    forall s | Holds(pending', s)
      ensures !OnChain(chain[..|chain| - |revert|] + apply, s)
    {
      assert FollowedAt(pending, pending', BySlot(ChainRecovered(revert, sigs)), ChainSlots(apply), stored, s);
      FollowedOffChainAt(pending, pending', chain, revert, apply, sigs, stored, s);
    }
  }

  lemma AddedOffChain(pending: Slots, pending': Slots, m: SignedMessage, chain: seq<Tip>, ok: bool)
    requires NotOnChain(pending, chain) && (ok ==> !OnChain(chain, SlotOf(m.message)))
    requires if ok then Put(pending, pending', m) else Same(pending, pending')
    ensures NotOnChain(pending', chain)
  {
    forall s | Holds(pending', s)
      ensures !OnChain(chain, s)
    {
      assert s != SlotOf(m.message) || !ok ==> SameAt(pending, pending', s);
    }
  }

  lemma LessOffChain(pending: Slots, pending': Slots, chain: seq<Tip>)
    requires NotOnChain(pending, chain) && OnlyLost(pending, pending')
    ensures NotOnChain(pending', chain)
  {
  }

  function Larger(x: nat, y: nat): nat {
    if x <= y then y else x
  }

  ghost function Without(msgs: seq<SignedMessage>, m: Message): seq<SignedMessage> {
    if msgs == [] then [] else
    var last := msgs[|msgs| - 1];
    Without(msgs[..|msgs| - 1], m) + if last.message == m then [] else [last]
  }

  lemma WithoutAppend(msgs: seq<SignedMessage>, x: SignedMessage, m: Message)
    ensures Without(msgs + [x], m) == Without(msgs, m) + if x.message == m then [] else [x]
    ensures msgs + [] == msgs
  {
    assert (msgs + [x])[..|msgs|] == msgs;
  }

  lemma {:induction false} SignedWithout(bls: seq<Message>, sigs: Sigs, m: Message)
    ensures Resigned(bls, sigs - {m}) == Without(Resigned(bls, sigs), m)
    decreases |bls|
  {
    if bls != [] {
      var rest, last := bls[..|bls| - 1], bls[|bls| - 1];
      SignedWithout(rest, sigs, m);
      if last in sigs {
        WithoutAppend(Resigned(rest, sigs), SignedMessage(last, sigs[last]), m);
      } else {
        assert Resigned(rest, sigs) + [] == Resigned(rest, sigs);
      }
    }
  }

  // ----- the pool --------------------------------------------------------

  /** Exactly the admitted messages that the store takes and that outbid their slot are added. */
  ghost predicate Added(pending: Slots, pending': Slots, sigs': Sigs, m: SignedMessage, actors: map<Address, Actor>,
                        listed: Option<Msgs>, stored: bool, ok: bool) {
    && (ok <==> Admitted(m.message, ActorOf(actors, m.message.from), listed) && stored && Accepts(pending, m))
    && (if ok then Put(pending, pending', m) else Same(pending, pending'))
    && (ok && m.signature.kind.Bls? ==> m.message in sigs' && sigs'[m.message] == m.signature)
  }

  /** Where an added message stands to the chain: on it exactly when the current tipset holds its
      slot, which cannot be if its sender pays for its messages there. */
  ghost predicate AddedTo(chain: seq<Tip>, blocks: seq<Block>, actors: map<Address, Actor>, pending: Slots, pending': Slots, m: Message, ok: bool) {
    && (ok ==> m.from in actors && (OnChain(chain, SlotOf(m)) <==> m.nonce < Next(AllMessages(blocks), m.from, actors[m.from].nonce)))
    && (NotOnChain(pending, chain) && (m.from in actors ==> Pays(blocks, actors, m.from)) ==> NotOnChain(pending', chain))
  }

  lemma AddedToExactly(chain: seq<Tip>, blocks: seq<Block>, actors: map<Address, Actor>, listed: Option<Msgs>, stored: bool,
                       pending: Slots, pending': Slots, sigs': Sigs, m: SignedMessage, ok: bool)
    requires Reads(chain, blocks, actors, listed) && Added(pending, pending', sigs', m, actors, listed, stored, ok)
    ensures AddedTo(chain, blocks, actors, pending, pending', m.message, ok)
  {
    if ok {
      AdmittedOnChain(chain, blocks, actors, listed, m.message);
    }
    if NotOnChain(pending, chain) && (ok ==> !OnChain(chain, SlotOf(m.message))) {
      AddedOffChain(pending, pending', m, chain, ok);
    }
  }

  method AddChecked(pending: Slots, size: int, sigs: Sigs, m: SignedMessage, actors: map<Address, Actor>, listed: Option<Msgs>, stored: bool)
    returns (pending': Slots, size': int, sigs': Sigs, ok: bool)
    requires PoolOk(pending, size)
    ensures PoolOk(pending', size') && Added(pending, pending', sigs', m, actors, listed, stored, ok)
  {
    pending', size', sigs' := pending, size, sigs;
    ok := CheckState(m.message, ActorOf(actors, m.message.from), listed);
    if !ok {
      return;
    }
    if m.signature.kind.Bls? {
      sigs' := sigs'[m.message := m.signature];
    }
    pending', size', ok := AddLocked(pending', size', m, stored);
  }

  /** What a head change does to the pool. */
  ghost predicate Reorganised(pending: Slots, pending': Slots, chain: seq<Tip>, chain': seq<Tip>, revert: seq<Tip>, apply: seq<Tip>,
                              sigs: Sigs, stored: SignedMessage -> bool, ok: bool) {
    && (ok <==> AllReadable(revert, apply))
    && (ok ==> Followed(pending, pending', BySlot(ChainRecovered(revert, sigs)), ChainSlots(apply), stored))
    && (!ok ==> OnlyLost(pending, pending'))
    && (ok && NotOnChain(pending, chain) && NonRepeating(chain) ==> NotOnChain(pending', chain'))
  }

  method FollowChain(pending: Slots, size: int, sigs: Sigs, revert: seq<Tip>, apply: seq<Tip>, stored: SignedMessage -> bool, ghost chain: seq<Tip>)
    returns (pending': Slots, size': int, ok: bool, ghost chain': seq<Tip>)
    requires PoolOk(pending, size) && IsTop(chain, revert)
    ensures PoolOk(pending', size') && chain' == chain[..|chain| - |revert|] + apply
    ensures Reorganised(pending, pending', chain, chain', revert, apply, sigs, stored, ok)
  {
    pending', size', ok := FollowHead(pending, size, sigs, revert, apply, stored);
    chain' := chain[..|chain| - |revert|] + apply;
    if ok && NotOnChain(pending, chain) && NonRepeating(chain) {
      FollowedOffChain(pending, pending', chain, revert, apply, sigs, stored);
    }
  }

  class Pool {
    var pending: Slots
    var currentSize: int
    var blsSigs: Sigs            // a cache: entries may vanish
    ghost var chain: seq<Tip>    // the chain followed, oldest first

    /** The counter is right, every message sits in its own slot below its sender's
        next nonce, and no sender set is empty. */
    ghost predicate Valid()
      reads this
    {
      PoolOk(pending, currentSize)
    }

    /** Nothing pending is on the chain. */
    ghost predicate OffChain()
      reads this
    {
      NotOnChain(pending, chain)
    }

    constructor (ghost chain0: seq<Tip>)
      ensures Valid() && OffChain() && pending == map[] && chain == chain0
    {
      pending, currentSize, blsSigs, chain := map[], 0, map[], chain0;
    }

    /** Without its cached signature a reverted BLS message is not recovered; everything else is. */
    method EvictSignature(m: Message)
      requires Valid()
      modifies this`blsSigs
      ensures Valid()
      ensures forall bls :: Resigned(bls, blsSigs) == Without(Resigned(bls, old(blsSigs)), m)
    {
      blsSigs := blsSigs - {m};
      forall bls
        ensures Resigned(bls, blsSigs) == Without(Resigned(bls, old(blsSigs)), m)
      {
        SignedWithout(bls, old(blsSigs), m);
      }
    }

    /** Adds a message against the current tipset: `actors` holds the accounts, `listed` the
        messages listed for it, `blocks` its blocks. */
    method AddTs(m: SignedMessage, actors: map<Address, Actor>, listed: Option<Msgs>, stored: bool, ghost blocks: seq<Block>) returns (ok: bool)
      requires Valid()
      modifies this`pending, this`currentSize, this`blsSigs
      ensures Valid()
      ensures Added(old(pending), pending, blsSigs, m, actors, listed, stored, ok)
      ensures Reads(chain, blocks, actors, listed) ==> AddedTo(chain, blocks, actors, old(pending), pending, m.message, ok)
    {
      var pending', size', sigs';
      pending', size', sigs', ok := AddChecked(pending, currentSize, blsSigs, m, actors, listed, stored);
      if Reads(chain, blocks, actors, listed) {
        AddedToExactly(chain, blocks, actors, listed, stored, pending, pending', sigs', m, ok);
      }
      pending, currentSize, blsSigs := pending', size', sigs';
    }

    /** The nonce handed out for a new message: from it on every slot is free in the pool, and
        free on the chain exactly from the sender's next nonce in the current tipset on. */
    method GetNonce(a: Address, actors: map<Address, Actor>, listed: Option<Msgs>, ghost blocks: seq<Block>) returns (r: Option<nat>)
      requires Valid()
      ensures r.Some? <==> a in actors && listed.Some? && CountsUp(Sent(listed.value, a), actors[a].nonce)
      ensures r.Some? ==> forall n: nat :: n >= r.value ==> !Holds(pending, Slot(a, n))
      ensures r.Some? ==> r.value == Larger(actors[a].nonce + |Sent(listed.value, a)|, if a in pending then pending[a].nextNonce else 0)
      ensures r.Some? && Reads(chain, blocks, actors, listed) ==> RunsInto(chain, blocks, actors, a, r.value)
    {
      r := StateNonce(ActorOf(actors, a), listed, a);
      if r.None? {
        return;
      }
      if a in pending && r.value <= pending[a].nextNonce {
        r := Some(pending[a].nextNonce);
      }
      if Reads(chain, blocks, actors, listed) {
        RunsIntoExactly(chain, blocks, actors, listed.value, a, r.value);
      }
      assert a in pending ==> SetOk(pending[a], a);
    }

    /** Follows a reorganisation of the chain. When everything could be read and no slot repeats
        on the chain, pool and chain stay apart; otherwise the pool only lost messages. */
    method HeadChange(revert: seq<Tip>, apply: seq<Tip>, stored: SignedMessage -> bool) returns (ok: bool)
      requires Valid() && IsTop(chain, revert)
      modifies this`pending, this`currentSize, this`chain
      ensures Valid() && chain == old(chain)[..|old(chain)| - |revert|] + apply
      ensures Reorganised(old(pending), pending, old(chain), chain, revert, apply, blsSigs, stored, ok)
    {
      var pending', size';
      ghost var chain';
      pending', size', ok, chain' := FollowChain(pending, currentSize, blsSigs, revert, apply, stored, chain);
      pending, currentSize, chain := pending', size', chain';
    }

    /** Prunes when the pool reached its upper mark. */
    method PruneExcess(hi: nat, lo: nat, actors: map<Address, Actor>, guess: SignedMessage -> nat, score: (int, int) -> real)
      returns (ghost kept: Pending)
      requires Valid() && Scores(score)
      modifies this`pending, this`currentSize
      ensures Valid() && (old(OffChain()) ==> OffChain())
      ensures old(currentSize) < hi ==> pending == old(pending)
      ensures old(currentSize) >= hi ==> currentSize <= lo && PrunedTo(old(pending), pending, kept) && FundedRuns(kept, actors)
      ensures old(currentSize) >= hi ==> (|kept| < lo ==> NothingMore(old(pending), kept, actors))
      ensures old(currentSize) >= hi ==> forall x :: x in kept <==> IsPending(pending, x)
    {
      kept := [];
      if currentSize < hi {
        return;
      }
      var pending', size';
      pending', size', kept := PruneMessages(pending, currentSize, lo, actors, guess, score);
      PrunedOnlyLost(pending, pending', kept);
      if OffChain() {
        LessOffChain(pending, pending', chain);
      }
      pending, currentSize := pending', size';
    }
  }

  lemma PrunedOnlyLost(pending: Slots, pending': Slots, kept: Pending)
    requires PrunedTo(pending, pending', kept)
    ensures OnlyLost(pending, pending')
  {
  }
}
