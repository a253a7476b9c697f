/** How the message pool follows a head change (chain/messagepool/messagepool.go,
    `HeadChange`): messages of reverted tipsets come back, messages of applied
    tipsets go. */
module PoolReorg {
  import opened Wrappers
  import opened Messages
  import opened TipsetMessages
  import opened PoolState
  import opened MessagePool
  import opened ReorgSlots

  // ----- reverted tipsets ------------------------------------------------

  method RecoverAll(bls: seq<Message>, sigs: Sigs) returns (out: seq<SignedMessage>)
    ensures out == Resigned(bls, sigs)
  {
    out := [];
    for i := 0 to |bls|
      invariant out == Resigned(bls[..i], sigs)
    {
      assert bls[..i + 1][..i] == bls[..i];
      if bls[i] in sigs {
        out := out + [SignedMessage(bls[i], sigs[bls[i]])];
      }
    }
    assert bls[..|bls|] == bls;
  }

  /** The signed messages of a tipset, as far as their signatures can be recovered. */
  method MessagesForBlocks(blocks: seq<Option<Block>>, sigs: Sigs) returns (r: Option<seq<SignedMessage>>)
    ensures r.Some? <==> Readable(blocks)
    ensures r.Some? ==> r.value == TipRecovered(blocks, sigs)
  {
    var out: seq<SignedMessage> := [];
    for i := 0 to |blocks|
      invariant out == TipRecovered(blocks[..i], sigs) && forall k :: 0 <= k < i ==> blocks[k].Some?
    {
      assert blocks[..i + 1][..i] == blocks[..i];
      if blocks[i].None? {
        return None;
      }
      var bls := RecoverAll(blocks[i].value.bls, sigs);
      out := out + (blocks[i].value.secpk + bls);
    }
    assert blocks[..|blocks|] == blocks;
    return Some(out);
  }

  method Wait(rmsgs: Waiting, msgs: seq<SignedMessage>, ghost before: seq<SignedMessage>, ghost after: seq<SignedMessage>) returns (r: Waiting)
    requires rmsgs == BySlot(before) && after == before + msgs
    ensures r == BySlot(after)
  {
    r := rmsgs;
    ghost var done := before;
    for i := 0 to |msgs|
      invariant r == BySlot(done) && done + msgs[i..] == after
    {
      ghost var more := done + [msgs[i]];
      assert more[..|done|] == done;
      assert more + msgs[i + 1..] == done + msgs[i..];
      r := r[SlotOf(msgs[i].message) := msgs[i]];
      done := more;
    }
    assert done == after;
  }

  method CollectReverted(revert: seq<Tip>, sigs: Sigs) returns (r: Option<Waiting>)
    ensures r.Some? <==> AllReadable(revert, [])
    ensures r.Some? ==> r.value == BySlot(ChainRecovered(revert, sigs))
  {
    var rmsgs: Waiting := map[];
    for i := 0 to |revert|
      invariant rmsgs == BySlot(ChainRecovered(revert[..i], sigs))
      invariant forall k :: 0 <= k < i ==> revert[k].parentLoads && Readable(revert[k].blocks)
    {
      assert revert[..i + 1][..i] == revert[..i];
      if !revert[i].parentLoads {
        return None;
      }
      var msgs := MessagesForBlocks(revert[i].blocks, sigs);
      if msgs.None? {
        return None;
      }
      rmsgs := Wait(rmsgs, msgs.value, ChainRecovered(revert[..i], sigs), ChainRecovered(revert[..i + 1], sigs));
    }
    assert revert[..|revert|] == revert;
    return Some(rmsgs);
  }

  // ----- applied tipsets -------------------------------------------------

  lemma StrikeStep(pending0: Slots, rmsgs0: Waiting, pending: Slots, rmsgs: Waiting, applied: seq<Slot>,
                   pending': Slots, rmsgs': Waiting, more: seq<Slot>, slot: Slot)
    requires Struck(pending0, rmsgs0, pending, rmsgs, applied) && more == applied + [slot]
    requires if slot in rmsgs then pending' == pending else Cleared(pending, pending', slot)
    requires rmsgs' == rmsgs - {slot}
    ensures Struck(pending0, rmsgs0, pending', rmsgs', more)
  {
    forall s: Slot
      ensures StruckAt(pending0, rmsgs0, pending', rmsgs', more, s)
    {
      assert StruckAt(pending0, rmsgs0, pending, rmsgs, applied, s);
      assert multiset(more)[s] == multiset(applied)[s] + if s == slot then 1 else 0;
      assert s in applied <==> multiset(applied)[s] > 0;
      assert s in more <==> s in applied || s == slot;
      assert s != slot ==> SameAt(pending, pending', s);
    }
  }

  /** An applied message is struck from the messages to add again, or else from the pool. */
  method Strike(pending: Slots, size: int, rmsgs: Waiting, slot: Slot,
                ghost pending0: Slots, ghost rmsgs0: Waiting, ghost applied: seq<Slot>, ghost more: seq<Slot>)
    returns (pending': Slots, size': int, rmsgs': Waiting)
    requires PoolOk(pending, size)
    requires Struck(pending0, rmsgs0, pending, rmsgs, applied) && more == applied + [slot]
    ensures PoolOk(pending', size') && Struck(pending0, rmsgs0, pending', rmsgs', more)
  {
    pending', size', rmsgs' := pending, size, rmsgs;
    if slot in rmsgs {
      rmsgs' := rmsgs - {slot};
    } else {
      pending', size' := Remove(pending, size, slot.from, slot.nonce);
      assert slot == Slot(slot.from, slot.nonce) && rmsgs - {slot} == rmsgs;
    }
    StrikeStep(pending0, rmsgs0, pending, rmsgs, applied, pending', rmsgs', more, slot);
  }

  method StrikeAll(pending: Slots, size: int, rmsgs: Waiting, slots: seq<Slot>,
                   ghost pending0: Slots, ghost rmsgs0: Waiting, ghost applied: seq<Slot>, ghost more: seq<Slot>)
    returns (pending': Slots, size': int, rmsgs': Waiting)
    requires PoolOk(pending, size)
    requires Struck(pending0, rmsgs0, pending, rmsgs, applied) && more == applied + slots
    ensures PoolOk(pending', size') && Struck(pending0, rmsgs0, pending', rmsgs', more)
  {
    pending', size', rmsgs' := pending, size, rmsgs;
    ghost var done := applied;
    for i := 0 to |slots|
      invariant PoolOk(pending', size') && Struck(pending0, rmsgs0, pending', rmsgs', done) && done + slots[i..] == more
    {
      ghost var next := done + [slots[i]];
      assert next + slots[i + 1..] == done + slots[i..];
      pending', size', rmsgs' := Strike(pending', size', rmsgs', slots[i], pending0, rmsgs0, done, next);
      done := next;
    }
    assert done == more;
  }

  /** The slots of a block: signed messages first, then the BLS messages. */
  method BlockSlots(b: Block) returns (slots: seq<Slot>)
    ensures slots == SlotsOf(b)
  {
    slots := [];
    for i := 0 to |b.secpk|
      invariant slots == SlotsOf(b)[..i]
    {
      slots := slots + [SlotOf(b.secpk[i].message)];
    }
    for i := 0 to |b.bls|
      invariant slots == SlotsOf(b)[..|b.secpk| + i]
    {
      slots := slots + [SlotOf(b.bls[i])];
    }
  }

  method StrikeTip(pending: Slots, size: int, rmsgs: Waiting, blocks: seq<Option<Block>>,
                   ghost pending0: Slots, ghost rmsgs0: Waiting, ghost applied: seq<Slot>)
    returns (pending': Slots, size': int, rmsgs': Waiting, ok: bool, ghost reached: seq<Slot>)
    requires PoolOk(pending, size)
    requires Struck(pending0, rmsgs0, pending, rmsgs, applied)
    ensures PoolOk(pending', size') && Struck(pending0, rmsgs0, pending', rmsgs', reached)
    ensures ok <==> Readable(blocks)
    ensures ok ==> reached == applied + TipSlots(blocks)
  {
    pending', size', rmsgs', ok, reached := pending, size, rmsgs, true, applied;
    assert applied + [] == applied;
    for i := 0 to |blocks|
      invariant PoolOk(pending', size') && Struck(pending0, rmsgs0, pending', rmsgs', reached)
      invariant ok && reached == applied + TipSlots(blocks[..i]) && forall k :: 0 <= k < i ==> blocks[k].Some?
    {
      if blocks[i].None? {
        ok := false;
        return;
      }
      var slots := BlockSlots(blocks[i].value);
      ghost var next := reached + slots;
      TipSlotsStep(blocks, i, applied, slots, next);
      pending', size', rmsgs' := StrikeAll(pending', size', rmsgs', slots, pending0, rmsgs0, reached, next);
      reached := next;
    }
    assert blocks[..|blocks|] == blocks;
  }

  lemma TipSlotsStep(blocks: seq<Option<Block>>, i: nat, applied: seq<Slot>, slots: seq<Slot>, next: seq<Slot>)
    requires i < |blocks| && blocks[i].Some? && slots == SlotsOf(blocks[i].value)
    requires next == applied + TipSlots(blocks[..i]) + slots
    ensures next == applied + TipSlots(blocks[..i + 1])
  {
    assert blocks[..i + 1][..i] == blocks[..i];
  }

  /** Strikes every message of the applied tipsets; stops where a block cannot be read. */
  method StrikeApplied(pending: Slots, size: int, rmsgs: Waiting, apply: seq<Tip>)
    returns (pending': Slots, size': int, rmsgs': Waiting, ok: bool, ghost reached: seq<Slot>)
    requires PoolOk(pending, size)
    ensures PoolOk(pending', size') && Struck(pending, rmsgs, pending', rmsgs', reached)
    ensures ok <==> AllReadable([], apply)
    ensures ok ==> reached == ChainSlots(apply)
  {
    pending', size', rmsgs', ok, reached := pending, size, rmsgs, true, [];
    var i := 0;
    while i < |apply|
      invariant PoolOk(pending', size') && Struck(pending, rmsgs, pending', rmsgs', reached)
      invariant i <= |apply| && ok && AppliedUpTo(apply, i, reached)
    {
      ghost var before := reached;
      pending', size', rmsgs', ok, reached := StrikeTip(pending', size', rmsgs', apply[i].blocks, pending, rmsgs, reached);
      if !ok {
        return;
      }
      AppliedStep(apply, i, before, reached);
      i := i + 1;
    }
    assert apply[..|apply|] == apply;
  }

  ghost predicate AppliedUpTo(apply: seq<Tip>, i: nat, reached: seq<Slot>) {
    i <= |apply| && reached == ChainSlots(apply[..i]) && forall k :: 0 <= k < i ==> Readable(apply[k].blocks)
  }

  lemma AppliedStep(apply: seq<Tip>, i: nat, reached: seq<Slot>, more: seq<Slot>)
    requires i < |apply| && AppliedUpTo(apply, i, reached) && Readable(apply[i].blocks)
    requires more == reached + TipSlots(apply[i].blocks)
    ensures AppliedUpTo(apply, i + 1, more)
  {
    assert apply[..i + 1][..i] == apply[..i];
  }

  // ----- adding again ----------------------------------------------------

  ghost predicate AddedBut(pending0: Slots, pending: Slots, rmsgs: Waiting, stored: SignedMessage -> bool, todo: set<Slot>) {
    forall s :: if s in todo then SameAt(pending0, pending, s) else AgainAt(pending0, pending, rmsgs, stored, s)
  }

  lemma AgainStep(pending0: Slots, pending: Slots, pending': Slots, rmsgs: Waiting, stored: SignedMessage -> bool,
                  todo: set<Slot>, slot: Slot, ok: bool)
    requires AddedBut(pending0, pending, rmsgs, stored, todo) && slot in todo && slot in rmsgs
    requires SlotOf(rmsgs[slot].message) == slot && ok == (Returns(rmsgs[slot], stored) && Outbids(pending, rmsgs[slot], slot))
    requires if ok then Put(pending, pending', rmsgs[slot]) else Same(pending, pending')
    ensures AddedBut(pending0, pending', rmsgs, stored, todo - {slot})
  {
    forall s: Slot
      ensures if s in todo - {slot} then SameAt(pending0, pending', s) else AgainAt(pending0, pending', rmsgs, stored, s)
    {
      assert if s in todo then SameAt(pending0, pending, s) else AgainAt(pending0, pending, rmsgs, stored, s);
      assert s != slot ==> SameAt(pending, pending', s);
    }
  }

  method AddAgain(pending: Slots, size: int, rmsgs: Waiting, stored: SignedMessage -> bool) returns (pending': Slots, size': int)
    requires PoolOk(pending, size)
    requires forall s :: s in rmsgs ==> SlotOf(rmsgs[s].message) == s
    ensures PoolOk(pending', size')
    ensures forall s :: AgainAt(pending, pending', rmsgs, stored, s)
  {
    pending', size' := pending, size;
    var todo := rmsgs.Keys;
    while todo != {}
      invariant todo <= rmsgs.Keys && PoolOk(pending', size')
      invariant AddedBut(pending, pending', rmsgs, stored, todo)
      decreases todo
    {
      var s := Pick(todo);
      var m := rmsgs[s];
      ghost var before := pending';
      assert SameAt(pending, pending', s);
      var ok;
      pending', size', ok := AddLocked(pending', size', m, stored(m));
      AgainStep(pending, before, pending', rmsgs, stored, todo, s, ok);
      todo := todo - {s};
    }
  }

  // ----- the head change -------------------------------------------------

  lemma FollowedSteps(pending: Slots, struck: Slots, pending': Slots, back: Waiting, left: Waiting, applied: seq<Slot>, stored: SignedMessage -> bool)
    requires Struck(pending, back, struck, left, applied)
    requires forall s :: AgainAt(struck, pending', left, stored, s)
    ensures Followed(pending, pending', back, applied, stored)
  {
    forall s: Slot
      ensures FollowedAt(pending, pending', back, applied, stored, s)
    {
      assert StruckAt(pending, back, struck, left, applied, s);
      assert AgainAt(struck, pending', left, stored, s);
    }
  }

  lemma StruckKeeps(pending: Slots, struck: Slots, back: Waiting, left: Waiting, applied: seq<Slot>)
    requires Struck(pending, back, struck, left, applied)
    requires forall s :: s in back ==> SlotOf(back[s].message) == s
    ensures OnlyLost(pending, struck)
    ensures forall s :: s in left ==> SlotOf(left[s].message) == s
  {
    forall s: Slot
      ensures Holds(struck, s) ==> SameAt(pending, struck, s)
      ensures s in left ==> SlotOf(left[s].message) == s
    {
      assert StruckAt(pending, back, struck, left, applied, s);
    }
  }

  lemma BackOk(msgs: seq<SignedMessage>)
    ensures forall s :: s in BySlot(msgs) ==> SlotOf(BySlot(msgs)[s].message) == s
  {
    forall s | s in BySlot(msgs)
      ensures SlotOf(BySlot(msgs)[s].message) == s
    {
      BySlotMeaning(msgs, s);
    }
  }

  /** Follows a head change. `stored` says which messages the chain store accepts. */
  method FollowHead(pending: Slots, size: int, sigs: Sigs, revert: seq<Tip>, apply: seq<Tip>, stored: SignedMessage -> bool)
    returns (pending': Slots, size': int, ok: bool)
    requires PoolOk(pending, size)
    ensures PoolOk(pending', size')
    ensures ok <==> AllReadable(revert, apply)
    ensures ok ==> Followed(pending, pending', BySlot(ChainRecovered(revert, sigs)), ChainSlots(apply), stored)
    ensures !ok ==> OnlyLost(pending, pending')
  {
    var back := CollectReverted(revert, sigs);
    if back.None? {
      return pending, size, false;
    }
    BackOk(ChainRecovered(revert, sigs));
    var struck, left;
    ghost var reached;
    struck, size', left, ok, reached := StrikeApplied(pending, size, back.value, apply);
    StruckKeeps(pending, struck, back.value, left, reached);
    if !ok {
      return struck, size', false;
    }
    pending', size' := AddAgain(struck, size', left, stored);
    FollowedSteps(pending, struck, pending', back.value, left, reached, stored);
  }

  /** The slots a list of messages takes. */
  ghost function SlotSet(msgs: seq<SignedMessage>): set<Slot> {
    set i | 0 <= i < |msgs| :: SlotOf(msgs[i].message)
  }

  /** When no recovered message's slot was pending and every one comes back, the pool's slots are
      the old ones and the recovered ones without the applied ones. */
  lemma FollowedSlots(pending: Slots, pending': Slots, msgs: seq<SignedMessage>, applied: seq<Slot>, stored: SignedMessage -> bool)
    requires Followed(pending, pending', BySlot(msgs), applied, stored)
    requires Apart(pending, BySlot(msgs)) && forall m :: m in msgs ==> Returns(m, stored)
    ensures Filled(pending') == Filled(pending) + SlotSet(msgs) - set s | s in applied
  {
    forall s: Slot
      ensures s in Filled(pending') <==> s in Filled(pending) + SlotSet(msgs) && s !in applied
    {
      FilledMeaning(pending, s);
      FilledMeaning(pending', s);
      BySlotMeaning(msgs, s);
      assert FollowedAt(pending, pending', BySlot(msgs), applied, stored, s);
    }
  }
}
