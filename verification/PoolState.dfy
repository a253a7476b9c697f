/** The message pool's data (chain/messagepool/messagepool.go): one set of pending
    messages per sender, and what every operation keeps true of them. */
module PoolState {
  import opened Messages

  datatype MsgSet = MsgSet(msgs: map<nat, SignedMessage>, nextNonce: nat)

  type Slots = map<Address, MsgSet>

  datatype Slot = Slot(from: Address, nonce: nat)

  function SlotOf(m: Message): Slot {
    Slot(m.from, m.nonce)
  }

  predicate Holds(pending: Slots, s: Slot) {
    s.from in pending && s.nonce in pending[s.from].msgs
  }

  ghost function Filled(pending: Slots): set<Slot> {
    set a, n | a in pending && n in pending[a].msgs :: Slot(a, n)
  }

  /** Every message sits under its own sender and nonce, below the next nonce. */
  ghost predicate SetOk(ms: MsgSet, a: Address) {
    forall n :: n in ms.msgs ==> ms.msgs[n].message.from == a && ms.msgs[n].message.nonce == n < ms.nextNonce
  }

  ghost predicate PendingOk(pending: Slots) {
    forall a :: a in pending ==> SetOk(pending[a], a) && pending[a].msgs != map[]
  }

  /** The counter agrees with the contents. */
  ghost predicate PoolOk(pending: Slots, currentSize: int) {
    PendingOk(pending) && currentSize == |Filled(pending)|
  }

  /** The messages of every slot, to say what an operation leaves alone. */
  ghost predicate SameAt(before: Slots, after: Slots, s: Slot) {
    (Holds(before, s) <==> Holds(after, s)) && (Holds(before, s) ==> after[s.from].msgs[s.nonce] == before[s.from].msgs[s.nonce])
  }

  lemma FilledMeaning(pending: Slots, s: Slot)
    ensures s in Filled(pending) <==> Holds(pending, s)
  {
    if Holds(pending, s) {
      assert s == Slot(s.from, s.nonce);
    }
  }

  lemma FilledAdd(before: Slots, after: Slots, s: Slot)
    requires forall x :: Holds(after, x) <==> Holds(before, x) || x == s
    ensures Filled(after) == Filled(before) + {s}
    ensures |Filled(after)| == |Filled(before)| + if Holds(before, s) then 0 else 1
  {
    forall x: Slot
      ensures x in Filled(after) <==> x in Filled(before) + {s}
    {
      FilledMeaning(after, x);
      FilledMeaning(before, x);
    }
    FilledMeaning(before, s);
    assert Filled(after) == Filled(before) + {s};
  }

  lemma FilledRemove(before: Slots, after: Slots, s: Slot)
    requires forall x :: Holds(after, x) <==> Holds(before, x) && x != s
    ensures Filled(after) == Filled(before) - {s}
    ensures |Filled(after)| == |Filled(before)| - if Holds(before, s) then 1 else 0
  {
    forall x: Slot
      ensures x in Filled(after) <==> x in Filled(before) - {s}
    {
      FilledMeaning(after, x);
      FilledMeaning(before, x);
    }
    FilledMeaning(before, s);
    assert Filled(after) == Filled(before) - {s};
  }

  /** The slot now holds the message; nothing else changed. */
  ghost predicate Put(before: Slots, after: Slots, m: SignedMessage) {
    && Holds(after, SlotOf(m.message)) && after[m.message.from].msgs[m.message.nonce] == m
    && (forall s :: s != SlotOf(m.message) ==> SameAt(before, after, s))
  }

  ghost predicate Same(before: Slots, after: Slots) {
    forall s :: SameAt(before, after, s)
  }

  /** The slot is empty; nothing else changed. */
  ghost predicate Cleared(before: Slots, after: Slots, slot: Slot) {
    && !Holds(after, slot)
    && (forall s :: s != slot ==> SameAt(before, after, s))
  }

  ghost function SetOf(pending: Slots, a: Address): MsgSet {
    if a in pending then pending[a] else MsgSet(map[], 0)
  }
}
