/** The message pool (chain/messagepool/messagepool.go): adding with replace-by-fee,
    removing, and following the chain through reorganisations. */
module MessagePool {
  import opened Wrappers
  import opened Arithmetic
  import opened Messages
  import opened PoolState

  /** The least price that may replace a pending message: a quarter more, plus one. */
  function MinPrice(price: int): int {
    price + (price * 64) / 256 + 1
  }

  // ----- one sender's set ------------------------------------------------

  /** A message takes its slot unless a different message is there that it does not
      outbid. */
  method SetAdd(ms: MsgSet, m: SignedMessage) returns (ms': MsgSet, isNew: bool, ok: bool)
    requires SetOk(ms, m.message.from)
    ensures SetOk(ms', m.message.from)
    ensures ok <==> m.message.nonce !in ms.msgs || MayReplace(m, ms.msgs[m.message.nonce])
    ensures ok ==> ms'.msgs == ms.msgs[m.message.nonce := m] && (isNew <==> m.message.nonce !in ms.msgs)
    ensures !ok ==> ms'.msgs == ms.msgs
    ensures ms'.nextNonce == if ms.msgs == map[] || m.message.nonce >= ms.nextNonce then m.message.nonce + 1 else ms.nextNonce
  {
    var nonce := m.message.nonce;
    ms' := ms;
    if |ms.msgs| == 0 || nonce >= ms.nextNonce {
      ms' := ms'.(nextNonce := nonce + 1);
    }
    var has := nonce in ms.msgs;
    if has {
      var exms := ms.msgs[nonce];
      if !SameCid(m, exms) {
        var minPrice := exms.message.gasPrice;
        minPrice := minPrice + (minPrice * 64) / 256;
        minPrice := minPrice + 1;
        if m.message.gasPrice < minPrice {
          return ms', false, false;
        }
      }
    }
    ms' := ms'.(msgs := ms'.msgs[nonce := m]);
    return ms', !has, true;
  }

  /** The same message again, or a message that pays enough more. */
  predicate MayReplace(m: SignedMessage, old_: SignedMessage) {
    SameCid(m, old_) || m.message.gasPrice >= MinPrice(old_.message.gasPrice)
  }

  /** A BLS signature is not part of a message's CID. */
  predicate SameCid(x: SignedMessage, y: SignedMessage) {
    if x.signature.kind.Bls? && y.signature.kind.Bls? then x.message == y.message else x == y
  }

  function Pow(base: nat, k: nat): nat {
    if k == 0 then 1 else base * Pow(base, k - 1)
  }

  lemma {:induction false} PowPositive(base: nat, k: nat)
    requires base > 0
    ensures Pow(base, k) > 0
  {
    if k > 0 {
      PowPositive(base, k - 1);
    }
  }

  lemma OneReplacement(old_: int, new_: int)
    requires new_ >= MinPrice(old_)
    ensures 4 * new_ > 5 * old_
  {
  }

  lemma OnePower(f: nat, t: nat, p: int, q: int, first: int, more: nat, higher: nat)
    requires f > 0 && 4 * q > 5 * p && f * p >= t * first && more == 4 * f && higher == 5 * t
    ensures more * q > higher * first
  {
    TimesMonotone(5 * p + 1, 4 * q, f);
    assert f * (5 * p + 1) == 5 * (f * p) + f;
    assert more * q == f * (4 * q) && higher * first == 5 * (t * first);
  }

  /** Each replacement at a slot costs more than a quarter more than the one before. */
  lemma {:induction false} FeesGrow(prices: seq<int>, k: nat)
    requires 0 < k < |prices|
    requires forall i :: 0 <= i < |prices| - 1 ==> prices[i + 1] >= MinPrice(prices[i])
    ensures Pow(4, k) * prices[k] > Pow(5, k) * prices[0]
  {
    if k > 1 {
      FeesGrow(prices, k - 1);
    }
    var i := k - 1;
    assert prices[i + 1] >= MinPrice(prices[i]);
    OneReplacement(prices[i], prices[k]);
    PowPositive(4, i);
    OnePower(Pow(4, i), Pow(5, i), prices[i], prices[k], prices[0], Pow(4, k), Pow(5, k));
  }

  // ----- adding and removing ---------------------------------------------

  lemma PutSet(pending: Slots, pending': Slots, m: SignedMessage, a: Address, ms: MsgSet)
    requires PendingOk(pending) && a == m.message.from && pending' == pending[a := ms]
    requires SetOk(ms, a) && ms.msgs == SetOf(pending, a).msgs[m.message.nonce := m]
    ensures PendingOk(pending') && Put(pending, pending', m)
    ensures Filled(pending') == Filled(pending) + {SlotOf(m.message)}
    ensures |Filled(pending')| == |Filled(pending)| + if m.message.nonce in SetOf(pending, a).msgs then 0 else 1
  {
    var slot := SlotOf(m.message);
    assert m.message.nonce in ms.msgs;
    forall s | s != slot
      ensures SameAt(pending, pending', s)
    {
    }
    assert forall x :: Holds(pending', x) <==> Holds(pending, x) || x == slot by {
      forall x
        ensures Holds(pending', x) <==> Holds(pending, x) || x == slot
      {
        assert x != slot ==> SameAt(pending, pending', x);
      }
    }
    FilledAdd(pending, pending', slot);
  }

  lemma KeepSet(pending: Slots, pending': Slots, a: Address, ms: MsgSet)
    requires PendingOk(pending) && a in pending && pending' == pending[a := ms]
    requires SetOk(ms, a) && ms.msgs == pending[a].msgs
    ensures PendingOk(pending') && Same(pending, pending') && Filled(pending') == Filled(pending)
  {
    forall x: Slot
      ensures x in Filled(pending') <==> x in Filled(pending)
    {
      FilledMeaning(pending, x);
      FilledMeaning(pending', x);
    }
  }

  /** Adds a message to the pool. `stored` says whether the chain store took it. */
  method AddLocked(pending: Slots, currentSize: int, m: SignedMessage, stored: bool)
    returns (pending': Slots, size': int, ok: bool)
    requires PoolOk(pending, currentSize)
    ensures PoolOk(pending', size')
    ensures ok <==> stored && m.message.gasLimit <= BLOCK_GAS_LIMIT &&
                    (Holds(pending, SlotOf(m.message)) ==> MayReplace(m, pending[m.message.from].msgs[m.message.nonce]))
    ensures if ok then Put(pending, pending', m) else Same(pending, pending')
    ensures Filled(pending') == Filled(pending) + if ok then {SlotOf(m.message)} else {}
  {
    pending', size' := pending, currentSize;
    if m.message.gasLimit > BLOCK_GAS_LIMIT {
      return pending', size', false;
    }
    if !stored {
      return pending', size', false;
    }
    var from := m.message.from;
    var mset := if from in pending then pending[from] else MsgSet(map[], 0);
    var ms, isNew;
    ms, isNew, ok := SetAdd(mset, m);
    pending' := pending[from := ms];
    if !ok {
      KeepSet(pending, pending', from, ms);
      return;
    }
    PutSet(pending, pending', m, from, ms);
    if isNew {
      size' := size' + 1;
    }
  }

  method HighestNonce(msgs: map<nat, SignedMessage>) returns (max: nat)
    ensures forall n :: n in msgs ==> n <= max
    ensures max in msgs || max == 0
  {
    max := 0;
    var todo := msgs.Keys;
    while todo != {}
      invariant todo <= msgs.Keys && (max in msgs || max == 0)
      invariant forall n :: n in msgs && n !in todo ==> n <= max
      decreases todo
    {
      var n := Pick(todo);
      if max < n {
        max := n;
      }
      todo := todo - {n};
    }
  }

  lemma ClearHolds(pending: Slots, pending': Slots, slot: Slot, ms: MsgSet, s: Slot)
    requires slot.from in pending && ms.msgs == pending[slot.from].msgs - {slot.nonce}
    requires pending' == if ms.msgs == map[] then pending - {slot.from} else pending[slot.from := ms]
    ensures if s == slot then !Holds(pending', s) else SameAt(pending, pending', s)
  {
    if s.from == slot.from {
      assert s.nonce in ms.msgs <==> s.nonce in pending[s.from].msgs && s.nonce != slot.nonce;
    }
  }

  lemma ClearSet(pending: Slots, pending': Slots, slot: Slot, ms: MsgSet)
    requires PendingOk(pending) && slot.from in pending && ms.msgs == pending[slot.from].msgs - {slot.nonce} && SetOk(ms, slot.from)
    requires pending' == if ms.msgs == map[] then pending - {slot.from} else pending[slot.from := ms]
    ensures PendingOk(pending') && Cleared(pending, pending', slot)
    ensures Filled(pending') == Filled(pending) - {slot}
    ensures |Filled(pending')| == |Filled(pending)| - if Holds(pending, slot) then 1 else 0
  {
    forall s: Slot
      ensures if s == slot then !Holds(pending', s) else SameAt(pending, pending', s)
    {
      ClearHolds(pending, pending', slot, ms, s);
    }
    FilledRemove(pending, pending', slot);
  }

  lemma ClearNothing(pending: Slots, slot: Slot)
    requires slot.from !in pending
    ensures Cleared(pending, pending, slot) && Filled(pending) == Filled(pending) - {slot}
  {
    FilledMeaning(pending, slot);
  }

  /** Removes whatever message sits in the slot. The next nonce stays above the
      removed one, even when that message was never seen. */
  method Remove(pending: Slots, currentSize: int, from: Address, nonce: nat) returns (pending': Slots, size': int)
    requires PoolOk(pending, currentSize)
    ensures PoolOk(pending', size')
    ensures Cleared(pending, pending', Slot(from, nonce)) && Filled(pending') == Filled(pending) - {Slot(from, nonce)}
    ensures from in pending' ==> pending'[from].nextNonce > nonce
  {
    pending', size' := pending, currentSize;
    if from !in pending {
      ClearNothing(pending, Slot(from, nonce));
      return;
    }
    var mset := pending[from];
    if nonce in mset.msgs {
      size' := size' - 1;
    }
    var msgs := mset.msgs - {nonce};
    var max := HighestNonce(msgs);
    if max < nonce {
      max := nonce;
    }
    var ms := MsgSet(msgs, max + 1);
    pending' := if |msgs| == 0 then pending - {from} else pending[from := ms];
    ClearSet(pending, pending', Slot(from, nonce), ms);
  }

  // ----- a run of adds at one slot ---------------------------------------

  /** Each message pays enough more than the one before. */
  ghost predicate Climbs(held: seq<Message>) {
    forall i :: 0 <= i < |held| - 1 ==> held[i + 1].gasPrice >= MinPrice(held[i].gasPrice)
  }

  /** The messages the slot has held so far, the last one still there. */
  ghost predicate Tracked(pending: Slots, s: Slot, held: seq<Message>) {
    && Climbs(held) && (Holds(pending, s) <==> held != [])
    && (Holds(pending, s) ==> pending[s.from].msgs[s.nonce].message == held[|held| - 1])
  }

  /** One add: the slot's message stays, comes again, or is outbid. */
  lemma TrackedStep(pending: Slots, pending': Slots, s: Slot, held: seq<Message>, m: SignedMessage, ok: bool) returns (more: seq<Message>)
    requires Tracked(pending, s, held)
    requires if ok then Put(pending, pending', m) else Same(pending, pending')
    requires ok && Holds(pending, SlotOf(m.message)) ==> MayReplace(m, pending[m.message.from].msgs[m.message.nonce])
    ensures Tracked(pending', s, more) && held <= more
  {
    more := held;
    if !ok || SlotOf(m.message) != s {
      assert SameAt(pending, pending', s);
    } else if held == [] || m.message != held[|held| - 1] {
      more := held + [m.message];
    }
  }

  lemma ClimbsGrow(held: seq<Message>, k: nat)
    requires Climbs(held) && 0 < k < |held|
    ensures Pow(4, k) * held[k].gasPrice > Pow(5, k) * held[0].gasPrice
  {
    var prices := seq(|held|, i requires 0 <= i < |held| => held[i].gasPrice);
    FeesGrow(prices, k);
  }

  /** Whatever is added, the k-th replacement in a slot costs more than (5/4)^k times the first
      message the slot held. */
  method AddMany(pending: Slots, currentSize: int, msgs: seq<SignedMessage>, stored: SignedMessage -> bool, ghost s: Slot, ghost held0: seq<Message>)
    returns (pending': Slots, size': int, ghost held: seq<Message>)
    requires PoolOk(pending, currentSize) && Tracked(pending, s, held0)
    ensures PoolOk(pending', size') && Tracked(pending', s, held) && held0 <= held
    ensures forall k :: 0 < k < |held| ==> Pow(4, k) * held[k].gasPrice > Pow(5, k) * held[0].gasPrice
  {
    pending', size', held := pending, currentSize, held0;
    for i := 0 to |msgs|
      invariant PoolOk(pending', size') && Tracked(pending', s, held) && held0 <= held
    {
      ghost var before := pending';
      var ok;
      pending', size', ok := AddLocked(pending', size', msgs[i], stored(msgs[i]));
      held := TrackedStep(before, pending', s, held, msgs[i], ok);
    }
    forall k | 0 < k < |held|
      ensures Pow(4, k) * held[k].gasPrice > Pow(5, k) * held[0].gasPrice
    {
      ClimbsGrow(held, k);
    }
  }
}
