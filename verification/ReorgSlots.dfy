/** The slots (sender and nonce) that a reorganisation takes off the chain and puts on
    it, as the message pool sees them (chain/messagepool/messagepool.go). */
module ReorgSlots {
  import opened Wrappers
  import opened Messages
  import opened TipsetMessages
  import opened PoolState
  import opened MessagePool

  /** A tipset as the pool reads it: its parent may fail to load, and so may the
      messages of a block. */
  datatype Tip = Tip(parentLoads: bool, blocks: seq<Option<Block>>)

  type Sigs = map<Message, Signature>

  /** Messages to add again, by slot. */
  type Waiting = map<Slot, SignedMessage>

  ghost predicate Readable(blocks: seq<Option<Block>>) {
    forall i :: 0 <= i < |blocks| ==> blocks[i].Some?
  }

  // ----- reverted messages -----------------------------------------------

  /** BLS messages whose signature is still cached, signed again. */
  ghost function Resigned(bls: seq<Message>, sigs: Sigs): seq<SignedMessage> {
    if bls == [] then [] else
    var m := bls[|bls| - 1];
    Resigned(bls[..|bls| - 1], sigs) + if m in sigs then [SignedMessage(m, sigs[m])] else []
  }

  ghost function TipRecovered(blocks: seq<Option<Block>>, sigs: Sigs): seq<SignedMessage> {
    if blocks == [] then [] else
    var last := blocks[|blocks| - 1];
    TipRecovered(blocks[..|blocks| - 1], sigs) + if last.Some? then last.value.secpk + Resigned(last.value.bls, sigs) else []
  }

  ghost function ChainRecovered(tips: seq<Tip>, sigs: Sigs): seq<SignedMessage> {
    if tips == [] then [] else ChainRecovered(tips[..|tips| - 1], sigs) + TipRecovered(tips[|tips| - 1].blocks, sigs)
  }

  /** Messages by slot; a later message takes the slot. */
  ghost function BySlot(msgs: seq<SignedMessage>): Waiting {
    if msgs == [] then map[] else
    var last := msgs[|msgs| - 1];
    BySlot(msgs[..|msgs| - 1])[SlotOf(last.message) := last]
  }

  lemma {:induction false} BySlotMeaning(msgs: seq<SignedMessage>, s: Slot)
    ensures s in BySlot(msgs) <==> exists i :: 0 <= i < |msgs| && SlotOf(msgs[i].message) == s
    ensures s in BySlot(msgs) ==> BySlot(msgs)[s] in msgs && SlotOf(BySlot(msgs)[s].message) == s
  {
    if msgs != [] {
      var front, last := msgs[..|msgs| - 1], msgs[|msgs| - 1];
      BySlotMeaning(front, s);
      if SlotOf(last.message) != s && s in BySlot(front) {
        var i :| 0 <= i < |front| && SlotOf(front[i].message) == s;
        assert msgs[i] == front[i];
      }
    }
  }

  // ----- applied slots ---------------------------------------------------

  ghost function SlotsOf(b: Block): seq<Slot> {
    seq(|b.secpk|, i requires 0 <= i < |b.secpk| => SlotOf(b.secpk[i].message)) +
    seq(|b.bls|, i requires 0 <= i < |b.bls| => SlotOf(b.bls[i]))
  }

  ghost function TipSlots(blocks: seq<Option<Block>>): seq<Slot> {
    if blocks == [] then [] else
    var last := blocks[|blocks| - 1];
    TipSlots(blocks[..|blocks| - 1]) + if last.Some? then SlotsOf(last.value) else []
  }

  ghost function ChainSlots(tips: seq<Tip>): seq<Slot> {
    if tips == [] then [] else ChainSlots(tips[..|tips| - 1]) + TipSlots(tips[|tips| - 1].blocks)
  }

  /** Pool and waiting messages once the listed slots were applied. */
  ghost predicate Struck(pending0: Slots, rmsgs0: Waiting, pending: Slots, rmsgs: Waiting, applied: seq<Slot>) {
    forall s :: StruckAt(pending0, rmsgs0, pending, rmsgs, applied, s)
  }

  ghost predicate StruckAt(pending0: Slots, rmsgs0: Waiting, pending: Slots, rmsgs: Waiting, applied: seq<Slot>, s: Slot) {
    && (if Reaches(rmsgs0, applied, s) then !Holds(pending, s) else SameAt(pending0, pending, s))
    && (s in rmsgs <==> s in rmsgs0 && s !in applied) && (s in rmsgs ==> rmsgs[s] == rmsgs0[s])
  }

  /** Whether applying the listed slots reaches the pool: the first application of a slot strikes
      the message waiting there instead, if there is one. */
  ghost predicate Reaches(rmsgs: Waiting, applied: seq<Slot>, s: Slot) {
    s in applied && (s in rmsgs ==> multiset(applied)[s] > 1)
  }

  ghost predicate Apart(pending: Slots, rmsgs: Waiting) {
    forall s :: s in rmsgs ==> !Holds(pending, s)
  }

  // ----- the whole head change -------------------------------------------

  /** A reverted message comes back unless the store refuses it or its gas is too high. */
  predicate Returns(m: SignedMessage, stored: SignedMessage -> bool) {
    stored(m) && m.message.gasLimit <= BLOCK_GAS_LIMIT
  }

  /** What the pool holds at a slot after the waiting messages were added. */
  ghost predicate AgainAt(pending0: Slots, pending: Slots, rmsgs: Waiting, stored: SignedMessage -> bool, s: Slot) {
    if s in rmsgs && Returns(rmsgs[s], stored) && Outbids(pending0, rmsgs[s], s)
    then Holds(pending, s) && pending[s.from].msgs[s.nonce] == rmsgs[s]
    else SameAt(pending0, pending, s)
  }

  /** The slot is free or its message may be replaced. */
  ghost predicate Outbids(pending: Slots, m: SignedMessage, s: Slot) {
    Holds(pending, s) ==> MayReplace(m, pending[s.from].msgs[s.nonce])
  }

  /** What the pool holds at a slot after a head change. A slot that was not applied holds the
      reverted message if it comes back, else what it held. An applied slot is empty, unless all
      the application did was to strike the reverted message. */
  ghost predicate FollowedAt(pending0: Slots, pending: Slots, back: Waiting, applied: seq<Slot>, stored: SignedMessage -> bool, s: Slot) {
    if Reaches(back, applied, s) then !Holds(pending, s)
    else if s in applied then SameAt(pending0, pending, s)
    else AgainAt(pending0, pending, back, stored, s)
  }

  ghost predicate Followed(pending0: Slots, pending: Slots, back: Waiting, applied: seq<Slot>, stored: SignedMessage -> bool) {
    forall s :: FollowedAt(pending0, pending, back, applied, stored, s)
  }

  /** The pool only lost messages. */
  ghost predicate OnlyLost(pending0: Slots, pending: Slots) {
    forall s :: Holds(pending, s) ==> SameAt(pending0, pending, s)
  }

  /** Everything a head change reads is there. */
  ghost predicate AllReadable(revert: seq<Tip>, apply: seq<Tip>) {
    && (forall i :: 0 <= i < |revert| ==> revert[i].parentLoads && Readable(revert[i].blocks))
    && (forall i :: 0 <= i < |apply| ==> Readable(apply[i].blocks))
  }

  // ----- the chain the pool follows --------------------------------------

  /** A slot is used by some tipset of the chain. */
  ghost predicate OnChain(chain: seq<Tip>, s: Slot) {
    exists i :: 0 <= i < |chain| && s in TipSlots(chain[i].blocks)
  }

  /** No two tipsets of the chain use the same slot. */
  ghost predicate NonRepeating(chain: seq<Tip>) {
    forall i, j, s :: 0 <= i < j < |chain| && s in TipSlots(chain[i].blocks) ==> s !in TipSlots(chain[j].blocks)
  }

  /** The reverted tipsets are the top of the chain, highest first. */
  ghost predicate IsTop(chain: seq<Tip>, revert: seq<Tip>) {
    |revert| <= |chain| && forall i :: 0 <= i < |revert| ==> revert[i] == chain[|chain| - 1 - i]
  }

  ghost predicate NotOnChain(pending: Slots, chain: seq<Tip>) {
    forall s :: Holds(pending, s) ==> !OnChain(chain, s)
  }
}
