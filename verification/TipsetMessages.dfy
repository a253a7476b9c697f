/** Which of a tipset's messages are executed, and which are listed: the two
    de-duplications of chain/stmgr/stmgr.go (`ApplyBlocks`) and chain/store/store.go
    (`MessagesForTipset`), as functions of the message sequence. */
module TipsetMessages {
  import opened Messages
  import opened BlockRules

  datatype Block = Block(bls: seq<Message>, secpk: seq<SignedMessage>)

  type Msgs = seq<ChainMsg>

  /** All messages of a tipset, block by block, BLS messages first. */
  ghost function AllMessages(blocks: seq<Block>): Msgs {
    if blocks == [] then [] else
    AllMessages(blocks[..|blocks| - 1]) + BlockMessages(blocks[|blocks| - 1].bls, blocks[|blocks| - 1].secpk)
  }

  /** The messages seen so far, by CID of the inner message. */
  ghost function Seen(msgs: Msgs): set<Message> {
    set i | 0 <= i < |msgs| :: VmMessage(msgs[i])
  }

  /** Executed: the first occurrence of every message. */
  ghost function Executed(msgs: Msgs): Msgs {
    if msgs == [] then [] else
    var (rest, last) := (msgs[..|msgs| - 1], msgs[|msgs| - 1]);
    Executed(rest) + if VmMessage(last) in Seen(rest) then [] else [last]
  }

  /** The next nonce expected from a sender. */
  ghost function Next(msgs: Msgs, a: Address, nonce: nat): nat {
    if msgs == [] then nonce else
    var (next, m) := (Next(msgs[..|msgs| - 1], a, nonce), VmMessage(msgs[|msgs| - 1]));
    if m.from == a && m.nonce == next then next + 1 else next
  }

  ghost predicate InTurn(rest: Msgs, last: ChainMsg, actors: map<Address, Actor>) {
    var m := VmMessage(last);
    m.from in actors && m.nonce == Next(rest, m.from, actors[m.from].nonce)
  }

  /** The messages that carry the expected nonce. */
  ghost function Taken(msgs: Msgs, actors: map<Address, Actor>): Msgs {
    if msgs == [] then [] else
    var (rest, last) := (msgs[..|msgs| - 1], msgs[|msgs| - 1]);
    Taken(rest, actors) + if InTurn(rest, last, actors) then [last] else []
  }

  /** What a list of messages charges one sender. */
  ghost function CostFrom(msgs: Msgs, a: Address): int {
    if msgs == [] then 0 else
    var m := VmMessage(msgs[|msgs| - 1]);
    CostFrom(msgs[..|msgs| - 1], a) + if m.from == a then RequiredFunds(m) else 0
  }

  ghost predicate Affordable(listed: Msgs, last: ChainMsg, actors: map<Address, Actor>) {
    var m := VmMessage(last);
    m.from in actors && CostFrom(listed, m.from) + RequiredFunds(m) <= actors[m.from].balance
  }

  /** Listed: in turn, and within what the sender's balance still covers. */
  ghost function Listed(msgs: Msgs, actors: map<Address, Actor>): Msgs {
    if msgs == [] then [] else
    var (rest, last) := (msgs[..|msgs| - 1], msgs[|msgs| - 1]);
    var before := Listed(rest, actors);
    before + if InTurn(rest, last, actors) && Affordable(before, last, actors) then [last] else []
  }

  ghost predicate SendersKnown(msgs: Msgs, actors: map<Address, Actor>) {
    forall i :: 0 <= i < |msgs| ==> VmMessage(msgs[i]).from in actors
  }

  /** Prices and balances are not negative. */
  ghost predicate Solvent(msgs: Msgs, actors: map<Address, Actor>) {
    && (forall i :: 0 <= i < |msgs| ==> RequiredFunds(VmMessage(msgs[i])) >= 0)
    && (forall a :: a in actors ==> actors[a].balance >= 0)
  }

  ghost predicate Funded(msgs: Msgs, actors: map<Address, Actor>) {
    forall a :: a in actors ==> CostFrom(msgs, a) <= actors[a].balance
  }

  ghost predicate SameSlot(x: Message, y: Message) {
    x.from == y.from && x.nonce == y.nonce
  }

  /** Sender and nonce determine the message. */
  ghost predicate NoncesUnique(msgs: Msgs) {
    forall i, j :: 0 <= i < |msgs| && 0 <= j < |msgs| ==> SameSlot(VmMessage(msgs[i]), VmMessage(msgs[j])) ==>
      VmMessage(msgs[i]) == VmMessage(msgs[j])
  }

  ghost predicate BlockInTurn(msgs: Msgs, actors: map<Address, Actor>) {
    SendersKnown(msgs, actors) && forall i :: 0 <= i < |msgs| ==> NonceInTurn(msgs, i, actors)
  }

  /** In every block the nonces of a sender run from its state nonce. */
  ghost predicate EveryBlockInTurn(blocks: seq<Block>, actors: map<Address, Actor>) {
    forall k :: 0 <= k < |blocks| ==> BlockInTurn(BlockMessages(blocks[k].bls, blocks[k].secpk), actors)
  }

  // ----- progress through a tipset ---------------------------------------

  /** A known message was seen exactly when its nonce lies below the expected one. */
  ghost predicate SeenBelow(done: Msgs, universe: set<Message>, actors: map<Address, Actor>) {
    forall m :: m in universe && m.from in actors ==> (m in Seen(done) <==> m.nonce < Next(done, m.from, actors[m.from].nonce))
  }

  ghost predicate UniqueIn(universe: set<Message>) {
    forall x, y :: x in universe && y in universe && SameSlot(x, y) ==> x == y
  }

  ghost predicate Agree(done: Msgs, universe: set<Message>, actors: map<Address, Actor>) {
    Executed(done) == Taken(done, actors) && SeenBelow(done, universe, actors)
  }

  /** Through one block: after its first `i` messages the expected nonce of every
      sender has passed all of the sender's messages among them. */
  ghost predicate Through(done: Msgs, part: Msgs, actors: map<Address, Actor>) {
    forall a :: a in actors ==> actors[a].nonce + CountFrom(part, a) <= Next(done, a, actors[a].nonce)
  }

  // ----- bookkeeping of the listing loop ---------------------------------

  /** Expected nonces and remaining balances of the senders looked up so far. */
  ghost predicate Ledger(applied: map<Address, nat>, balances: map<Address, int>, done: Msgs, out: Msgs, actors: map<Address, Actor>) {
    out == Listed(done, actors) && forall a :: LedgerOf(applied, balances, done, out, actors, a)
  }

  ghost predicate LedgerOf(applied: map<Address, nat>, balances: map<Address, int>, done: Msgs, out: Msgs, actors: map<Address, Actor>, a: Address) {
    if a in applied
    then a in actors && a in balances && applied[a] == Next(done, a, actors[a].nonce) && balances[a] == actors[a].balance - CostFrom(out, a)
    else a in actors ==> Next(done, a, actors[a].nonce) == actors[a].nonce && CostFrom(out, a) == 0
  }

  /** A sender's listed nonces go up. */
  ghost predicate Ascending(msgs: Msgs) {
    forall i, j :: 0 <= i < j < |msgs| && VmMessage(msgs[i]).from == VmMessage(msgs[j]).from ==>
      VmMessage(msgs[i]).nonce < VmMessage(msgs[j]).nonce
  }

  /** The CID of a chain message; a BLS signature is not part of it. */
  function Cid(cm: ChainMsg): ChainMsg {
    if cm.Signed? && cm.sm.signature.kind.Bls? then Bare(cm.sm.message) else cm
  }
}
