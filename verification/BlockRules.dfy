/** What block validation (chain/sync.go, `checkBlockMessages`) asks of a block's
    messages: syntax and price of each, the gas total, and sender nonces. */
module BlockRules {
  import opened Messages

  /** BLS messages are carried bare, the others with their signature. */
  datatype ChainMsg = Bare(message: Message) | Signed(sm: SignedMessage)

  function VmMessage(cm: ChainMsg): Message {
    match cm
    case Bare(m) => m
    case Signed(sm) => sm.message
  }

  function ChainLength(cm: ChainMsg): nat {
    match cm
    case Bare(m) => m.size
    case Signed(sm) => SignedLength(sm)
  }

  function BlockMessages(bls: seq<Message>, secpk: seq<SignedMessage>): seq<ChainMsg> {
    seq(|bls|, i requires 0 <= i < |bls| => Bare(bls[i])) + seq(|secpk|, i requires 0 <= i < |secpk| => Signed(secpk[i]))
  }

  // ----- what makes a block's messages acceptable ------------------------

  ghost function TotalGas(msgs: seq<ChainMsg>): int {
    if msgs == [] then 0 else TotalGas(msgs[..|msgs| - 1]) + VmMessage(msgs[|msgs| - 1]).gasLimit
  }

  ghost function CountFrom(msgs: seq<ChainMsg>, a: Address): nat {
    if msgs == [] then 0
    else CountFrom(msgs[..|msgs| - 1], a) + if VmMessage(msgs[|msgs| - 1]).from == a then 1 else 0
  }

  /** A well-formed, fairly priced message of an existing account. */
  ghost predicate Admissible(cm: ChainMsg, actors: map<Address, Actor>) {
    && ValidForBlockInclusion(VmMessage(cm), OnChainMessage(ChainLength(cm)))
    && VmMessage(cm).from in actors && actors[VmMessage(cm).from].account
  }

  /** The nonce counts the sender's earlier messages in the block. */
  ghost predicate NonceInTurn(msgs: seq<ChainMsg>, i: int, actors: map<Address, Actor>)
    requires 0 <= i < |msgs| && VmMessage(msgs[i]).from in actors
  {
    var m := VmMessage(msgs[i]);
    m.nonce == actors[m.from].nonce + CountFrom(msgs[..i], m.from)
  }

  ghost predicate Acceptable(msgs: seq<ChainMsg>, actors: map<Address, Actor>) {
    && (forall i :: 0 <= i < |msgs| ==> Admissible(msgs[i], actors) && NonceInTurn(msgs, i, actors))
    && TotalGas(msgs) <= BLOCK_GAS_LIMIT
  }

  datatype Checker = Checker(nonces: map<Address, nat>, sumGasLimit: int)

  ghost predicate Tracks(c: Checker, msgs: seq<ChainMsg>, actors: map<Address, Actor>) {
    && c.sumGasLimit == TotalGas(msgs)
    && (forall a :: a in c.nonces ==> a in actors && actors[a].account && c.nonces[a] == actors[a].nonce + CountFrom(msgs, a))
    && (forall a :: a !in c.nonces ==> CountFrom(msgs, a) == 0)
  }

  ghost predicate Passed(c: Checker, msgs: seq<ChainMsg>, actors: map<Address, Actor>) {
    Acceptable(msgs, actors) && Tracks(c, msgs, actors)
  }
}
