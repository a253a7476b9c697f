/** Messages, signatures and actors, and the checks a message must pass to enter a
    block (chain/types/message.go, chain/vm/gas.go).

    A CID stands for the bytes it hashes, so two messages have the same CID exactly
    when they are the same value. */
module Messages {
  type Address = nat

  const UNDEF: Address := 0
  const BLOCK_GAS_LIMIT: int := 7_500_000_000
  const BLOCK_MESSAGE_LIMIT: nat := 512
  const TOTAL_FILECOIN: int := 2_000_000_000 * 1_000_000_000_000_000_000

  type Int64 = x: int | -0x8000_0000_0000_0000 <= x < 0x8000_0000_0000_0000

  /** `call` stands for method and parameters, `size` for the length of the encoding. */
  datatype Message = Message(version: int, to_: Address, from: Address, nonce: nat, value: int,
                             gasPrice: int, gasLimit: Int64, call: int, size: nat)

  datatype SigType = Secp256k1 | Bls

  datatype Signature = Signature(kind: SigType, data: int, size: nat)

  datatype SignedMessage = SignedMessage(message: Message, signature: Signature)

  datatype Actor = Actor(account: bool, nonce: nat, balance: int)

  /** A gas limit is an int64 that is charged as a uint64. */
  function AsUint64(x: Int64): nat {
    if x >= 0 then x else x + 0x1_0000_0000_0000_0000
  }

  /** A product written as a repeated sum, so that proofs which only carry amounts
      around stay linear; `TimesIsProduct` says what it is. */
  function Times(price: int, amount: nat): int {
    if amount == 0 then 0 else price + Times(price, amount - 1)
  }

  lemma {:induction false} TimesIsProduct(price: int, amount: nat)
    ensures Times(price, amount) == price * amount
    ensures price >= 0 ==> Times(price, amount) >= 0
  {
    if amount > 0 {
      TimesIsProduct(price, amount - 1);
    }
  }

  function RequiredFunds(m: Message): int {
    Times(m.gasPrice, AsUint64(m.gasLimit))
  }

  /** Encoded as a two-element array: one header byte, the message, the signature. */
  function SignedLength(sm: SignedMessage): nat {
    1 + sm.message.size + sm.signature.size
  }

  /** The price of storing a message of the given length on chain. */
  function OnChainMessage(length: nat): int {
    137137 * 1 + (36 + 1 * length) * 1000
  }

  predicate ValidForBlockInclusion(m: Message, minGas: int) {
    && m.version == 0
    && m.to_ != UNDEF
    && m.from != UNDEF
    && 0 <= m.value <= TOTAL_FILECOIN
    && 0 <= m.gasPrice
    && m.gasLimit <= BLOCK_GAS_LIMIT
    && minGas <= m.gasLimit
  }
}
