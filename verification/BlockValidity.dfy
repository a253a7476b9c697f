/** The validator's loop over a block's messages (chain/sync.go, `checkBlockMessages`). */
module BlockValidity {
  import opened Wrappers
  import opened Messages
  import opened BlockRules

  lemma {:induction false} TotalGasGrows(msgs: seq<ChainMsg>, k: nat)
    requires k <= |msgs| && forall i :: 0 <= i < |msgs| ==> VmMessage(msgs[i]).gasLimit >= 0
    ensures TotalGas(msgs[..k]) <= TotalGas(msgs)
    decreases |msgs|
  {
    if k < |msgs| {
      var rest := msgs[..|msgs| - 1];
      TotalGasGrows(rest, k);
      assert rest[..k] == msgs[..k];
    } else {
      assert msgs[..k] == msgs;
    }
  }

  /** A fault in any prefix is a fault of the block. */
  lemma PrefixAcceptable(msgs: seq<ChainMsg>, k: nat, actors: map<Address, Actor>)
    requires k <= |msgs| && Acceptable(msgs, actors)
    ensures Acceptable(msgs[..k], actors)
  {
    TotalGasGrows(msgs, k);
    forall i | 0 <= i < k
      ensures Admissible(msgs[..k][i], actors) && NonceInTurn(msgs[..k], i, actors)
    {
      assert msgs[..k][..i] == msgs[..i] && msgs[..k][i] == msgs[i];
      assert Admissible(msgs[i], actors) && NonceInTurn(msgs, i, actors);
    }
  }

  /** One more message is acceptable exactly when it passes on its own. */
  lemma ExtendAcceptable(msgs: seq<ChainMsg>, cm: ChainMsg, actors: map<Address, Actor>)
    requires Acceptable(msgs, actors)
    ensures Acceptable(msgs + [cm], actors) <==>
      Admissible(cm, actors) && TotalGas(msgs) + VmMessage(cm).gasLimit <= BLOCK_GAS_LIMIT &&
      VmMessage(cm).nonce == actors[VmMessage(cm).from].nonce + CountFrom(msgs, VmMessage(cm).from)
  {
    var more := msgs + [cm];
    assert more[..|msgs|] == msgs && more[|msgs|] == cm;
    forall i | 0 <= i < |msgs|
      ensures more[i] == msgs[i] && more[..i] == msgs[..i]
      ensures Admissible(more[i], actors) && NonceInTurn(more, i, actors)
    {
      assert Admissible(msgs[i], actors) && NonceInTurn(msgs, i, actors);
    }
    if Acceptable(more, actors) {
      assert Admissible(more[|msgs|], actors) && NonceInTurn(more, |msgs|, actors);
    }
  }

  // ----- the validator's loop --------------------------------------------

  method CheckMsg(c: Checker, cm: ChainMsg, actors: map<Address, Actor>, ghost before: seq<ChainMsg>, ghost after: seq<ChainMsg>)
    returns (r: Option<Checker>)
    requires Passed(c, before, actors) && after == before + [cm]
    ensures r.Some? <==> Acceptable(after, actors)
    ensures r.Some? ==> Passed(r.value, after, actors)
  {
    ExtendAcceptable(before, cm, actors);
    assert after[..|before|] == before;
    var m := VmMessage(cm);
    if !ValidForBlockInclusion(m, OnChainMessage(ChainLength(cm))) {
      return None;
    }
    var sum := c.sumGasLimit + m.gasLimit;
    if sum > BLOCK_GAS_LIMIT {
      return None;
    }
    var nonces := c.nonces;
    if m.from !in nonces {
      if m.from !in actors {
        return None;
      }
      if !actors[m.from].account {
        return None;
      }
      nonces := nonces[m.from := actors[m.from].nonce];
    }
    if nonces[m.from] != m.nonce {
      return None;
    }
    nonces := nonces[m.from := nonces[m.from] + 1];
    return Some(Checker(nonces, sum));
  }

  method CheckMsgs(c: Checker, msgs: seq<ChainMsg>, actors: map<Address, Actor>, ghost before: seq<ChainMsg>)
    returns (r: Option<Checker>)
    requires Passed(c, before, actors)
    ensures r.Some? <==> Acceptable(before + msgs, actors)
    ensures r.Some? ==> Passed(r.value, before + msgs, actors)
  {
    var cur := c;
    ghost var seen, all := before, before + msgs;
    for i := 0 to |msgs|
      invariant Passed(cur, seen, actors) && seen + msgs[i..] == all
    {
      ghost var more := seen + [msgs[i]];
      assert more + msgs[i + 1..] == all;
      var next := CheckMsg(cur, msgs[i], actors, seen, more);
      if next.None? {
        NotAcceptable(all, more, actors);
        return None;
      }
      cur := next.value;
      seen := more;
    }
    assert seen == all;
    return Some(cur);
  }

  /** The validator accepts exactly the acceptable blocks, BLS messages first. */
  method CheckBlockMessages(bls: seq<Message>, secpk: seq<SignedMessage>, actors: map<Address, Actor>) returns (ok: bool)
    ensures ok <==> Acceptable(BlockMessages(bls, secpk), actors)
  {
    var bare := BlockMessages(bls, []);
    var signed := BlockMessages([], secpk);
    assert BlockMessages(bls, secpk) == bare + signed;
    assert [] + bare == bare;
    var c := CheckMsgs(Checker(map[], 0), bare, actors, []);
    if c.None? {
      NotAcceptable(bare + signed, bare, actors);
      return false;
    }
    c := CheckMsgs(c.value, signed, actors, bare);
    return c.Some?;
  }

  lemma NotAcceptable(msgs: seq<ChainMsg>, prefix: seq<ChainMsg>, actors: map<Address, Actor>)
    requires prefix <= msgs && !Acceptable(prefix, actors)
    ensures !Acceptable(msgs, actors)
  {
    assert msgs[..|prefix|] == prefix;
    if Acceptable(msgs, actors) {
      PrefixAcceptable(msgs, |prefix|, actors);
    }
  }
}
