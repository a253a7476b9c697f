/** Receipt alignment: the messages listed for a tipset (chain/store/store.go,
    `MessagesForTipset`) are the messages its execution gave receipts for
    (chain/stmgr/stmgr.go, `ApplyBlocks`), in the same order. */
module Receipts {
  import opened Wrappers
  import opened Messages
  import opened BlockRules
  import opened TipsetMessages

  // ----- executed = taken ------------------------------------------------

  lemma SeenAppend(done: Msgs, cm: ChainMsg)
    ensures Seen(done + [cm]) == Seen(done) + {VmMessage(cm)}
  {
    var more := done + [cm];
    assert forall i :: 0 <= i < |done| ==> more[i] == done[i];
    assert more[|done|] == cm;
    forall m | m in Seen(done)
      ensures m in Seen(more)
    {
      var i :| 0 <= i < |done| && VmMessage(done[i]) == m;
      assert VmMessage(more[i]) == m;
    }
  }

  /** A message whose nonce does not jump ahead is new exactly when it is next. */
  lemma AgreeStep(done: Msgs, cm: ChainMsg, more: Msgs, universe: set<Message>, actors: map<Address, Actor>)
    requires Agree(done, universe, actors) && UniqueIn(universe) && more == done + [cm]
    requires VmMessage(cm) in universe && VmMessage(cm).from in actors
    requires VmMessage(cm).nonce <= Next(done, VmMessage(cm).from, actors[VmMessage(cm).from].nonce)
    ensures Agree(more, universe, actors)
  {
    assert more[..|done|] == done && more[|done|] == cm;
    SeenAppend(done, cm);
    var m := VmMessage(cm);
    forall x | x in universe && x.from in actors
      ensures x in Seen(more) <==> x.nonce < Next(more, x.from, actors[x.from].nonce)
    {
      assert x in Seen(done) <==> x.nonce < Next(done, x.from, actors[x.from].nonce);
    }
  }

  lemma NextGrows(done: Msgs, cm: ChainMsg, a: Address, nonce: nat)
    ensures Next(done, a, nonce) <= Next(done + [cm], a, nonce)
    ensures VmMessage(cm).from == a && VmMessage(cm).nonce <= Next(done, a, nonce) ==> VmMessage(cm).nonce < Next(done + [cm], a, nonce)
  {
    assert (done + [cm])[..|done|] == done;
  }

  lemma ThroughStep(done: Msgs, part: Msgs, cm: ChainMsg, more: Msgs, longer: Msgs, actors: map<Address, Actor>)
    requires Through(done, part, actors) && more == done + [cm] && longer == part + [cm]
    requires VmMessage(cm).from in actors
    requires VmMessage(cm).nonce == actors[VmMessage(cm).from].nonce + CountFrom(part, VmMessage(cm).from)
    ensures Through(more, longer, actors)
  {
    assert longer[..|part|] == part;
    forall a | a in actors
      ensures actors[a].nonce + CountFrom(longer, a) <= Next(more, a, actors[a].nonce)
    {
      NextGrows(done, cm, a, actors[a].nonce);
    }
  }

  lemma Slices(done: Msgs, block: Msgs, i: nat, k: nat)
    requires k == i + 1 <= |block|
    ensures block[..k] == block[..i] + [block[i]] && done + block[..k] == done + block[..i] + [block[i]]
  {
    assert block[..k] == block[..i] + [block[i]];
  }

  lemma {:induction false} AgreeBlock(done: Msgs, block: Msgs, k: nat, universe: set<Message>, actors: map<Address, Actor>)
    requires Agree(done, universe, actors) && UniqueIn(universe) && BlockInTurn(block, actors)
    requires forall i :: 0 <= i < |block| ==> VmMessage(block[i]) in universe
    requires Through(done, [], actors) && k <= |block|
    ensures Agree(done + block[..k], universe, actors) && Through(done + block[..k], block[..k], actors)
    decreases k
  {
    if k == 0 {
      assert done + block[..0] == done;
    } else {
      AgreeBlock(done, block, k - 1, universe, actors);
      var i := k - 1;
      var part, cm, longer := block[..i], block[i], block[..k];
      var before, after := done + part, done + longer;
      Slices(done, block, i, k);
      assert NonceInTurn(block, i, actors);
      ThroughStep(before, part, cm, after, longer, actors);
      AgreeStep(before, cm, after, universe, actors);
    }
  }

  lemma {:induction false} NextFromNonce(msgs: Msgs, a: Address, nonce: nat)
    ensures nonce <= Next(msgs, a, nonce)
    decreases |msgs|
  {
    if msgs != [] {
      NextFromNonce(msgs[..|msgs| - 1], a, nonce);
    }
  }

  lemma {:induction false} AgreeTipset(blocks: seq<Block>, universe: set<Message>, actors: map<Address, Actor>)
    requires UniqueIn(universe) && EveryBlockInTurn(blocks, actors)
    requires Seen(AllMessages(blocks)) <= universe
    requires forall m :: m in universe && m.from in actors ==> actors[m.from].nonce <= m.nonce
    ensures Agree(AllMessages(blocks), universe, actors)
    decreases |blocks|
  {
    if blocks != [] {
      var n := |blocks| - 1;
      var rest, block := AllMessages(blocks[..n]), BlockMessages(blocks[n].bls, blocks[n].secpk);
      var all := AllMessages(blocks);
      assert all == rest + block;
      SeenConcat(rest, block);
      AgreeTipset(blocks[..n], universe, actors);
      forall a | a in actors
        ensures actors[a].nonce + CountFrom([], a) <= Next(rest, a, actors[a].nonce)
      {
        NextFromNonce(rest, a, actors[a].nonce);
      }
      forall i | 0 <= i < |block|
        ensures VmMessage(block[i]) in universe
      {
        assert VmMessage(block[i]) in Seen(block);
      }
      AgreeBlock(rest, block, |block|, universe, actors);
      assert block[..|block|] == block;
    }
  }

  lemma SeenConcat(x: Msgs, y: Msgs)
    ensures Seen(x + y) == Seen(x) + Seen(y)
  {
    var z := x + y;
    forall m | m in Seen(x) + Seen(y)
      ensures m in Seen(z)
    {
      if m in Seen(x) {
        var i :| 0 <= i < |x| && VmMessage(x[i]) == m;
        assert VmMessage(z[i]) == m;
      } else {
        var i :| 0 <= i < |y| && VmMessage(y[i]) == m;
        assert VmMessage(z[|x| + i]) == m;
      }
    }
    forall m | m in Seen(z)
      ensures m in Seen(x) + Seen(y)
    {
      var i :| 0 <= i < |z| && VmMessage(z[i]) == m;
      if i < |x| {
        assert VmMessage(x[i]) == m;
      } else {
        assert VmMessage(y[i - |x|]) == m;
      }
    }
  }

  lemma {:induction false} NoncesFromState(blocks: seq<Block>, actors: map<Address, Actor>)
    requires EveryBlockInTurn(blocks, actors)
    ensures SendersKnown(AllMessages(blocks), actors)
    ensures forall m :: m in Seen(AllMessages(blocks)) ==> m.from in actors && actors[m.from].nonce <= m.nonce
    decreases |blocks|
  {
    if blocks != [] {
      var n := |blocks| - 1;
      var rest, block := AllMessages(blocks[..n]), BlockMessages(blocks[n].bls, blocks[n].secpk);
      NoncesFromState(blocks[..n], actors);
      SeenConcat(rest, block);
      forall m | m in Seen(block)
        ensures m.from in actors && actors[m.from].nonce <= m.nonce
      {
        var i :| 0 <= i < |block| && VmMessage(block[i]) == m;
        assert NonceInTurn(block, i, actors);
      }
    }
  }

  /** Execution runs exactly the messages that carry the expected nonce. */
  lemma ExecutedAreTaken(blocks: seq<Block>, actors: map<Address, Actor>)
    requires EveryBlockInTurn(blocks, actors) && NoncesUnique(AllMessages(blocks))
    ensures Executed(AllMessages(blocks)) == Taken(AllMessages(blocks), actors)
  {
    var all := AllMessages(blocks);
    NoncesFromState(blocks, actors);
    forall x, y | x in Seen(all) && y in Seen(all) && SameSlot(x, y)
      ensures x == y
    {
      var i :| 0 <= i < |all| && VmMessage(all[i]) == x;
      var j :| 0 <= j < |all| && VmMessage(all[j]) == y;
    }
    AgreeTipset(blocks, Seen(all), actors);
  }

  // ----- listed = taken, exactly when funded -----------------------------

  lemma CostAppend(msgs: Msgs, cm: ChainMsg, a: Address)
    ensures CostFrom(msgs + [cm], a) == CostFrom(msgs, a) + if VmMessage(cm).from == a then RequiredFunds(VmMessage(cm)) else 0
    ensures msgs + [] == msgs
  {
    assert (msgs + [cm])[..|msgs|] == msgs;
  }

  lemma {:induction false} ListedWithinBalance(msgs: Msgs, actors: map<Address, Actor>, a: Address)
    requires Solvent(msgs, actors) && a in actors
    ensures CostFrom(Listed(msgs, actors), a) <= actors[a].balance
    decreases |msgs|
  {
    if msgs != [] {
      var rest, last := msgs[..|msgs| - 1], msgs[|msgs| - 1];
      ListedWithinBalance(rest, actors, a);
      CostAppend(Listed(rest, actors), last, a);
    }
  }

  lemma {:induction false} CostOfTakenGrows(msgs: Msgs, actors: map<Address, Actor>, a: Address)
    requires Solvent(msgs, actors) && msgs != []
    ensures CostFrom(Taken(msgs[..|msgs| - 1], actors), a) <= CostFrom(Taken(msgs, actors), a)
  {
    var rest, last := msgs[..|msgs| - 1], msgs[|msgs| - 1];
    CostAppend(Taken(rest, actors), last, a);
  }

  lemma {:induction false} FundedAreListed(msgs: Msgs, actors: map<Address, Actor>)
    requires Solvent(msgs, actors) && Funded(Taken(msgs, actors), actors)
    ensures Listed(msgs, actors) == Taken(msgs, actors)
    decreases |msgs|
  {
    if msgs != [] {
      var rest, last := msgs[..|msgs| - 1], msgs[|msgs| - 1];
      forall a | a in actors
        ensures CostFrom(Taken(rest, actors), a) <= actors[a].balance
      {
        CostOfTakenGrows(msgs, actors, a);
      }
      FundedAreListed(rest, actors);
      CostAppend(Taken(rest, actors), last, VmMessage(last).from);
    }
  }

  /** The listed messages are the executed ones exactly when every sender can pay
      for all of its executed messages. */
  lemma ListedAreExecuted(blocks: seq<Block>, actors: map<Address, Actor>)
    requires EveryBlockInTurn(blocks, actors) && NoncesUnique(AllMessages(blocks)) && Solvent(AllMessages(blocks), actors)
    ensures Listed(AllMessages(blocks), actors) == Executed(AllMessages(blocks)) <==> Funded(Executed(AllMessages(blocks)), actors)
  {
    var all := AllMessages(blocks);
    ExecutedAreTaken(blocks, actors);
    if Funded(Executed(all), actors) {
      FundedAreListed(all, actors);
    }
    if Listed(all, actors) == Executed(all) {
      forall a | a in actors
        ensures CostFrom(Executed(all), a) <= actors[a].balance
      {
        ListedWithinBalance(all, actors, a);
      }
    }
  }

  // ----- the listing loop ------------------------------------------------

  lemma LookupKeeps(applied: map<Address, nat>, balances: map<Address, int>, done: Msgs, out: Msgs, actors: map<Address, Actor>,
                    a: Address, act: Actor)
    requires Ledger(applied, balances, done, out, actors) && a in actors && act == actors[a]
    ensures a !in applied ==> Ledger(applied[a := act.nonce], balances[a := act.balance], done, out, actors)
  {
    if a !in applied {
      var applied', balances' := applied[a := act.nonce], balances[a := act.balance];
      forall b
        ensures LedgerOf(applied', balances', done, out, actors, b)
      {
        assert LedgerOf(applied, balances, done, out, actors, b);
      }
    }
  }

  lemma SkipKeeps(applied: map<Address, nat>, balances: map<Address, int>, done: Msgs, out: Msgs, actors: map<Address, Actor>,
                  cm: ChainMsg, more: Msgs)
    requires Ledger(applied, balances, done, out, actors) && more == done + [cm]
    requires VmMessage(cm).from in applied && applied[VmMessage(cm).from] != VmMessage(cm).nonce
    ensures Ledger(applied, balances, more, out, actors)
  {
    assert more[..|done|] == done && out + [] == out;
    assert LedgerOf(applied, balances, done, out, actors, VmMessage(cm).from);
    forall b
      ensures LedgerOf(applied, balances, more, out, actors, b)
    {
      assert LedgerOf(applied, balances, done, out, actors, b);
    }
  }

  lemma NextAppend(done: Msgs, cm: ChainMsg, more: Msgs, b: Address, nonce: nat)
    requires more == done + [cm]
    ensures var (next, m) := (Next(done, b, nonce), VmMessage(cm));
      Next(more, b, nonce) == if m.from == b && m.nonce == next then next + 1 else next
  {
    assert more[..|done|] == done;
  }

  lemma ListedAppend(done: Msgs, cm: ChainMsg, more: Msgs, actors: map<Address, Actor>)
    requires more == done + [cm]
    ensures var before := Listed(done, actors);
      Listed(more, actors) == if InTurn(done, cm, actors) && Affordable(before, cm, actors) then before + [cm] else before
  {
    assert more[..|done|] == done;
  }

  /** A message in turn that its sender cannot pay for. */
  lemma UnpaidKeeps(applied: map<Address, nat>, balances: map<Address, int>, done: Msgs, out: Msgs, actors: map<Address, Actor>,
                    cm: ChainMsg, more: Msgs, a: Address, next: nat)
    requires Ledger(applied, balances, done, out, actors) && more == done + [cm]
    requires a == VmMessage(cm).from && a in applied && applied[a] == VmMessage(cm).nonce
    requires next == applied[a] + 1 && a in balances && balances[a] < RequiredFunds(VmMessage(cm))
    ensures Ledger(applied[a := next], balances, more, out, actors)
  {
    var applied' := applied[a := next];
    assert LedgerOf(applied, balances, done, out, actors, a);
    ListedAppend(done, cm, more, actors);
    forall b
      ensures LedgerOf(applied', balances, more, out, actors, b)
    {
      assert LedgerOf(applied, balances, done, out, actors, b);
      if b in actors {
        NextAppend(done, cm, more, b, actors[b].nonce);
      }
    }
  }

  /** A message in turn that its sender pays for. */
  lemma PaidKeeps(applied: map<Address, nat>, balances: map<Address, int>, done: Msgs, out: Msgs, actors: map<Address, Actor>,
                  cm: ChainMsg, more: Msgs, a: Address, next: nat, left: int)
    requires Ledger(applied, balances, done, out, actors) && more == done + [cm]
    requires a == VmMessage(cm).from && a in applied && applied[a] == VmMessage(cm).nonce
    requires next == applied[a] + 1 && a in balances && left == balances[a] - RequiredFunds(VmMessage(cm)) && left >= 0
    ensures Ledger(applied[a := next], balances[a := left], more, out + [cm], actors)
  {
    var applied', balances', longer := applied[a := next], balances[a := left], out + [cm];
    assert LedgerOf(applied, balances, done, out, actors, a);
    ListedAppend(done, cm, more, actors);
    forall b
      ensures LedgerOf(applied', balances', more, longer, actors, b)
    {
      assert LedgerOf(applied, balances, done, out, actors, b);
      CostAppend(out, cm, b);
      if b in actors {
        NextAppend(done, cm, more, b, actors[b].nonce);
      }
    }
  }

  method ListOne(cm: ChainMsg, applied0: map<Address, nat>, balances0: map<Address, int>, out0: Msgs, actors: map<Address, Actor>,
                 ghost done: Msgs, ghost more: Msgs)
    returns (ok: bool, applied: map<Address, nat>, balances: map<Address, int>, out: Msgs)
    requires Ledger(applied0, balances0, done, out0, actors) && more == done + [cm]
    ensures ok <==> VmMessage(cm).from in actors
    ensures ok ==> Ledger(applied, balances, more, out, actors)
  {
    ok, applied, balances, out := true, applied0, balances0, out0;
    var m := VmMessage(cm);
    var a := m.from;
    if a !in applied {
      if a !in actors {
        return false, applied, balances, out;
      }
      LookupKeeps(applied, balances, done, out, actors, a, actors[a]);
      applied := applied[a := actors[a].nonce];
      balances := balances[a := actors[a].balance];
    }
    assert LedgerOf(applied, balances, done, out, actors, a);
    if applied[a] != m.nonce {
      SkipKeeps(applied, balances, done, out, actors, cm, more);
      return;
    }
    var next, left := applied[a] + 1, balances[a] - RequiredFunds(m);
    if left < 0 {
      UnpaidKeeps(applied, balances, done, out, actors, cm, more, a, next);
      applied := applied[a := next];
      return;
    }
    PaidKeeps(applied, balances, done, out, actors, cm, more, a, next, left);
    applied := applied[a := next];
    balances := balances[a := left];
    out := out + [cm];
  }

  method ListMessages(msgs: Msgs, applied0: map<Address, nat>, balances0: map<Address, int>, out0: Msgs, actors: map<Address, Actor>, ghost before: Msgs)
    returns (ok: bool, applied: map<Address, nat>, balances: map<Address, int>, out: Msgs)
    requires Ledger(applied0, balances0, before, out0, actors)
    ensures ok <==> SendersKnown(msgs, actors)
    ensures ok ==> Ledger(applied, balances, before + msgs, out, actors)
  {
    ok, applied, balances, out := true, applied0, balances0, out0;
    ghost var done := before;
    for i := 0 to |msgs|
      invariant Ledger(applied, balances, done, out, actors) && done + msgs[i..] == before + msgs
      invariant ok && forall j :: 0 <= j < i ==> VmMessage(msgs[j]).from in actors
    {
      ghost var more := done + [msgs[i]];
      assert more + msgs[i + 1..] == done + msgs[i..];
      ok, applied, balances, out := ListOne(msgs[i], applied, balances, out, actors, done, more);
      if !ok {
        return;
      }
      done := more;
    }
    assert done == before + msgs;
  }

  /** Lists the tipset's messages, or fails when a sender does not exist. */
  method MessagesForTipset(blocks: seq<Block>, actors: map<Address, Actor>) returns (r: Option<Msgs>)
    ensures r.Some? <==> SendersKnown(AllMessages(blocks), actors)
    ensures r.Some? ==> r.value == Listed(AllMessages(blocks), actors)
  {
    var applied: map<Address, nat>, balances: map<Address, int> := map[], map[];
    var out: Msgs := [];
    for k := 0 to |blocks|
      invariant Ledger(applied, balances, AllMessages(blocks[..k]), out, actors) && SendersKnown(AllMessages(blocks[..k]), actors)
    {
      assert blocks[..k + 1][..k] == blocks[..k];
      var cmsgs := BlockMessages(blocks[k].bls, blocks[k].secpk);
      ghost var done := AllMessages(blocks[..k]);
      KnownConcat(done, cmsgs, actors);
      var ok;
      ok, applied, balances, out := ListMessages(cmsgs, applied, balances, out, actors, done);
      if !ok {
        KnownPrefix(blocks, k + 1, actors);
        return None;
      }
    }
    assert blocks[..|blocks|] == blocks;
    return Some(out);
  }

  lemma KnownConcat(x: Msgs, y: Msgs, actors: map<Address, Actor>)
    ensures SendersKnown(x + y, actors) <==> SendersKnown(x, actors) && SendersKnown(y, actors)
  {
    assert forall i :: 0 <= i < |x| ==> x[i] == (x + y)[i];
    assert forall i :: 0 <= i < |y| ==> y[i] == (x + y)[|x| + i];
  }

  lemma {:induction false} KnownPrefix(blocks: seq<Block>, k: nat, actors: map<Address, Actor>)
    requires k <= |blocks| && !SendersKnown(AllMessages(blocks[..k]), actors)
    ensures !SendersKnown(AllMessages(blocks), actors)
    decreases |blocks|
  {
    var n := |blocks| - 1;
    if k == |blocks| {
      assert blocks[..k] == blocks;
    } else {
      assert blocks[..n][..k] == blocks[..k];
      KnownPrefix(blocks[..n], k, actors);
      KnownConcat(AllMessages(blocks[..n]), BlockMessages(blocks[n].bls, blocks[n].secpk), actors);
    }
  }

  // ----- the executor's loop ---------------------------------------------

  datatype Ret<R> = Ret(receipt: R, gasUsed: int, penalty: int)

  /** What a block's miner is paid for: the gas of the block's new messages and their penalties. */
  datatype Award = Award(block: nat, gasReward: int, penalty: int)

  /** The virtual machine: applying a message, rewarding a miner and the closing cron, each of
      which may fail. */
  datatype Vm<!V, !R> = Vm(apply: (V, ChainMsg) -> Option<(V, Ret<R>)>, award: (V, Award) -> Option<V>, cron: V -> Option<V>)

  /** What the virtual machine is asked to do, in order. */
  datatype VmOp = Run(cm: ChainMsg) | Pay(block: nat) | Cron

  /** The machine's state, the receipts so far, and what the current block has earned. */
  datatype Machine<V, R> = Machine(state: V, receipts: seq<R>, gasReward: int, penalty: int)

  function Charged<V, R>(m: Machine<V, R>, cm: ChainMsg, state: V, ret: Ret<R>): Machine<V, R> {
    Machine(state, m.receipts + [ret.receipt], m.gasReward + VmMessage(cm).gasPrice * ret.gasUsed, m.penalty + ret.penalty)
  }

  ghost function Step<V, R>(m: Machine<V, R>, op: VmOp, vm: Vm<V, R>): Option<Machine<V, R>> {
    match op
    case Run(cm) =>
      var ran := vm.apply(m.state, cm);
      if ran.None? then None else Some(Charged(m, cm, ran.value.0, ran.value.1))
    case Pay(k) =>
      var paid := vm.award(m.state, Award(k, m.gasReward, m.penalty));
      if paid.None? then None else Some(Machine(paid.value, m.receipts, 0, 0))
    case Cron =>
      var done := vm.cron(m.state);
      if done.None? then None else Some(m.(state := done.value))
  }

  /** The machine after the operations, unless one fails. */
  ghost function Play<V, R>(ops: seq<VmOp>, start: Machine<V, R>, vm: Vm<V, R>): Option<Machine<V, R>> {
    if ops == [] then Some(start) else
    var before := Play(ops[..|ops| - 1], start, vm);
    if before.None? then None else Step(before.value, ops[|ops| - 1], vm)
  }

  lemma PlayOneMore<V, R>(ops: seq<VmOp>, op: VmOp, start: Machine<V, R>, vm: Vm<V, R>, m: Machine<V, R>, more: seq<VmOp>)
    requires more == ops + [op] && Play(ops, start, vm) == Some(m)
    ensures Play(more, start, vm) == Step(m, op, vm)
  {
    assert more[..|ops|] == ops;
  }

  ghost function Runs(msgs: Msgs): seq<VmOp> {
    seq(|msgs|, i requires 0 <= i < |msgs| => Run(msgs[i]))
  }

  /** Each block's new messages, then its miner's reward. */
  ghost function OpsOf(blocks: seq<Block>): seq<VmOp> {
    if blocks == [] then [] else
    var front := blocks[..|blocks| - 1];
    OpsOf(front) + Runs(NewIn(AllMessages(front), AllMessages(blocks))) + [Pay(|blocks| - 1)]
  }

  /** The messages executed beyond the earlier ones. */
  ghost function NewIn(before: Msgs, after: Msgs): Msgs {
    var n := |Executed(before)|;
    if n <= |Executed(after)| then Executed(after)[n..] else []
  }

  ghost predicate NeverFails<V(!new), R(!new)>(vm: Vm<V, R>) {
    && (forall v, cm :: vm.apply(v, cm).Some?) && (forall v, a :: vm.award(v, a).Some?) && (forall v :: vm.cron(v).Some?)
  }

  /** Part way through a block: `latest` are its new messages so far. */
  ghost predicate Applying<V, R>(done: Msgs, executed: Msgs, processed: set<Message>, executed0: Msgs, latest: Msgs,
                                 ops0: seq<VmOp>, ops: seq<VmOp>, start: Machine<V, R>, vm: Vm<V, R>, m: Machine<V, R>) {
    && executed == Executed(done) == executed0 + latest && processed == Seen(done)
    && ops == ops0 + Runs(latest) && Play(ops, start, vm) == Some(m)
  }

  lemma RunStep<V, R>(done: Msgs, executed: Msgs, processed: set<Message>, executed0: Msgs, latest: Msgs, ops0: seq<VmOp>, ops: seq<VmOp>,
                      start: Machine<V, R>, vm: Vm<V, R>, m: Machine<V, R>, cm: ChainMsg, m': Machine<V, R>)
    requires Applying(done, executed, processed, executed0, latest, ops0, ops, start, vm, m)
    requires VmMessage(cm) !in processed && Step(m, Run(cm), vm) == Some(m')
    ensures Applying(done + [cm], executed + [cm], processed + {VmMessage(cm)}, executed0, latest + [cm], ops0, ops + [Run(cm)], start, vm, m')
  {
    ExecutedAppend(done, cm, done + [cm]);
    SeenAppend(done, cm);
    PlayOneMore(ops, Run(cm), start, vm, m, ops + [Run(cm)]);
    OneMoreRun(ops0, latest, cm, executed0);
  }

  lemma SkipStep<V, R>(done: Msgs, executed: Msgs, processed: set<Message>, executed0: Msgs, latest: Msgs, ops0: seq<VmOp>, ops: seq<VmOp>,
                       start: Machine<V, R>, vm: Vm<V, R>, m: Machine<V, R>, cm: ChainMsg)
    requires Applying(done, executed, processed, executed0, latest, ops0, ops, start, vm, m) && VmMessage(cm) in processed
    ensures Applying(done + [cm], executed, processed, executed0, latest, ops0, ops, start, vm, m)
  {
    ExecutedAppend(done, cm, done + [cm]);
    SeenAppend(done, cm);
    assert processed + {VmMessage(cm)} == processed;
  }

  lemma ApplyingStarts<V, R>(done: Msgs, ops: seq<VmOp>, start: Machine<V, R>, vm: Vm<V, R>, m: Machine<V, R>)
    requires Play(ops, start, vm) == Some(m)
    ensures Applying(done, Executed(done), Seen(done), Executed(done), [], ops, ops, start, vm, m)
  {
    assert ops + Runs([]) == ops && Executed(done) + [] == Executed(done);
  }

  /** One block's messages, after those of the earlier blocks. */
  method ApplyAll<V(!new), R(!new)>(msgs: Msgs, m0: Machine<V, R>, executed0: Msgs, processed0: set<Message>, vm: Vm<V, R>,
                                    ghost before: Msgs, ghost ops0: seq<VmOp>, ghost start: Machine<V, R>)
    returns (r: Option<(Msgs, set<Message>, Machine<V, R>)>, ghost ops: seq<VmOp>)
    requires executed0 == Executed(before) && processed0 == Seen(before) && Play(ops0, start, vm) == Some(m0)
    ensures r.Some? ==> r.value.0 == Executed(before + msgs) && r.value.1 == Seen(before + msgs)
    ensures r.Some? ==> ops == ops0 + Runs(NewIn(before, before + msgs)) && Play(ops, start, vm) == Some(r.value.2)
    ensures NeverFails(vm) ==> r.Some?
  {
    var m, executed, processed := m0, executed0, processed0;
    ops := ops0;
    ghost var done, latest: Msgs := before, [];
    ApplyingStarts(before, ops0, start, vm, m0);
    for i := 0 to |msgs|
      invariant done + msgs[i..] == before + msgs
      invariant Applying(done, executed, processed, executed0, latest, ops0, ops, start, vm, m)
    {
      var cm := msgs[i];
      assert (done + [cm]) + msgs[i + 1..] == done + msgs[i..];
      if VmMessage(cm) !in processed {
        var ran := vm.apply(m.state, cm);
        if ran.None? {
          return None, ops;
        }
        var m' := Charged(m, cm, ran.value.0, ran.value.1);
        RunStep(done, executed, processed, executed0, latest, ops0, ops, start, vm, m, cm, m');
        ops, latest := ops + [Run(cm)], latest + [cm];
        m, executed, processed := m', executed + [cm], processed + {VmMessage(cm)};
      } else {
        SkipStep(done, executed, processed, executed0, latest, ops0, ops, start, vm, m, cm);
      }
      done := done + [cm];
    }
    assert done == before + msgs;
    assert NewIn(before, done) == latest;
    return Some((executed, processed, m)), ops;
  }

  lemma ExecutedAppend(done: Msgs, cm: ChainMsg, more: Msgs)
    requires more == done + [cm]
    ensures Executed(more) == if VmMessage(cm) in Seen(done) then Executed(done) else Executed(done) + [cm]
  {
    assert more[..|done|] == done;
  }

  lemma OneMoreRun(ops0: seq<VmOp>, latest: Msgs, cm: ChainMsg, executed0: Msgs)
    ensures ops0 + Runs(latest) + [Run(cm)] == ops0 + Runs(latest + [cm])
    ensures executed0 + latest + [cm] == executed0 + (latest + [cm])
  {
  }

  /** Executes every block's messages, each message once, rewards each block's miner for them,
      and closes with cron. */
  method ApplyBlocks<V(!new), R(!new)>(blocks: seq<Block>, state: V, vm: Vm<V, R>) returns (r: Option<(Msgs, Machine<V, R>)>)
    ensures r.Some? ==> r.value.0 == Executed(AllMessages(blocks))
    ensures r.Some? ==> Play(OpsOf(blocks) + [Cron], Machine(state, [], 0, 0), vm) == Some(r.value.1)
    ensures r.None? ==> !NeverFails(vm)
  {
    var m, executed: Msgs, processed: set<Message> := Machine(state, [], 0, 0), [], {};
    ghost var start, ops: seq<VmOp> := m, [];
    for k := 0 to |blocks|
      invariant executed == Executed(AllMessages(blocks[..k])) && processed == Seen(AllMessages(blocks[..k]))
      invariant ops == OpsOf(blocks[..k]) && Play(ops, start, vm) == Some(m)
    {
      assert blocks[..k + 1][..k] == blocks[..k];
      var ran, done := ApplyAll(BlockMessages(blocks[k].bls, blocks[k].secpk), m, executed, processed, vm,
                                AllMessages(blocks[..k]), ops, start);
      if ran.None? {
        return None;
      }
      executed, processed, m := ran.value.0, ran.value.1, ran.value.2;
      var paid := vm.award(m.state, Award(k, m.gasReward, m.penalty));
      if paid.None? {
        return None;
      }
      PlayOneMore(done, Pay(k), start, vm, m, done + [Pay(k)]);
      ops := done + [Pay(k)];
      m := Machine(paid.value, m.receipts, 0, 0);
    }
    assert blocks[..|blocks|] == blocks;
    var closed := vm.cron(m.state);
    if closed.None? {
      return None;
    }
    PlayOneMore(ops, Cron, start, vm, m, ops + [Cron]);
    return Some((executed, m.(state := closed.value)));
  }

  // ----- alignment -------------------------------------------------------

  /** The messages among the operations. */
  ghost function RunsIn(ops: seq<VmOp>): Msgs {
    if ops == [] then [] else
    RunsIn(ops[..|ops| - 1]) + if ops[|ops| - 1].Run? then [ops[|ops| - 1].cm] else []
  }

  lemma {:induction false} RunsInConcat(x: seq<VmOp>, y: seq<VmOp>)
    ensures RunsIn(x + y) == RunsIn(x) + RunsIn(y)
    decreases |y|
  {
    if y == [] {
      assert x + y == x && RunsIn(x) + [] == RunsIn(x);
    } else {
      var n := |y| - 1;
      RunsInConcat(x, y[..n]);
      assert (x + y)[..|x| + n] == x + y[..n] && (x + y)[|x| + n] == y[n];
    }
  }

  lemma {:induction false} RunsInRuns(msgs: Msgs)
    ensures RunsIn(Runs(msgs)) == msgs
  {
    if msgs != [] {
      RunsInRuns(msgs[..|msgs| - 1]);
      assert Runs(msgs)[..|msgs| - 1] == Runs(msgs[..|msgs| - 1]);
    }
  }

  lemma {:induction false} ExecutedGrows(x: Msgs, y: Msgs)
    ensures Executed(x) <= Executed(x + y)
    decreases |y|
  {
    if y == [] {
      assert x + y == x;
    } else {
      var n := |y| - 1;
      ExecutedGrows(x, y[..n]);
      ExecutedAppend(x + y[..n], y[n], x + y);
    }
  }

  /** The tipset's operations run exactly the executed messages, in order. */
  lemma {:induction false} OpsRunExecuted(blocks: seq<Block>)
    ensures RunsIn(OpsOf(blocks)) == Executed(AllMessages(blocks))
  {
    if blocks != [] {
      var n := |blocks| - 1;
      var front, msgs := blocks[..n], BlockMessages(blocks[n].bls, blocks[n].secpk);
      var latest := NewIn(AllMessages(front), AllMessages(blocks));
      OpsRunExecuted(front);
      ExecutedGrows(AllMessages(front), msgs);
      RunsInConcat(OpsOf(front), Runs(latest));
      RunsInRuns(latest);
      RunsInConcat(OpsOf(front) + Runs(latest), [Pay(n)]);
      assert RunsIn([Pay(n)]) == [];
    }
  }

  /** Receipt `i` is what the machine returned for message `i` in the state that the operations
      before that message left it in, `i` messages among them. */
  ghost predicate ReceiptAt<V(!new), R>(ops: seq<VmOp>, start: Machine<V, R>, vm: Vm<V, R>, i: nat, cm: ChainMsg, receipt: R) {
    exists p :: 0 <= p < |ops| && MadeAt(ops, start, vm, p, i, cm, receipt)
  }

  ghost predicate MadeAt<V, R>(ops: seq<VmOp>, start: Machine<V, R>, vm: Vm<V, R>, p: nat, i: nat, cm: ChainMsg, receipt: R)
    requires p < |ops|
  {
    && ops[p] == Run(cm) && |RunsIn(ops[..p])| == i && Play(ops[..p], start, vm).Some?
    && var ran := vm.apply(Play(ops[..p], start, vm).value.state, cm); ran.Some? && ran.value.1.receipt == receipt
  }

  ghost predicate Aligned<V(!new), R>(ops: seq<VmOp>, start: Machine<V, R>, vm: Vm<V, R>, msgs: Msgs, receipts: seq<R>) {
    |receipts| == |msgs| && forall i :: 0 <= i < |msgs| ==> ReceiptAt(ops, start, vm, i, msgs[i], receipts[i])
  }

  lemma ReceiptStays<V(!new), R>(front: seq<VmOp>, ops: seq<VmOp>, start: Machine<V, R>, vm: Vm<V, R>, i: nat, cm: ChainMsg, receipt: R)
    requires front <= ops && ReceiptAt(front, start, vm, i, cm, receipt)
    ensures ReceiptAt(ops, start, vm, i, cm, receipt)
  {
    var p :| 0 <= p < |front| && MadeAt(front, start, vm, p, i, cm, receipt);
    assert front[..p] == ops[..p] && front[p] == ops[p];
    assert MadeAt(ops, start, vm, p, i, cm, receipt);
  }

  lemma AlignStep<V(!new), R>(front: seq<VmOp>, op: VmOp, ops: seq<VmOp>, start: Machine<V, R>, vm: Vm<V, R>, m: Machine<V, R>, m': Machine<V, R>)
    requires ops == front + [op] && Play(front, start, vm) == Some(m) && Step(m, op, vm) == Some(m')
    requires Aligned(front, start, vm, RunsIn(front), m.receipts)
    ensures Aligned(ops, start, vm, RunsIn(ops), m'.receipts)
  {
    assert ops[..|front|] == front;
    forall i | 0 <= i < |RunsIn(ops)|
      ensures ReceiptAt(ops, start, vm, i, RunsIn(ops)[i], m'.receipts[i])
    {
      if i < |RunsIn(front)| {
        ReceiptStays(front, ops, start, vm, i, RunsIn(front)[i], m.receipts[i]);
      } else {
        assert MadeAt(ops, start, vm, |front|, i, RunsIn(ops)[i], m'.receipts[i]);
      }
    }
  }

  /** Every run of the machine gives its messages their own receipts. */
  lemma {:induction false} PlayAligns<V(!new), R>(ops: seq<VmOp>, start: Machine<V, R>, vm: Vm<V, R>)
    requires start.receipts == [] && Play(ops, start, vm).Some?
    ensures Aligned(ops, start, vm, RunsIn(ops), Play(ops, start, vm).value.receipts)
  {
    if ops != [] {
      var n := |ops| - 1;
      var front := ops[..n];
      PlayAligns(front, start, vm);
      assert ops == front + [ops[n]];
      AlignStep(front, ops[n], ops, start, vm, Play(front, start, vm).value, Play(ops, start, vm).value);
    }
  }

  /** Alignment: on a funded tipset the listed message at an index and the receipt at
      that index belong together. */
  method ReceiptAlignment<V(!new), R(!new)>(blocks: seq<Block>, actors: map<Address, Actor>, state: V, vm: Vm<V, R>)
    returns (listed: Msgs, receipts: seq<R>, ran: bool)
    requires EveryBlockInTurn(blocks, actors) && NoncesUnique(AllMessages(blocks)) && Solvent(AllMessages(blocks), actors)
    requires Funded(Executed(AllMessages(blocks)), actors)
    ensures listed == Executed(AllMessages(blocks))
    ensures ran ==> Aligned(OpsOf(blocks) + [Cron], Machine(state, [], 0, 0), vm, listed, receipts)
    ensures !ran ==> !NeverFails(vm)
  {
    NoncesFromState(blocks, actors);
    ListedAreExecuted(blocks, actors);
    var l := MessagesForTipset(blocks, actors);
    var e := ApplyBlocks(blocks, state, vm);
    listed, receipts, ran := l.value, [], false;
    if e.Some? {
      receipts, ran := e.value.1.receipts, true;
      PlayAligns(OpsOf(blocks) + [Cron], Machine(state, [], 0, 0), vm);
      OpsRunExecuted(blocks);
      RunsInConcat(OpsOf(blocks), [Cron]);
      assert RunsIn([Cron]) == [];
    }
  }

  // ----- searching a tipset for a message --------------------------------

  lemma {:induction false} ListedAscending(msgs: Msgs, actors: map<Address, Actor>)
    ensures Ascending(Listed(msgs, actors))
    ensures forall i :: 0 <= i < |Listed(msgs, actors)| ==> BelowNext(Listed(msgs, actors)[i], msgs, actors)
    decreases |msgs|
  {
    if msgs != [] {
      var rest, last := msgs[..|msgs| - 1], msgs[|msgs| - 1];
      ListedAscending(rest, actors);
    }
  }

  ghost predicate BelowNext(cm: ChainMsg, msgs: Msgs, actors: map<Address, Actor>) {
    VmMessage(cm).from in actors && VmMessage(cm).nonce < Next(msgs, VmMessage(cm).from, actors[VmMessage(cm).from].nonce)
  }

  datatype Search = Found(index: nat) | Conflict | Absent

  /** Searches backwards and stops at the first smaller nonce of the same sender. */
  method TipsetExecutedMessage(cm: Msgs, target: ChainMsg) returns (r: Search)
    requires Ascending(cm)
    ensures r.Found? ==> r.index < |cm| && Cid(cm[r.index]) == Cid(target)
    ensures r.Conflict? ==> exists i :: 0 <= i < |cm| && SameSlot(VmMessage(cm[i]), VmMessage(target)) && Cid(cm[i]) != Cid(target)
    ensures r.Absent? <==> forall i :: 0 <= i < |cm| ==> !SameSlot(VmMessage(cm[i]), VmMessage(target))
  {
    var vmm := VmMessage(target);
    for ii := 0 to |cm|
      invariant forall j :: |cm| - ii <= j < |cm| ==> !SameSlot(VmMessage(cm[j]), vmm)
    {
      var i := |cm| - ii - 1;
      var m := VmMessage(cm[i]);
      if m.from == vmm.from {
        if m.nonce == vmm.nonce {
          if Cid(cm[i]) == Cid(target) {
            return Found(i);
          }
          return Conflict;
        }
        if m.nonce < vmm.nonce {
          return Absent;
        }
      }
    }
    return Absent;
  }
}
