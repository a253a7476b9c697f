/** The payment channel manager (paychmgr/paych.go, state.go and store.go): checking and
    storing vouchers, allocating lanes and nonces. */
module PaymentChannels {
  import opened Wrappers
  import opened LaneStates
  import opened ChannelBooks

  // ----- lane states -----------------------------------------------------

  /** The chain's lanes with all stored vouchers applied; merges are not handled. */
  method LaneState(state: ChainState, infos: seq<VoucherInfo>) returns (r: Option<Lanes>)
    ensures r.Some? <==> NoMerges(Stored(infos))
    ensures r.Some? ==> r.value == After(FromChain(state.lanes), Stored(infos))
  {
    var lanes := ChainLanes(state.lanes);
    ghost var done: Vouchers := [];
    for i := 0 to |infos|
      invariant done == Stored(infos)[..i] && NoMerges(done)
      invariant lanes == After(FromChain(state.lanes), done)
    {
      var v := infos[i].voucher;
      if v.merges > 0 {
        assert Stored(infos)[i].merges > 0;
        return None;
      }
      ghost var more := done + [v];
      OneMoreStored(infos, i, done, more);
      AfterOneMore(FromChain(state.lanes), done, v);
      lanes := ApplyVoucher(lanes, v);
      done := more;
    }
    assert Stored(infos)[..|infos|] == Stored(infos);
    return Some(lanes);
  }

  lemma OneMoreStored(infos: seq<VoucherInfo>, i: nat, done: Vouchers, more: Vouchers)
    requires i < |infos| && done == Stored(infos)[..i] && more == done + [infos[i].voucher]
    ensures more == Stored(infos)[..i + 1]
    ensures NoMerges(done) && infos[i].voucher.merges == 0 ==> NoMerges(more)
  {
  }

  method ApplyVoucher(lanes: Lanes, v: Voucher) returns (r: Lanes)
    ensures r == Applied(lanes, v)
  {
    r := lanes;
    var ls := if v.lane in lanes then lanes[v.lane] else LaneStates.LaneState(0, 0);
    if v.nonce < ls.nonce {
      return;
    }
    r := lanes[v.lane := LaneStates.LaneState(v.amount, v.nonce)];
  }

  method ChainLanes(entries: seq<LaneEntry>) returns (lanes: Lanes)
    ensures lanes == FromChain(entries)
  {
    lanes := map[];
    for i := 0 to |entries|
      invariant lanes == FromChain(entries[..i])
    {
      assert entries[..i + 1][..i] == entries[..i];
      lanes := lanes[entries[i].id := entries[i].state];
    }
    assert entries[..|entries|] == entries;
  }

  method SumLanes(lanes: Lanes) returns (total: int)
    ensures total == Total(lanes)
  {
    total := 0;
    var todo := lanes;
    while todo != map[]
      invariant total + Total(todo) == Total(lanes)
      decreases |todo|
    {
      var l := Pick(todo.Keys);
      TotalWithout(todo, l);
      total := total + todo[l].redeemed;
      todo := todo - {l};
    }
  }

  /** The voucher repeats its lane's nonce with another amount. */
  ghost predicate Ties(v: Voucher, lanes: Lanes) {
    v.lane in lanes && v.nonce == lanes[v.lane].nonce && v.amount != lanes[v.lane].redeemed
  }

  /** The total over all lanes with the voucher counted in. It agrees with the lanes
      recomputed with the voucher appended except when the voucher repeats a nonce. */
  method TotalRedeemedWithVoucher(lanes: Lanes, v: Voucher) returns (r: Option<int>)
    ensures r.Some? <==> v.merges == 0
    ensures r.Some? ==> (r.value == Total(Applied(lanes, v)) <==> !Ties(v, lanes))
  {
    if v.merges != 0 {
      return None;
    }
    AppliedTotal(lanes, v);
    var total := SumLanes(lanes);
    if v.lane in lanes {
      var lane := lanes[v.lane];
      if v.nonce > lane.nonce {
        var delta := v.amount - lane.redeemed;
        total := total + delta;
      }
    } else {
      total := total + v.amount;
    }
    return Some(total);
  }

  // ----- checking a voucher ----------------------------------------------

  /** Ahead of its lane, without merges, and covered by the channel's balance. */
  ghost predicate Valid(v: Voucher, ch: Address, state: Option<ChainState>, signed: bool, vs: Vouchers) {
    && v.channel == ch && state.Some? && signed && NoMerges(vs) && v.merges == 0
    && var lanes := After(FromChain(state.value.lanes), vs);
       Ahead(v, lanes) && Total(Applied(lanes, v)) + state.value.toSend <= state.value.balance
  }

  method CheckVoucherValid(ch: Address, v: Voucher, state: Option<ChainState>, signed: bool, infos: seq<VoucherInfo>)
    returns (r: Option<Lanes>)
    ensures r.Some? <==> Valid(v, ch, state, signed, Stored(infos))
    ensures r.Some? ==> r.value == After(FromChain(state.value.lanes), Stored(infos))
  {
    if v.channel != ch {
      return None;
    }
    if state.None? {
      return None;
    }
    if !signed {
      return None;
    }
    var found := LaneState(state.value, infos);
    if found.None? {
      return None;
    }
    var lanes := found.value;
    if v.lane in lanes && v.nonce <= lanes[v.lane].nonce {
      return None;
    }
    if v.lane in lanes && v.amount <= lanes[v.lane].redeemed {
      return None;
    }
    var totalRedeemed := TotalRedeemedWithVoucher(lanes, v);
    if totalRedeemed.None? {
      return None;
    }
    var newTotal := totalRedeemed.value + state.value.toSend;
    if state.value.balance < newTotal {
      return None;
    }
    if v.merges != 0 {
      return None;
    }
    return Some(lanes);
  }

  // ----- adding a voucher ------------------------------------------------

  datatype Outcome = Duplicate | Rejected | Accepted

  ghost predicate IsStored(v: Voucher, infos: seq<VoucherInfo>) {
    exists i :: 0 <= i < |infos| && infos[i].voucher == v
  }

  ghost predicate IsFirst(infos: seq<VoucherInfo>, v: Voucher, i: nat) {
    i < |infos| && infos[i].voucher == v && forall k :: 0 <= k < i ==> infos[k].voucher != v
  }

  /** The stored voucher has the new proof, unless that is empty. */
  ghost predicate ProofUpdated(infos: seq<VoucherInfo>, infos': seq<VoucherInfo>, v: Voucher, proof: Bytes) {
    forall i: nat :: IsFirst(infos, v, i) ==> infos' == if proof == [] then infos else infos[i := VoucherInfo(v, proof)]
  }

  /** What a voucher is worth beyond what its lane redeems already. */
  ghost function Gain(v: Voucher, state: ChainState, vs: Vouchers): int {
    v.amount - RedeemedOn(After(FromChain(state.lanes), vs), v.lane)
  }

  /** A known voucher: at most its proof changes. */
  ghost predicate Reproved(ci: ChannelInfo, ci': ChannelInfo, v: Voucher, proof: Bytes) {
    && Stored(ci'.vouchers) == Stored(ci.vouchers) && ci'.nextLane == ci.nextLane
    && ProofUpdated(ci.vouchers, ci'.vouchers, v, proof)
  }

  ghost predicate Acceptable(v: Voucher, ch: Address, state: Option<ChainState>, signed: bool, infos: seq<VoucherInfo>, minDelta: int) {
    !IsStored(v, infos) && Valid(v, ch, state, signed, Stored(infos)) && Gain(v, state.value, Stored(infos)) >= minDelta
  }

  /** Adds a voucher to a channel record. A known voucher only gets its proof updated. */
  method AddToChannel(ci: ChannelInfo, ch: Address, v: Voucher, proof: Bytes, minDelta: int, state: Option<ChainState>, signed: bool)
    returns (ci': ChannelInfo, delta: int, outcome: Outcome)
    ensures outcome == Duplicate <==> IsStored(v, ci.vouchers)
    ensures outcome == Duplicate ==> Reproved(ci, ci', v, proof) && delta == 0
    ensures outcome == Rejected ==> ci' == ci
    ensures outcome == Accepted <==> Acceptable(v, ch, state, signed, ci.vouchers, minDelta)
    ensures outcome == Accepted ==> Stored(ci'.vouchers) == Stored(ci.vouchers) + [v] && delta == Gain(v, state.value, Stored(ci.vouchers))
    ensures outcome == Accepted ==> ci'.nextLane == NextAfter(ci.nextLane, v.lane)
  {
    ci', delta := ci, 0;
    for i := 0 to |ci.vouchers|
      invariant ci' == ci && forall k :: 0 <= k < i ==> ci.vouchers[k].voucher != v
    {
      var info := ci.vouchers[i];
      if info.voucher != v {
        continue;
      }
      if |proof| > 0 && info.proof != proof {
        ci' := ci.(vouchers := ci.vouchers[i := VoucherInfo(info.voucher, proof)]);
      }
      assert IsFirst(ci.vouchers, v, i);
      return ci', 0, Duplicate;
    }
    var laneStates := CheckVoucherValid(ch, v, state, signed, ci.vouchers);
    if laneStates.None? {
      return ci, 0, Rejected;
    }
    var redeemed := 0;
    if v.lane in laneStates.value {
      redeemed := laneStates.value[v.lane].redeemed;
    }
    delta := v.amount - redeemed;
    if minDelta > delta {
      return ci, delta, Rejected;
    }
    ci' := ci.(vouchers := ci.vouchers + [VoucherInfo(v, proof)]);
    if ci.nextLane <= v.lane {
      ci' := ci'.(nextLane := Succ(v.lane));
    }
    return ci', delta, Accepted;
  }

  method NextLaneFromState(entries: seq<LaneEntry>) returns (next: Lane)
    ensures forall i :: 0 <= i < |entries| ==> entries[i].id < next || next == 0
    ensures next == 0 <==> entries == [] || exists i :: 0 <= i < |entries| && entries[i].id == MAX_UINT64
  {
    if |entries| == 0 {
      return 0;
    }
    var maxLane, k := entries[0].id, 0;
    for i := 0 to |entries|
      invariant 0 <= k < |entries| && entries[k].id == maxLane
      invariant forall j :: 0 <= j < i ==> entries[j].id <= maxLane
    {
      if entries[i].id > maxLane {
        maxLane, k := entries[i].id, i;
      }
    }
    return Succ(maxLane);
  }

  /** The nonce after all stored nonces of a lane; it wraps when the last one is taken. */
  method NextNonceForLane(infos: seq<VoucherInfo>, lane: Lane) returns (nonce: Uint64)
    ensures forall i :: 0 <= i < |infos| && infos[i].voucher.lane == lane ==> infos[i].voucher.nonce < nonce || nonce == 0
    ensures nonce == 0 <==> exists i :: 0 <= i < |infos| && infos[i].voucher.lane == lane && infos[i].voucher.nonce == MAX_UINT64
  {
    var maxNonce: Uint64 := 0;
    for i := 0 to |infos|
      invariant maxNonce == 0 || exists j :: 0 <= j < i && infos[j].voucher.lane == lane && infos[j].voucher.nonce == maxNonce
      invariant forall j :: 0 <= j < i && infos[j].voucher.lane == lane ==> infos[j].voucher.nonce <= maxNonce
    {
      if infos[i].voucher.lane == lane {
        if infos[i].voucher.nonce > maxNonce {
          maxNonce := infos[i].voucher.nonce;
        }
      }
    }
    return Succ(maxNonce);
  }

  // ----- the manager -----------------------------------------------------

  lemma AcceptedOk(vs: Vouchers, v: Voucher, ch: Address, state: ChainState, gained: int, more: Vouchers, total: int)
    requires ChannelOk(vs, state, gained) && Valid(v, ch, Some(state), true, vs)
    requires more == vs + [v] && total == gained + Gain(v, state, vs)
    ensures ChannelOk(more, state, total)
  {
    var lanes := After(FromChain(state.lanes), vs);
    AfterOneMore(FromChain(state.lanes), vs, v);
    AcceptKeeps(vs, v, lanes);
    AppliedTotal(lanes, v);
  }

  method Open(state: ChainState, control: Address, target: Address, direction: nat) returns (ci: ChannelInfo, ghost account: Account)
    ensures ci.vouchers == [] && account.gained == 0 && EntryOk(ci, state, account)
    ensures state.lanes == [] ==> ci.nextLane == 0 && account.used == {}
  {
    var next := NextLaneFromState(state.lanes);
    ci := ChannelInfo(control, target, direction, [], next);
    account := Account(0, set i | 0 <= i < |state.lanes| :: state.lanes[i].id);
    assert Stored(ci.vouchers) == [];
  }

  /** Adds a voucher and keeps the channel's account. */
  method AddAndAccount(ci: ChannelInfo, ch: Address, v: Voucher, proof: Bytes, minDelta: int, state: ChainState, signed: bool, ghost account: Account)
    returns (ci': ChannelInfo, delta: int, ok: bool, ghost account': Account)
    requires EntryOk(ci, state, account)
    ensures EntryOk(ci', state, account')
    ensures ok <==> IsStored(v, ci.vouchers) || Acceptable(v, ch, Some(state), signed, ci.vouchers, minDelta)
    ensures ok && !IsStored(v, ci.vouchers) ==> Grown(ci, account, v, delta, ci', account') && ci'.nextLane == NextAfter(ci.nextLane, v.lane)
    ensures IsStored(v, ci.vouchers) ==> Reproved(ci, ci', v, proof) && account' == account
    ensures !ok ==> ci' == ci && account' == account
  {
    var outcome;
    ci', delta, outcome := AddToChannel(ci, ch, v, proof, minDelta, Some(state), signed);
    ok, account' := outcome != Rejected, account;
    if outcome == Accepted {
      account' := Account(account.gained + delta, account.used + {v.lane});
      AcceptedOk(Stored(ci.vouchers), v, ch, state, account.gained, Stored(ci'.vouchers), account'.gained);
      AcceptedLanes(Stored(ci.vouchers), v, ci.nextLane, account.used, Stored(ci'.vouchers), ci'.nextLane, account'.used);
    }
  }

  lemma AcceptedLanes(vs: Vouchers, v: Voucher, next: Lane, used: set<Lane>, more: Vouchers, next': Lane, used': set<Lane>)
    requires LanesOk(vs, next, used) && more == vs + [v] && used' == used + {v.lane}
    requires next' == NextAfter(next, v.lane)
    ensures LanesOk(more, next', used')
  {
  }

  method TakeLane(ci: ChannelInfo, ghost state: ChainState, ghost account: Account)
    returns (ci': ChannelInfo, lane: Lane, ghost account': Account)
    requires EntryOk(ci, state, account)
    ensures EntryOk(ci', state, account') && account' == Account(account.gained, account.used + {lane})
    ensures MAX_UINT64 !in account.used ==> lane !in account.used
    ensures ci' == ci.(nextLane := NextAfter(ci.nextLane, lane)) && lane == ci.nextLane
  {
    lane := ci.nextLane;
    ci' := ci.(nextLane := Succ(ci.nextLane));
    account' := Account(account.gained, account.used + {lane});
  }

  class Manager {
    var store: map<Address, ChannelInfo>
    const chain: map<Address, ChainState>      // the channels on chain, which do not change
    ghost var accounts: map<Address, Account>

    ghost predicate Valid()
      reads this
    {
      AllOk(store, chain, accounts)
    }

    constructor (chain0: map<Address, ChainState>)
      ensures Valid() && store == map[] && chain == chain0
    {
      store, chain, accounts := map[], chain0, map[];
    }

    /** Starts tracking a channel that exists on chain. */
    method TrackChannel(ch: Address, control: Address, target: Address, direction: nat) returns (ok: bool)
      requires Valid()
      modifies this
      ensures Valid() && (ok <==> ch in chain && ch !in old(store))
      ensures Others(old(store), old(accounts), store, accounts, ch)
      ensures if ok then ch in store && ch in accounts && store[ch].vouchers == [] && accounts[ch].gained == 0
              else store == old(store) && accounts == old(accounts)
    {
      if ch !in chain {
        return false;
      }
      var ci;
      ghost var account;
      ci, account := Open(chain[ch], control, target, direction);
      if ch in store {
        return false;
      }
      SetEntry(store, chain, accounts, ch, ci, account);
      store := store[ch := ci];
      accounts := accounts[ch := account];
      return true;
    }

    method AddVoucher(ch: Address, v: Voucher, proof: Bytes, minDelta: int, signed: bool) returns (delta: int, ok: bool)
      requires Valid()
      modifies this
      ensures Valid() && Others(old(store), old(accounts), store, accounts, ch)
      ensures ch !in old(store) ==> !ok && store == old(store)
      ensures ch in old(store) ==> ch in store && ch in old(accounts) && ch in accounts
      ensures ch in old(store) ==> (ok <==> Takes(old(store)[ch], ch, v, chain[ch], signed, minDelta))
      ensures ok && !IsStored(v, old(store)[ch].vouchers) ==> Grown(old(store)[ch], old(accounts)[ch], v, delta, store[ch], accounts[ch])
      ensures ok && IsStored(v, old(store)[ch].vouchers) ==> Reproved(old(store)[ch], store[ch], v, proof) && accounts[ch] == old(accounts)[ch]
      ensures ch in old(store) && !ok ==> store[ch] == old(store)[ch] && accounts[ch] == old(accounts)[ch]
    {
      if ch !in store {
        return 0, false;
      }
      var ci;
      ghost var account;
      ci, delta, ok, account := AddAndAccount(store[ch], ch, v, proof, minDelta, chain[ch], signed, accounts[ch]);
      SetEntry(store, chain, accounts, ch, ci, account);
      store := store[ch := ci];
      accounts := accounts[ch := account];
    }

    /** A lane is handed out once, as long as the last lane was never used. */
    method AllocateLane(ch: Address) returns (lane: Option<Lane>)
      requires Valid()
      modifies this
      ensures Valid() && Others(old(store), old(accounts), store, accounts, ch)
      ensures lane.Some? <==> ch in old(store)
      ensures lane.Some? ==> ch in accounts && ch in old(accounts) && accounts[ch].used == old(accounts)[ch].used + {lane.value}
      ensures lane.Some? && MAX_UINT64 !in old(accounts)[ch].used ==> lane.value !in old(accounts)[ch].used
    {
      if ch !in store {
        return None;
      }
      var ci, out;
      ghost var account;
      ci, out, account := TakeLane(store[ch], chain[ch], accounts[ch]);
      SetEntry(store, chain, accounts, ch, ci, account);
      store := store[ch := ci];
      accounts := accounts[ch := account];
      return Some(out);
    }
  }

  /** A voucher is taken when it is known already or acceptable. */
  ghost predicate Takes(ci: ChannelInfo, ch: Address, v: Voucher, state: ChainState, signed: bool, minDelta: int) {
    IsStored(v, ci.vouchers) || Acceptable(v, ch, Some(state), signed, ci.vouchers, minDelta)
  }

  function NextAfter(next: Lane, lane: Lane): Lane {
    if next <= lane then Succ(lane) else next
  }

  /** After a lane is taken, by a voucher or by allocation, the next lane is unused unless the
      last lane was taken and lane zero is used: the lane number then wraps around to zero. */
  lemma NextLaneFresh(next: Lane, used: set<Lane>, lane: Lane)
    requires MAX_UINT64 !in used && forall l :: l in used ==> l < next
    ensures NextAfter(next, lane) !in used + {lane} <==> lane != MAX_UINT64 || 0 !in used
  {
  }

  /** A run in which a lane is handed out twice: lane zero, then a voucher on the last lane, then
      lane zero again. */
  method LastLaneRun(ch: Address, v: Voucher, proof: Bytes, balance: int) returns (first: Lane, again: Lane)
    requires v.channel == ch && v.lane == MAX_UINT64 && v.merges == 0 && 0 <= v.amount <= balance
    ensures again == first
  {
    var state := ChainState([], 0, balance);
    var ci;
    ghost var account;
    ci, account := Open(state, ch, ch, 0);
    ci, first, account := TakeLane(ci, state, account);
    FirstVoucher(ci.vouchers, ch, v, state);
    var delta, ok;
    ci, delta, ok, account := AddAndAccount(ci, ch, v, proof, 0, state, true, account);
    ci, again, account := TakeLane(ci, state, account);
  }

  lemma FirstVoucher(infos: seq<VoucherInfo>, ch: Address, v: Voucher, state: ChainState)
    requires infos == [] && state.lanes == [] && state.toSend == 0
    requires v.channel == ch && v.merges == 0 && 0 <= v.amount <= state.balance
    ensures Acceptable(v, ch, Some(state), true, infos, 0)
  {
    var none: Lanes := map[];
    assert Stored(infos) == [] && After(FromChain(state.lanes), Stored(infos)) == none;
    AppliedTotal(none, v);
  }
}
