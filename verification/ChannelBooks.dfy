/** The records of the payment channel manager (paychmgr/store.go) and what every run
    keeps true of them. */
module ChannelBooks {
  import opened LaneStates

  type Bytes = seq<nat>

  datatype VoucherInfo = VoucherInfo(voucher: Voucher, proof: Bytes)

  datatype ChannelInfo = ChannelInfo(control: Address, target: Address, direction: nat, vouchers: seq<VoucherInfo>, nextLane: Lane)

  ghost function Stored(infos: seq<VoucherInfo>): (vs: Vouchers)
    ensures |vs| == |infos| && forall i :: 0 <= i < |infos| ==> vs[i] == infos[i].voucher
  {
    seq(|infos|, i requires 0 <= i < |infos| => infos[i].voucher)
  }

  // ----- accounts --------------------------------------------------------

  /** What a run did to a channel: the accepted deltas and the lanes ever used. */
  datatype Account = Account(gained: int, used: set<Lane>)

  /** Stored vouchers go up in nonce and amount on every lane, the total redeemed grew
      by what was gained, and the balance covers it once a voucher was accepted. */
  ghost predicate ChannelOk(vs: Vouchers, state: ChainState, gained: int) {
    var lanes := After(FromChain(state.lanes), vs);
    && NoMerges(vs) && Increasing(vs) && Covered(vs, lanes)
    && Total(lanes) == Total(FromChain(state.lanes)) + gained
    && (vs != [] ==> Total(lanes) + state.toSend <= state.balance)
  }

  /** As long as the last lane is unused, the next lane lies above every used one. */
  ghost predicate LanesOk(vs: Vouchers, nextLane: Lane, used: set<Lane>) {
    && (forall i :: 0 <= i < |vs| ==> vs[i].lane in used)
    && (MAX_UINT64 !in used ==> forall l :: l in used ==> l < nextLane)
  }

  ghost predicate EntryOk(ci: ChannelInfo, state: ChainState, account: Account) {
    && ChannelOk(Stored(ci.vouchers), state, account.gained)
    && LanesOk(Stored(ci.vouchers), ci.nextLane, account.used)
  }

  ghost predicate AllOk(store: map<Address, ChannelInfo>, chain: map<Address, ChainState>, accounts: map<Address, Account>) {
    forall ch :: ch in store ==> ch in chain && ch in accounts && EntryOk(store[ch], chain[ch], accounts[ch])
  }

  /** Nothing changed but one channel. */
  ghost predicate Others(store: map<Address, ChannelInfo>, accounts: map<Address, Account>,
                         store': map<Address, ChannelInfo>, accounts': map<Address, Account>, ch: Address) {
    forall c :: c != ch && c in store ==> c in store' && store'[c] == store[c] && c in accounts && c in accounts' && accounts'[c] == accounts[c]
  }

  lemma SetEntry(store: map<Address, ChannelInfo>, chain: map<Address, ChainState>, accounts: map<Address, Account>,
                 ch: Address, ci: ChannelInfo, account: Account)
    requires AllOk(store, chain, accounts) && ch in chain && EntryOk(ci, chain[ch], account)
    ensures AllOk(store[ch := ci], chain, accounts[ch := account])
    ensures Others(store, accounts, store[ch := ci], accounts[ch := account], ch)
  {
  }

  /** One more voucher, and its delta on the account. */
  ghost predicate Grown(ci: ChannelInfo, account: Account, v: Voucher, delta: int, ci': ChannelInfo, account': Account) {
    && Stored(ci'.vouchers) == Stored(ci.vouchers) + [v]
    && account' == Account(account.gained + delta, account.used + {v.lane})
  }
}
