/** Lanes of a payment channel (paychmgr/state.go): what the chain knows of them, and
    what the stored vouchers make of that. */
module LaneStates {
  type Address = nat

  const MAX_UINT64: nat := 0xFFFF_FFFF_FFFF_FFFF

  type Uint64 = x: int | 0 <= x <= MAX_UINT64

  type Lane = Uint64

  /** Adding one wraps around. */
  function Succ(n: Uint64): Uint64 {
    if n == MAX_UINT64 then 0 else n + 1
  }

  datatype LaneState = LaneState(redeemed: int, nonce: Uint64)

  type Lanes = map<Lane, LaneState>

  datatype LaneEntry = LaneEntry(id: Lane, state: LaneState)

  /** A channel on chain, with the balance of its actor. */
  datatype ChainState = ChainState(lanes: seq<LaneEntry>, toSend: int, balance: int)

  /** `rest` stands for time locks, secret, extra checks and signature. */
  datatype Voucher = Voucher(channel: Address, lane: Lane, nonce: Uint64, amount: int, merges: nat, rest: int)

  type Vouchers = seq<Voucher>

  // ----- the state of the lanes ------------------------------------------

  ghost function FromChain(entries: seq<LaneEntry>): Lanes {
    if entries == [] then map[] else
    var last := entries[|entries| - 1];
    FromChain(entries[..|entries| - 1])[last.id := last.state]
  }

  /** A voucher takes its lane unless its nonce is behind. */
  function Applied(lanes: Lanes, v: Voucher): Lanes {
    if v.lane in lanes && v.nonce < lanes[v.lane].nonce then lanes else lanes[v.lane := LaneState(v.amount, v.nonce)]
  }

  ghost function After(lanes: Lanes, vs: Vouchers): Lanes {
    if vs == [] then lanes else Applied(After(lanes, vs[..|vs| - 1]), vs[|vs| - 1])
  }

  lemma AfterOneMore(lanes: Lanes, vs: Vouchers, v: Voucher)
    ensures After(lanes, vs + [v]) == Applied(After(lanes, vs), v)
  {
    assert (vs + [v])[..|vs|] == vs;
  }

  // ----- totals ----------------------------------------------------------

  ghost function Total(lanes: Lanes): int {
    if lanes == map[] then 0 else
    var l :| l in lanes;
    lanes[l].redeemed + Total(lanes - {l})
  }

  lemma {:induction false} TotalWithout(lanes: Lanes, l: Lane)
    requires l in lanes
    ensures Total(lanes) == lanes[l].redeemed + Total(lanes - {l})
    decreases |lanes|
  {
    var k :| k in lanes && Total(lanes) == lanes[k].redeemed + Total(lanes - {k});
    if k != l {
      TotalWithout(lanes - {k}, l);
      TotalWithout(lanes - {l}, k);
      assert lanes - {k} - {l} == lanes - {l} - {k};
    }
  }

  ghost function RedeemedOn(lanes: Lanes, l: Lane): int {
    if l in lanes then lanes[l].redeemed else 0
  }

  lemma TotalWith(lanes: Lanes, l: Lane, s: LaneState)
    ensures Total(lanes[l := s]) == Total(lanes) - RedeemedOn(lanes, l) + s.redeemed
  {
    var more := lanes[l := s];
    TotalWithout(more, l);
    if l in lanes {
      TotalWithout(lanes, l);
      assert more - {l} == lanes - {l};
    } else {
      assert more - {l} == lanes;
    }
  }

  // ----- what the stored vouchers keep true ------------------------------

  ghost predicate Increasing(vs: Vouchers) {
    forall i, j :: 0 <= i < j < |vs| && vs[i].lane == vs[j].lane ==> vs[i].nonce < vs[j].nonce && vs[i].amount < vs[j].amount
  }

  /** No voucher is ahead of its lane. */
  ghost predicate Covered(vs: Vouchers, lanes: Lanes) {
    forall i :: 0 <= i < |vs| ==> vs[i].lane in lanes && vs[i].nonce <= lanes[vs[i].lane].nonce && vs[i].amount <= lanes[vs[i].lane].redeemed
  }

  ghost predicate NoMerges(vs: Vouchers) {
    forall i :: 0 <= i < |vs| ==> vs[i].merges == 0
  }

  /** A voucher ahead of its lane. */
  predicate Ahead(v: Voucher, lanes: Lanes) {
    v.lane in lanes ==> v.nonce > lanes[v.lane].nonce && v.amount > lanes[v.lane].redeemed
  }

  lemma AcceptKeeps(vs: Vouchers, v: Voucher, lanes: Lanes)
    requires Increasing(vs) && Covered(vs, lanes) && NoMerges(vs) && Ahead(v, lanes) && v.merges == 0
    ensures Increasing(vs + [v]) && Covered(vs + [v], Applied(lanes, v)) && NoMerges(vs + [v])
  {
    var more := vs + [v];
    forall i, j | 0 <= i < j < |more| && more[i].lane == more[j].lane
      ensures more[i].nonce < more[j].nonce && more[i].amount < more[j].amount
    {
      assert more[i] == vs[i];
      assert j < |vs| ==> more[j] == vs[j];
    }
  }

  /** What one more voucher adds to the total. */
  lemma AppliedTotal(lanes: Lanes, v: Voucher)
    ensures Total(Applied(lanes, v)) ==
            Total(lanes) + if v.lane in lanes && v.nonce < lanes[v.lane].nonce then 0 else v.amount - RedeemedOn(lanes, v.lane)
  {
    TotalWith(lanes, v.lane, LaneState(v.amount, v.nonce));
  }
}
