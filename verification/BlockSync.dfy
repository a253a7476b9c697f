/** The block sync protocol (chain/blocksync/blocksync.go and blocksync_client.go):
    serving a chain segment with compressed messages, and reading it back. */
module BlockSync {
  import opened Wrappers
  import opened Messages
  import opened BlockRules
  import opened TipsetMessages
  import opened MessageTables
  import C = Chain

  // ----- compressed messages ---------------------------------------------

  datatype Packed = Packed(bls: seq<Message>, blsIncludes: Includes, secpk: seq<SignedMessage>, secpkIncludes: Includes)

  function MessageCid(m: Message): Message {
    m
  }

  function SignedCid(sm: SignedMessage): ChainMsg {
    Cid(ChainMsg.Signed(sm))
  }

  ghost function BlsOf(blocks: seq<Block>): (r: seq<seq<Message>>)
    ensures |r| == |blocks| && forall i :: 0 <= i < |blocks| ==> r[i] == blocks[i].bls
  {
    seq(|blocks|, i requires 0 <= i < |blocks| => blocks[i].bls)
  }

  ghost function SecpkOf(blocks: seq<Block>): (r: seq<seq<SignedMessage>>)
    ensures |r| == |blocks| && forall i :: 0 <= i < |blocks| ==> r[i] == blocks[i].secpk
  {
    seq(|blocks|, i requires 0 <= i < |blocks| => blocks[i].secpk)
  }

  /** A table that names the messages of all blocks, without duplicates or strangers. */
  ghost predicate Compresses<T, K>(table: seq<T>, incls: Includes, blocks: seq<seq<T>>, cid: T -> K) {
    AllNamed(table, incls, blocks, cid) && NoDuplicates(table, cid) && AllOccur(blocks, table)
  }

  ghost predicate PackedOk(p: Packed, blocks: seq<Block>) {
    && Compresses(p.bls, p.blsIncludes, BlsOf(blocks), MessageCid)
    && Compresses(p.secpk, p.secpkIncludes, SecpkOf(blocks), SignedCid)
  }

  lemma OneMoreBlock<T, K>(table: seq<T>, longer: seq<T>, incls: Includes, incl: seq<nat>, blocks: seq<seq<T>>, msgs: seq<T>, cid: T -> K,
                           more: seq<seq<T>>, incls': Includes)
    requires AllNamed(table, incls, blocks, cid) && AllOccur(blocks, table) && table <= longer
    requires Names(longer, incl, msgs, cid) && forall i :: |table| <= i < |longer| ==> longer[i] in msgs
    requires more == blocks + [msgs] && incls' == incls + [incl]
    ensures AllNamed(longer, incls', more, cid) && AllOccur(more, longer)
  {
    forall i | 0 <= i < |more|
      ensures Names(longer, incls'[i], more[i], cid)
    {
      if i < |blocks| {
        NamesGrow(table, longer, incls[i], blocks[i], cid);
      }
    }
    forall n | 0 <= n < |longer|
      ensures Occurs(more, longer[n])
    {
      if n < |table| {
        assert Occurs(blocks, table[n]);
        var i :| 0 <= i < |blocks| && table[n] in blocks[i];
        assert longer[n] in more[i];
      } else {
        assert more[|blocks|] == msgs;
      }
    }
  }

  /** Compresses the messages of a tipset's blocks; fails when a block's messages
      cannot be read. */
  method GatherMessages(blocks: seq<Option<Block>>) returns (r: Option<Packed>)
    ensures r.Some? <==> forall i :: 0 <= i < |blocks| ==> blocks[i].Some?
    ensures r.Some? ==> PackedOk(r.value, Values(blocks))
  {
    var blsIndex: map<Message, nat>, secpkIndex: map<ChainMsg, nat> := map[], map[];
    var bls: seq<Message>, secpk: seq<SignedMessage> := [], [];
    var blsIncludes: Includes, secpkIncludes: Includes := [], [];
    ghost var blsDone: seq<seq<Message>>, secpkDone: seq<seq<SignedMessage>> := [], [];
    for i := 0 to |blocks|
      invariant forall k :: 0 <= k < i ==> blocks[k].Some?
      invariant Indexed(bls, blsIndex, MessageCid) && Indexed(secpk, secpkIndex, SignedCid)
      invariant AllNamed(bls, blsIncludes, blsDone, MessageCid) && AllOccur(blsDone, bls)
      invariant AllNamed(secpk, secpkIncludes, secpkDone, SignedCid) && AllOccur(secpkDone, secpk)
      invariant |blsDone| == |secpkDone| == i
      invariant forall k :: 0 <= k < i ==> blsDone[k] == blocks[k].value.bls && secpkDone[k] == blocks[k].value.secpk
    {
      if blocks[i].None? {
        return None;
      }
      var b := blocks[i].value;
      var table, bmi, sTable, smi;
      table, blsIndex, bmi := IndexBlock(bls, blsIndex, b.bls, MessageCid);
      OneMoreBlock(bls, table, blsIncludes, bmi, blsDone, b.bls, MessageCid, blsDone + [b.bls], blsIncludes + [bmi]);
      bls, blsIncludes, blsDone := table, blsIncludes + [bmi], blsDone + [b.bls];
      sTable, secpkIndex, smi := IndexBlock(secpk, secpkIndex, b.secpk, SignedCid);
      OneMoreBlock(secpk, sTable, secpkIncludes, smi, secpkDone, b.secpk, SignedCid, secpkDone + [b.secpk], secpkIncludes + [smi]);
      secpk, secpkIncludes, secpkDone := sTable, secpkIncludes + [smi], secpkDone + [b.secpk];
    }
    IndexedIsDistinct(bls, blsIndex, MessageCid);
    IndexedIsDistinct(secpk, secpkIndex, SignedCid);
    assert blsDone == BlsOf(Values(blocks)) && secpkDone == SecpkOf(Values(blocks));
    return Some(Packed(bls, blsIncludes, secpk, secpkIncludes));
  }

  ghost function Values(blocks: seq<Option<Block>>): (r: seq<Block>)
    requires forall i :: 0 <= i < |blocks| ==> blocks[i].Some?
    ensures |r| == |blocks| && forall i :: 0 <= i < |blocks| ==> r[i] == blocks[i].value
  {
    seq(|blocks|, i requires 0 <= i < |blocks| => blocks[i].value)
  }

  /** Every block's includes point into the tables. */
  ghost predicate Readable(p: Packed, n: nat) {
    && |p.blsIncludes| >= n && |p.secpkIncludes| >= n
    && (forall i :: 0 <= i < n ==> InRange(p.bls, p.blsIncludes[i]) && InRange(p.secpk, p.secpkIncludes[i]))
  }

  /** The messages of the `n` blocks of a tipset, read back. */
  method BstsToFullTipSet(p: Packed, n: nat) returns (full: seq<Block>)
    requires Readable(p, n)
    ensures |full| == n
    ensures forall i :: 0 <= i < n ==> full[i] == Block(Picked(p.bls, p.blsIncludes[i]), Picked(p.secpk, p.secpkIncludes[i]))
  {
    full := [];
    for i := 0 to n
      invariant |full| == i
      invariant forall k :: 0 <= k < i ==> full[k] == Block(Picked(p.bls, p.blsIncludes[k]), Picked(p.secpk, p.secpkIncludes[k]))
    {
      var bls := Unpack(p.bls, p.blsIncludes[i]);
      var secpk := Unpack(p.secpk, p.secpkIncludes[i]);
      full := full + [Block(bls, secpk)];
    }
  }

  lemma PackedIsReadable(p: Packed, blocks: seq<Block>)
    requires PackedOk(p, blocks)
    ensures Readable(p, |blocks|)
  {
    forall i | 0 <= i < |blocks|
      ensures InRange(p.bls, p.blsIncludes[i]) && InRange(p.secpk, p.secpkIncludes[i])
    {
      assert Names(p.bls, p.blsIncludes[i], BlsOf(blocks)[i], MessageCid);
      assert Names(p.secpk, p.secpkIncludes[i], SecpkOf(blocks)[i], SignedCid);
    }
  }

  /** Compressing and reading back gives every block its messages, exactly when the
      CIDs of the signed messages tell them apart. */
  lemma CompressionRoundTrip(p: Packed, blocks: seq<Block>, full: seq<Block>)
    requires PackedOk(p, blocks) && Readable(p, |blocks|) && |full| == |blocks|
    requires forall i :: 0 <= i < |blocks| ==> full[i] == Block(Picked(p.bls, p.blsIncludes[i]), Picked(p.secpk, p.secpkIncludes[i]))
    ensures full == blocks <==> CidsTell(SecpkOf(blocks), SignedCid)
  {
    RoundTrip(p.bls, p.blsIncludes, BlsOf(blocks), MessageCid);
    assert CidsTell(BlsOf(blocks), MessageCid);
    RoundTrip(p.secpk, p.secpkIncludes, SecpkOf(blocks), SignedCid);
    forall i | 0 <= i < |blocks|
      ensures full[i].bls == blocks[i].bls
    {
      assert Picked(p.bls, p.blsIncludes[i]) == BlsOf(blocks)[i];
    }
    if full == blocks {
      forall i | 0 <= i < |blocks|
        ensures Picked(p.secpk, p.secpkIncludes[i]) == SecpkOf(blocks)[i]
      {
        assert full[i] == blocks[i];
      }
    } else if CidsTell(SecpkOf(blocks), SignedCid) {
      forall i | 0 <= i < |blocks|
        ensures full[i] == blocks[i]
      {
        assert Picked(p.secpk, p.secpkIncludes[i]) == SecpkOf(blocks)[i];
      }
      assert false;
    }
  }

  /** A peer asks for the messages of a tipset: they are compressed on one side and read back on
      the other. It gets an answer exactly when every block can be read, and the very messages
      exactly when the CIDs of the signed ones tell them apart. */
  method RequestMessages(blocks: seq<Option<Block>>) returns (r: Option<seq<Block>>)
    ensures r.Some? <==> forall i :: 0 <= i < |blocks| ==> blocks[i].Some?
    ensures r.Some? ==> (r.value == Values(blocks) <==> CidsTell(SecpkOf(Values(blocks)), SignedCid))
  {
    var p := GatherMessages(blocks);
    if p.None? {
      return None;
    }
    PackedIsReadable(p.value, Values(blocks));
    var full := BstsToFullTipSet(p.value, |blocks|);
    CompressionRoundTrip(p.value, Values(blocks), full);
    return Some(full);
  }

  ghost predicate AllSecp(blocks: seq<Block>) {
    forall i, k :: 0 <= i < |blocks| && 0 <= k < |blocks[i].secpk| ==> blocks[i].secpk[k].signature.kind.Secp256k1?
  }

  /** Messages signed with secp256k1 have CIDs of their own. */
  lemma SecpCidsTell(blocks: seq<Block>)
    requires AllSecp(blocks)
    ensures CidsTell(SecpkOf(blocks), SignedCid)
  {
    var all := SecpkOf(blocks);
    forall i, j, k, l | 0 <= i < |all| && 0 <= j < |all| && 0 <= k < |all[i]| && 0 <= l < |all[j]| && SignedCid(all[i][k]) == SignedCid(all[j][l])
      ensures all[i][k] == all[j][l]
    {
      assert all[i] == blocks[i].secpk && all[j] == blocks[j].secpk;
      assert blocks[i].secpk[k].signature.kind.Secp256k1? && blocks[j].secpk[l].signature.kind.Secp256k1?;
    }
  }

  /** Two BLS-signed messages that differ only in the signature share a CID. */
  lemma BlsSignedExample(m: Message)
    ensures !CidsTell(SecpkOf([Block([], [SignedMessage(m, Signature(Bls, 0, 96)), SignedMessage(m, Signature(Bls, 1, 96))])]), SignedCid)
  {
    var a, b := SignedMessage(m, Signature(Bls, 0, 96)), SignedMessage(m, Signature(Bls, 1, 96));
    var all := SecpkOf([Block([], [a, b])]);
    assert all[0] == [a, b] && all[0][0] == a && all[0][1] == b;
    assert SignedCid(all[0][0]) == SignedCid(all[0][1]) && all[0][0] != all[0][1];
  }

  // ----- chain segments --------------------------------------------------

  const MAX_REQUEST_LENGTH: nat := 800

  function Capped(length: nat): nat {
    if length > MAX_REQUEST_LENGTH then MAX_REQUEST_LENGTH else length
  }

  /** What a segment of the given length covers: at least the start, at most the whole path. */
  ghost function Covered(path: seq<C.TipSet>, length: nat): seq<C.TipSet>
    requires path != []
  {
    path[..if length == 0 then 1 else if length < |path| then length else |path|]
  }

  /** The path can be served: it is long enough or reaches genesis. */
  ghost predicate Servable(path: seq<C.TipSet>, length: nat)
    requires path != []
  {
    length <= |path| || path[|path| - 1].height == 0
  }

  method CollectChainSegment(store: C.Store, start: C.Key, length: nat) returns (r: Option<seq<C.TipSet>>)
    requires C.WellFormed(store)
    ensures start !in store ==> r.None?
    ensures start in store ==> (r.Some? <==> Servable(C.Path(store, store[start]), length))
    ensures r.Some? ==> r.value == Covered(C.Path(store, store[start]), length)
  {
    if start !in store {
      return None;
    }
    var cur := store[start];
    ghost var path := C.Path(store, cur);
    var tips: seq<C.TipSet> := [];
    while true
      invariant 0 <= |tips| < |path| && tips == path[..|tips|] && cur == path[|tips|] && C.Has(store, cur)
      invariant |tips| == 0 || |tips| < length
      decreases |path| - |tips|
    {
      C.PathSuffix(store, path[0], |tips|);
      tips := tips + [cur];
      if |tips| >= length || cur.height == 0 {
        assert tips == Covered(path, length);
        return Some(tips);
      }
      if cur.parents !in store {
        return None;
      }
      assert C.Path(store, cur)[1] == store[cur.parents];
      cur := store[cur.parents];
    }
  }

  /** A response as the client sees it: block lists that may fail to form a tipset. */
  type Response = seq<Option<C.TipSet>>

  method ProcessBlocksResponse(res: Response) returns (r: Option<seq<C.TipSet>>)
    ensures r.Some? ==> |r.value| == |res| > 0 && C.Linked(r.value) && forall i :: 0 <= i < |res| ==> res[i] == Some(r.value[i])
    ensures r.None? ==> res == [] || (exists i :: 0 <= i < |res| && res[i].None?) || exists i :: 0 < i < |res| && Broken(res, i)
  {
    if |res| == 0 {
      return None;
    }
    if res[0].None? {
      return None;
    }
    var cur := res[0].value;
    var out := [cur];
    for bi := 1 to |res|
      invariant |out| == bi && out[bi - 1] == cur && C.Linked(out)
      invariant forall i :: 0 <= i < bi ==> res[i] == Some(out[i])
    {
      if res[bi].None? {
        return None;
      }
      var nts := res[bi].value;
      if cur.parents != nts.key {
        assert Broken(res, bi);
        return None;
      }
      out := out + [nts];
      cur := nts;
    }
    return Some(out);
  }

  ghost predicate Broken(res: Response, i: nat)
    requires 0 < i < |res|
  {
    res[i - 1].Some? && res[i].Some? && res[i - 1].value.parents != res[i].value.key
  }

  ghost function AsResponse(tips: seq<C.TipSet>): (r: Response)
    ensures |r| == |tips| && forall i :: 0 <= i < |tips| ==> r[i] == Some(tips[i])
  {
    seq(|tips|, i requires 0 <= i < |tips| => Some(tips[i]))
  }

  /** The client takes every segment an honest server sends, as it was sent: the
      ancestor path from the requested tipset, cut at the capped length. */
  method RequestBlocks(store: C.Store, start: C.Key, length: nat) returns (r: Option<seq<C.TipSet>>)
    requires C.Complete(store)
    ensures r.Some? <==> start in store
    ensures r.Some? ==> r.value == Covered(C.Path(store, store[start]), Capped(length))
  {
    var served := CollectChainSegment(store, start, Capped(length));
    if served.None? {
      if start in store {
        C.PathReachesGenesis(store, store[start]);
      }
      return None;
    }
    var res := Wrap(served.value);
    C.PathShape(store, store[start]);
    r := ProcessBlocksResponse(res);
    Accepted(served.value, C.Path(store, store[start]), res);
    assert r.value == served.value;
  }

  method Wrap(tips: seq<C.TipSet>) returns (res: Response)
    ensures res == AsResponse(tips)
  {
    res := seq(|tips|, i requires 0 <= i < |tips| => Some(tips[i]));
  }

  lemma Accepted(tips: seq<C.TipSet>, path: seq<C.TipSet>, res: Response)
    requires tips <= path && tips != [] && C.Linked(path) && res == AsResponse(tips)
    ensures res != [] && (forall i :: 0 <= i < |res| ==> res[i].Some?) && forall i :: 0 < i < |res| ==> !Broken(res, i)
  {
    forall i | 0 < i < |res|
      ensures !Broken(res, i)
    {
      var j := i - 1;
      assert path[j].parents == path[j + 1].key;
    }
  }
}
