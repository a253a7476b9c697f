/** Message compression of the block sync protocol (chain/blocksync/blocksync.go): a
    table of distinct messages and, per block, the indices into it. */
module MessageTables {
  type Includes = seq<seq<nat>>

  /** The index of every CID of the table; no CID occurs twice. */
  ghost predicate Indexed<T, C>(table: seq<T>, index: map<C, nat>, cid: T -> C) {
    && (forall c :: c in index ==> index[c] < |table| && cid(table[index[c]]) == c)
    && (forall i :: 0 <= i < |table| ==> cid(table[i]) in index && index[cid(table[i])] == i)
  }

  ghost predicate NoDuplicates<T, C>(table: seq<T>, cid: T -> C) {
    forall i, j :: 0 <= i < j < |table| ==> cid(table[i]) != cid(table[j])
  }

  ghost predicate InRange<T>(table: seq<T>, incl: seq<nat>) {
    forall k :: 0 <= k < |incl| ==> incl[k] < |table|
  }

  /** The indices name messages with the CIDs of the block's messages, in order. */
  ghost predicate Names<T, C>(table: seq<T>, incl: seq<nat>, msgs: seq<T>, cid: T -> C) {
    InRange(table, incl) && |incl| == |msgs| && forall k :: 0 <= k < |msgs| ==> cid(table[incl[k]]) == cid(msgs[k])
  }

  ghost predicate AllNamed<T, C>(table: seq<T>, incls: Includes, blocks: seq<seq<T>>, cid: T -> C) {
    |incls| == |blocks| && forall i :: 0 <= i < |blocks| ==> Names(table, incls[i], blocks[i], cid)
  }

  ghost predicate Occurs<T>(blocks: seq<seq<T>>, x: T) {
    exists i :: 0 <= i < |blocks| && x in blocks[i]
  }

  ghost predicate AllOccur<T>(blocks: seq<seq<T>>, table: seq<T>) {
    forall i :: 0 <= i < |table| ==> Occurs(blocks, table[i])
  }

  /** A longer table names what a shorter one named. */
  lemma NamesGrow<T, C>(table: seq<T>, longer: seq<T>, incl: seq<nat>, msgs: seq<T>, cid: T -> C)
    requires Names(table, incl, msgs, cid) && table <= longer
    ensures Names(longer, incl, msgs, cid)
  {
    assert forall k :: 0 <= k < |incl| ==> longer[incl[k]] == table[incl[k]];
  }

  /** Indexes one block's messages, extending the table by those not seen before. */
  method IndexBlock<T, C(==)>(table: seq<T>, index: map<C, nat>, msgs: seq<T>, cid: T -> C)
    returns (table': seq<T>, index': map<C, nat>, incl: seq<nat>)
    requires Indexed(table, index, cid)
    ensures Indexed(table', index', cid) && table <= table' && Names(table', incl, msgs, cid)
    ensures forall i :: |table| <= i < |table'| ==> table'[i] in msgs
  {
    table', index', incl := table, index, [];
    for k := 0 to |msgs|
      invariant Indexed(table', index', cid) && table <= table' && Names(table', incl, msgs[..k], cid)
      invariant forall i :: |table| <= i < |table'| ==> table'[i] in msgs
    {
      var m := msgs[k];
      ghost var before := table';
      if cid(m) !in index' {
        var n := |table'|;
        table' := table' + [m];
        index' := index'[cid(m) := n];
      }
      NamesGrow(before, table', incl, msgs[..k], cid);
      NamesOneMore(table', incl, msgs, k, index'[cid(m)], cid);
      incl := incl + [index'[cid(m)]];
    }
    assert msgs[..|msgs|] == msgs;
  }

  lemma NamesOneMore<T, C>(table: seq<T>, incl: seq<nat>, msgs: seq<T>, k: nat, n: nat, cid: T -> C)
    requires k < |msgs| && Names(table, incl, msgs[..k], cid) && n < |table| && cid(table[n]) == cid(msgs[k])
    ensures Names(table, incl + [n], msgs[..k + 1], cid)
  {
  }

  lemma IndexedIsDistinct<T, C>(table: seq<T>, index: map<C, nat>, cid: T -> C)
    requires Indexed(table, index, cid)
    ensures NoDuplicates(table, cid)
  {
  }

  // ----- getting the messages back ---------------------------------------

  ghost function Picked<T>(table: seq<T>, incl: seq<nat>): seq<T>
    requires InRange(table, incl)
  {
    seq(|incl|, k requires 0 <= k < |incl| => table[incl[k]])
  }

  method Unpack<T>(table: seq<T>, incl: seq<nat>) returns (msgs: seq<T>)
    requires InRange(table, incl)
    ensures msgs == Picked(table, incl)
  {
    msgs := [];
    for k := 0 to |incl|
      invariant msgs == Picked(table, incl)[..k]
    {
      msgs := msgs + [table[incl[k]]];
    }
  }

  ghost predicate Restored<T, C>(table: seq<T>, incls: Includes, blocks: seq<seq<T>>, cid: T -> C)
    requires AllNamed(table, incls, blocks, cid)
  {
    forall i :: 0 <= i < |blocks| ==> Picked(table, incls[i]) == blocks[i]
  }

  /** Messages with the same CID are the same. */
  ghost predicate CidsTell<T, C>(blocks: seq<seq<T>>, cid: T -> C) {
    forall i, j, k, l :: 0 <= i < |blocks| && 0 <= j < |blocks| && 0 <= k < |blocks[i]| && 0 <= l < |blocks[j]| ==>
      cid(blocks[i][k]) == cid(blocks[j][l]) ==> blocks[i][k] == blocks[j][l]
  }

  /** Unpacking gives back every block's messages exactly when CIDs tell messages apart. */
  lemma RoundTrip<T, C>(table: seq<T>, incls: Includes, blocks: seq<seq<T>>, cid: T -> C)
    requires AllNamed(table, incls, blocks, cid) && NoDuplicates(table, cid) && AllOccur(blocks, table)
    ensures Restored(table, incls, blocks, cid) <==> CidsTell(blocks, cid)
  {
    if CidsTell(blocks, cid) {
      forall i | 0 <= i < |blocks|
        ensures Picked(table, incls[i]) == blocks[i]
      {
        assert Names(table, incls[i], blocks[i], cid);
        forall k | 0 <= k < |blocks[i]|
          ensures table[incls[i][k]] == blocks[i][k]
        {
          OccursSame(table, blocks, cid, incls[i][k], i, k);
        }
      }
    }
    if Restored(table, incls, blocks, cid) {
      forall i, j, k, l | 0 <= i < |blocks| && 0 <= j < |blocks| && 0 <= k < |blocks[i]| && 0 <= l < |blocks[j]| && cid(blocks[i][k]) == cid(blocks[j][l])
        ensures blocks[i][k] == blocks[j][l]
      {
        SameEntry(table, incls, blocks, cid, i, j, k, l);
      }
    }
  }

  lemma OccursSame<T, C>(table: seq<T>, blocks: seq<seq<T>>, cid: T -> C, n: nat, i: nat, k: nat)
    requires CidsTell(blocks, cid) && AllOccur(blocks, table) && n < |table| && i < |blocks| && k < |blocks[i]|
    requires cid(table[n]) == cid(blocks[i][k])
    ensures table[n] == blocks[i][k]
  {
    assert Occurs(blocks, table[n]);
    var j :| 0 <= j < |blocks| && table[n] in blocks[j];
    var l :| 0 <= l < |blocks[j]| && blocks[j][l] == table[n];
  }

  lemma SameEntry<T, C>(table: seq<T>, incls: Includes, blocks: seq<seq<T>>, cid: T -> C, i: nat, j: nat, k: nat, l: nat)
    requires AllNamed(table, incls, blocks, cid) && NoDuplicates(table, cid) && Restored(table, incls, blocks, cid)
    requires i < |blocks| && j < |blocks| && k < |blocks[i]| && l < |blocks[j]| && cid(blocks[i][k]) == cid(blocks[j][l])
    ensures blocks[i][k] == blocks[j][l]
  {
    assert Names(table, incls[i], blocks[i], cid) && Names(table, incls[j], blocks[j], cid);
    assert Picked(table, incls[i]) == blocks[i] && Picked(table, incls[j]) == blocks[j];
    assert cid(table[incls[i][k]]) == cid(table[incls[j][l]]);
    assert incls[i][k] == incls[j][l];
  }
}
