/**
 How the rows of a distributed frame are cut into blocks and dealt out to nodes,
 and the loop with which a node visits its own rows.
 */
module RowBlocks {

  /** q * bs + r, with r < bs, lies in block q at offset r. */
  lemma BlockAndOffset(q: nat, r: nat, bs: nat)
    requires r < bs
    ensures (q * bs + r) / bs == q && (q * bs + r) % bs == r
  {
    var x := q * bs + r;
    var d := x / bs - q;
    assert x == (x / bs) * bs + x % bs;
    assert d * bs == r - x % bs;
  }

  /** Within a block, moving by d rows changes the offset and not the block. */
  lemma WithinBlock(i: nat, d: nat, bs: nat)
    requires bs > 0 && i % bs + d < bs
    ensures (i + d) / bs == i / bs && (i + d) % bs == i % bs + d
  {
    BlockAndOffset(i / bs, i % bs + d, bs);
    assert i + d == (i / bs) * bs + (i % bs + d);
  }

  lemma NextBlock(i: nat, bs: nat)
    requires bs > 0 && i % bs == bs - 1
    ensures (i + 1) / bs == i / bs + 1 && (i + 1) % bs == 0
  {
    BlockAndOffset(i / bs + 1, 0, bs);
    assert i + 1 == (i / bs + 1) * bs + 0;
  }

  /** The number of the block of row i. */
  function BlockOfRow(i: nat, bs: nat): nat
    requires bs > 0
  {
    i / bs
  }

  /** The node whose store holds the block of row i. */
  function HomeOfRow(i: nat, bs: nat, numNodes: nat): (h: nat)
    requires bs > 0 && numNodes > 0
    ensures h < numNodes
  {
    BlockOfRow(i, bs) % numNodes
  }

  /** The node after one, the first after the last. */
  function NextNode(h: nat, numNodes: nat): nat { if h + 1 == numNodes then 0 else h + 1 }

  lemma OneNodeOn(b: nat, numNodes: nat)
    requires numNodes > 0
    ensures (b + 1) % numNodes == NextNode(b % numNodes, numNodes)
  {
    if b % numNodes == numNodes - 1 {
      NextBlock(b, numNodes);
    } else {
      WithinBlock(b, 1, numNodes);
    }
  }

  /** Blocks are dealt out in turn: the rows of the first are homed on node 0, and a row one
      block further on is homed one node further on. */
  lemma HomesInTurn(i: nat, bs: nat, numNodes: nat)
    requires bs > 0 && numNodes > 0
    ensures i < bs ==> HomeOfRow(i, bs, numNodes) == 0
    ensures HomeOfRow(i + bs, bs, numNodes) == NextNode(HomeOfRow(i, bs, numNodes), numNodes)
  {
    if i < bs {
      BlockAndOffset(0, i, bs);
      BlockAndOffset(0, 0, numNodes);
    }
    BlockAfter(i, bs);
    BlockAndOffset(i / bs + 1, i % bs, bs);
    OneNodeOn(i / bs, numNodes);
  }

  lemma BlockAfter(i: nat, bs: nat)
    requires bs > 0
    ensures i + bs == (i / bs + 1) * bs + i % bs
  {
  }

  /** The rows below len that are homed on node id, in increasing order. */
  function RowsOf(len: nat, bs: nat, numNodes: nat, id: nat): seq<nat>
    requires bs > 0 && numNodes > 0
  {
    if len == 0 then []
    else if HomeOfRow(len - 1, bs, numNodes) == id then RowsOf(len - 1, bs, numNodes, id) + [len - 1]
    else RowsOf(len - 1, bs, numNodes, id)
  }

  predicate Increasing(s: seq<nat>) {
    forall i, j :: 0 <= i < j < |s| ==> s[i] < s[j]
  }

  lemma {:induction false} RowsOfIncreasing(len: nat, bs: nat, numNodes: nat, id: nat)
    requires bs > 0 && numNodes > 0
    ensures Increasing(RowsOf(len, bs, numNodes, id))
    ensures forall k :: 0 <= k < |RowsOf(len, bs, numNodes, id)| ==> RowsOf(len, bs, numNodes, id)[k] < len
  {
    if len > 0 {
      RowsOfIncreasing(len - 1, bs, numNodes, id);
    }
  }

  lemma {:induction false} RowsOfMember(len: nat, bs: nat, numNodes: nat, id: nat, i: nat)
    requires bs > 0 && numNodes > 0
    ensures i in RowsOf(len, bs, numNodes, id) <==> i < len && HomeOfRow(i, bs, numNodes) == id
  {
    if len > 0 {
      RowsOfMember(len - 1, bs, numNodes, id, i);
    }
  }

  lemma {:induction false} ForeignRows(lo: nat, hi: nat, bs: nat, numNodes: nat, id: nat)
    requires bs > 0 && numNodes > 0 && lo <= hi
    requires forall i :: lo <= i < hi ==> HomeOfRow(i, bs, numNodes) != id
    ensures RowsOf(hi, bs, numNodes, id) == RowsOf(lo, bs, numNodes, id)
    decreases hi
  {
    if lo < hi {
      ForeignRows(lo, hi - 1, bs, numNodes, id);
    }
  }

  /** The rows a foreign block's first row lets the loop jump over. */
  lemma SkipForeignBlock(i: nat, len: nat, bs: nat, numNodes: nat, id: nat)
    requires bs > 0 && numNodes > 0 && i < len && i % bs == 0 && HomeOfRow(i, bs, numNodes) != id
    ensures (i + bs) % bs == 0
    ensures RowsOf(if i + bs < len then i + bs else len, bs, numNodes, id) == RowsOf(i, bs, numNodes, id)
  {
    var hi := if i + bs < len then i + bs else len;
    forall j | i <= j < hi
      ensures HomeOfRow(j, bs, numNodes) != id
    {
      WithinBlock(i, j - i, bs);
    }
    ForeignRows(i, hi, bs, numNodes, id);
    WithinBlock(i, bs - 1, bs);
    NextBlock(i + (bs - 1), bs);
  }

  /** After a visited row comes a row of the same block, or the first of the next. */
  lemma StepInBlock(i: nat, bs: nat, numNodes: nat)
    requires bs > 0 && numNodes > 0
    ensures (i + 1) % bs != 0 ==> HomeOfRow(i + 1, bs, numNodes) == HomeOfRow(i, bs, numNodes)
  {
    if i % bs == bs - 1 {
      NextBlock(i, bs);
    } else {
      WithinBlock(i, 1, bs);
    }
  }

  /** local_map: the rows shown to the reader.  On a row of a foreign block the loop
      variable jumps, which is right because that only happens at a block's first row. */
  method LocalMap(len: nat, bs: nat, numNodes: nat, id: nat) returns (visited: seq<nat>)
    requires bs > 0 && numNodes > 0
    ensures visited == RowsOf(len, bs, numNodes, id)
  {
    visited := [];
    var rowIdx := 0;
    while rowIdx < len
      invariant rowIdx % bs != 0 ==> HomeOfRow(rowIdx, bs, numNodes) == id
      invariant visited == RowsOf(if rowIdx < len then rowIdx else len, bs, numNodes, id)
    {
      if (rowIdx / bs) % numNodes == id {
        visited := visited + [rowIdx];
        StepInBlock(rowIdx, bs, numNodes);
      } else {
        SkipForeignBlock(rowIdx, len, bs, numNodes, id);
        rowIdx := rowIdx + (bs - 1);
      }
      rowIdx := rowIdx + 1;
    }
  }

  /** Every row is visited at exactly one node, and there exactly once: the node on
      which Column.genKey_ homes its block. */
  lemma EachRowHasOneVisitor(len: nat, bs: nat, numNodes: nat, i: nat)
    requires bs > 0 && numNodes > 0 && i < len
    ensures HomeOfRow(i, bs, numNodes) < numNodes
    ensures forall id: nat :: i in RowsOf(len, bs, numNodes, id) <==> id == HomeOfRow(i, bs, numNodes)
    ensures forall id: nat :: multiset(RowsOf(len, bs, numNodes, id))[i] ==
              if id == HomeOfRow(i, bs, numNodes) then 1 else 0
  {
    forall id: nat
      ensures i in RowsOf(len, bs, numNodes, id) <==> id == HomeOfRow(i, bs, numNodes)
      ensures multiset(RowsOf(len, bs, numNodes, id))[i] == if id == HomeOfRow(i, bs, numNodes) then 1 else 0
    {
      RowsOfMember(len, bs, numNodes, id, i);
      RowsOfIncreasing(len, bs, numNodes, id);
      IncreasingOnce(RowsOf(len, bs, numNodes, id), i);
    }
  }

  lemma {:induction false} IncreasingOnce(s: seq<nat>, x: nat)
    requires Increasing(s)
    ensures multiset(s)[x] == if x in s then 1 else 0
  {
    if s != [] {
      var t := s[..|s| - 1];
      assert s == t + [s[|s| - 1]];
      IncreasingOnce(t, x);
    }
  }
}
