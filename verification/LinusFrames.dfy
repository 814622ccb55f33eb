/**
 The frames through which the nodes of the Linus application exchange their deltas: each is
 one column of integers, stored by one node and fetched by those that wait for it.
 */
module LinusFrames {
  import opened Messages
  import opened BlockKeys
  import opened ColumnStore
  import opened Columns
  import opened DataFrame
  import opened StoredFrames

  /** "users", the name of the frames of users. */
  const USERS: String := [117, 115, 101, 114, 115]

  /** "projects". */
  const PROJECTS: String := [112, 114, 111, 106, 101, 99, 116, 115]

  /** name-stage-node: under it a node stores its delta, and node 0 the union of all. */
  function DeltaKey(name: String, stage: nat, node: nat): Key {
    Key(name + [DASH] + Decimal(stage) + [DASH] + Decimal(node), 0)
  }

  ghost predicate IsDeltaKey(k: Key) {
    exists name: String, stage: nat, node: nat :: DASH !in name && k == DeltaKey(name, stage, node)
  }

  lemma DeltaIsNoBlock(name: String, stage: nat, node: nat, k: Key, numNodes: nat)
    requires numNodes > 0 && DASH !in name && IsDeltaKey(k)
    ensures !IsBlockKey(DeltaKey(name, stage, node), k.str, numNodes)
  {
    var name': String, stage': nat, node': nat :| DASH !in name' && k == DeltaKey(name', stage', node');
    assert k.str[|name'|] == DASH;
    forall col: nat, b: nat
      ensures DeltaKey(name, stage, node) != GenKey(k.str, col, b, numNodes)
    {
      if DeltaKey(name, stage, node) == GenKey(k.str, col, b, numNodes) {
        KeysNeverCollide(name, stage, node, k.str, col, b, numNodes);
        assert false;
      }
    }
  }

  /** The frames of two nodes, two stages or of users and projects do not touch each other. */
  lemma DeltaKeysIndependent(k: Key, k': Key, numNodes: nat)
    requires numNodes > 0 && IsDeltaKey(k) && IsDeltaKey(k') && k != k'
    ensures Independent(k, k', numNodes)
  {
    var n: String, s: nat, i: nat :| DASH !in n && k == DeltaKey(n, s, i);
    var n': String, s': nat, i': nat :| DASH !in n' && k' == DeltaKey(n', s', i');
    DeltaIsNoBlock(n, s, i, k', numNodes);
    DeltaIsNoBlock(n', s', i', k, numNodes);
  }

  /** Different names, stages or nodes make different keys. */
  lemma DeltaKeysDiffer(n: String, s: nat, i: nat, n': String, s': nat, i': nat)
    requires DeltaKey(n, s, i) == DeltaKey(n', s', i')
    ensures n == n' && s == s' && i == i'
  {
    KeysNeverCollide(n, s, i, n', s', i', 1);
  }

  // ----- rows -----

  function IntRows(xs: seq<int>): (r: seq<Row>)
    ensures |r| == |xs| && forall i :: 0 <= i < |r| ==> r[i] == [I(xs[i])]
  {
    seq(|xs|, i requires 0 <= i < |xs| => [I(xs[i])])
  }

  /** The integers a SetUpdater finds in the rows it is shown. */
  function IntsOf(rows: seq<Row>): (r: seq<int>)
    requires forall i :: 0 <= i < |rows| ==> |rows[i]| > 0
    ensures |r| == |rows| && forall i :: 0 <= i < |r| ==> r[i] == IntOf(rows[i][0])
  {
    seq(|rows|, i requires 0 <= i < |rows| => IntOf(rows[i][0]))
  }

  /** The rows fit a frame under the key. */
  predicate CanSend(key: Key, xs: seq<int>, args: Args) {
    && Codec.ValidKey(key) && Codec.IsSize(args.numNodes) && Codec.IsSize(|key.str| + |xs| + 6)
    && forall i :: 0 <= i < |xs| ==> Codec.IsInt(xs[i])
  }

  lemma IntsShown(xs: seq<int>)
    ensures IntsOf(IntRows(xs)) == xs
    ensures IntRows(xs)[0..|xs|] == IntRows(xs)
  {
  }

  /** A node fetches a frame of integers and is shown its rows. */
  method FetchInts(store: Stores, ghost f: Codec.Frame, key: Key, ghost xs: seq<int>, args: Args) returns (r: seq<int>)
    requires args.Valid() && IsStored(f, key, store.data, IntRows(xs), args)
    ensures r == xs
  {
    var frame := WaitAndGetFrame(store, key, args, f, IntRows(xs));
    var rows := frame.Map(0, frame.numRows, IntRows(xs));
    IntsShown(xs);
    r := IntsOf(rows);
  }

  /** Sets of elements below size can be sent under the keys of a stage. */
  predicate Fits(numNodes: nat, stage: nat, size: nat) {
    Codec.IsInt(size) && Codec.IsSize(numNodes + stage + size + 40)
  }

  /** Ascending rows below size are no more than size. */
  lemma {:induction false} FewRows(xs: seq<int>, size: nat)
    requires forall i, j :: 0 <= i < j < |xs| ==> xs[i] < xs[j]
    requires forall i :: 0 <= i < |xs| ==> 0 <= xs[i] < size
    ensures |xs| <= size
    ensures xs != [] ==> |xs| <= xs[|xs| - 1] + 1
  {
    if xs != [] {
      FewRows(xs[..|xs| - 1], size);
      assert |xs| > 1 ==> xs[|xs| - 2] < xs[|xs| - 1];
    }
  }

  lemma DeltaKeyIsValid(name: String, stage: nat, node: nat)
    requires name == USERS || name == PROJECTS
    requires Codec.IsSize(node + stage + 40)
    ensures IsDeltaKey(DeltaKey(name, stage, node)) && Codec.ValidKey(DeltaKey(name, stage, node))
    ensures |DeltaKey(name, stage, node).str| <= stage + node + 12
  {
    DecimalDigits(stage);
    DecimalDigits(node);
    DecimalLength(stage);
    DecimalLength(node);
    assert DASH !in name && 0 !in name;
  }

  lemma DeltaFits(name: String, stage: nat, node: nat, xs: seq<int>, size: nat, args: Args)
    requires (name == USERS || name == PROJECTS) && node < args.numNodes && Fits(args.numNodes, stage, size)
    requires forall i, j :: 0 <= i < j < |xs| ==> xs[i] < xs[j]
    requires forall i :: 0 <= i < |xs| ==> 0 <= xs[i] < size
    ensures IsDeltaKey(DeltaKey(name, stage, node)) && CanSend(DeltaKey(name, stage, node), xs, args)
  {
    DeltaKeyIsValid(name, stage, node);
    FewRows(xs, size);
  }

  // ----- the exchange -----

  /** The stores, seen as what Linus keeps in them: rows of integers under delta keys. */
  class Exchange {
    const store: Stores
    const args: Args
    ghost var rows: map<Key, seq<int>>
    ghost var frames: map<Key, Codec.Frame>

    /** The rows under each key, if the stores do hold frames that stand for them. */
    ghost function Contents(): Option<map<Key, seq<int>>>
      reads this, store
    {
      if args.Valid() && frames.Keys == rows.Keys
         && forall k {:trigger IsStored(frames[k], k, store.data, IntRows(rows[k]), args)} :: k in rows ==>
              IsDeltaKey(k) && IsStored(frames[k], k, store.data, IntRows(rows[k]), args)
      then Some(rows) else None
    }

    ghost function RowsAt(key: Key): Option<seq<int>>
      reads this, store
    {
      if Contents().Some? && key in Contents().value then Some(Contents().value[key]) else None
    }

    ghost predicate Has(key: Key, xs: seq<int>)
      reads this, store
    {
      RowsAt(key) == Some(xs)
    }

    constructor (store: Stores, args: Args)
      requires args.Valid()
      ensures Contents() == Some(map[]) && this.store == store && this.args == args
    {
      this.store, this.args := store, args;
      rows, frames := map[], map[];
    }

    lemma OthersStay(before: map<Key, Value>, key: Key, k: Key)
      requires args.Valid() && k in rows && k in frames && IsDeltaKey(k) && IsDeltaKey(key) && k != key
      requires IsStored(frames[k], k, before, IntRows(rows[k]), args)
      requires KeptApart(before, store.data, key, args.numNodes)
      ensures IsStored(frames[k], k, store.data, IntRows(rows[k]), args)
    {
      DeltaKeysIndependent(k, key, args.numNodes);
      StaysStored(frames[k], k, before, store.data, IntRows(rows[k]), args, key);
    }

    /** fromVisitor with a SetWriter that writes xs. */
    method Send(key: Key, xs: seq<int>)
      requires Contents().Some? && IsDeltaKey(key) && CanSend(key, xs, args)
      modifies this, store
      ensures Contents() == Some(old(Contents()).value[key := xs])
    {
      ghost var before := store.data;
      ghost var f := StoreFrame(store, key, [Codec.Integer], IntRows(xs), args);
      forall k | k in rows && k != key
        ensures IsDeltaKey(k) && IsStored(frames[k], k, store.data, IntRows(rows[k]), args)
      {
        assert IsStored(frames[k], k, before, IntRows(rows[k]), args);
        OthersStay(before, key, k);
      }
      rows, frames := rows[key := xs], frames[key := f];
    }

    /** waitAndGet, and map with a SetUpdater that is shown the rows. */
    method Receive(key: Key, ghost sent: seq<int>) returns (xs: seq<int>)
      requires Has(key, sent)
      ensures xs == sent
    {
      assert IsStored(frames[key], key, store.data, IntRows(rows[key]), args);
      xs := FetchInts(store, frames[key], key, rows[key], args);
    }
  }
}
