/**
 Frames that stand side by side in the stores, under keys of which none is a block key
 of another.
 */
module StoredFrames {
  import opened Messages
  import opened BlockKeys
  import opened ColumnStore
  import opened Columns
  import opened DataFrame

  lemma BlocksIndependent(key: Key, key': Key, col: nat, n: nat, numNodes: nat)
    requires numNodes > 0 && Independent(key, key', numNodes)
    ensures forall k :: k in KeyList(key.str, col, n, numNodes) ==> k != key' && !IsBlockKey(k, key'.str, numNodes)
  {
    KeyListOfBlockKeys(key.str, col, n, numNodes);
    forall k | k in KeyList(key.str, col, n, numNodes)
      ensures k != key' && !IsBlockKey(k, key'.str, numNodes)
    {
      var c: nat, b: nat :| k == GenKey(key.str, c, b, numNodes);
      forall c': nat, b': nat
        ensures k != GenKey(key'.str, c', b', numNodes)
      {
        if k == GenKey(key'.str, c', b', numNodes) {
          KeysNeverCollide(key.str, c, b, key'.str, c', b', numNodes);
        }
      }
    }
  }

  /** The frame that is fetched from the key, if f is stored there for the rows, its columns
      based on the key and its sizes fitting the bytes. */
  ghost function Fetched(f: Codec.Frame, key: Key, data: map<Key, Value>, rows: seq<Row>,
                         args: Args): Option<Codec.Frame>
    requires args.Valid()
  {
    if StoredFrame(f, key, data, rows, args) && Codec.ValidFrame(f)
       && forall c :: 0 <= c < |f.columns| ==> f.columns[c].baseKey == key then Some(f) else None
  }

  ghost predicate IsStored(f: Codec.Frame, key: Key, data: map<Key, Value>, rows: seq<Row>, args: Args)
    requires args.Valid()
  {
    Fetched(f, key, data, rows, args).Some?
  }

  /** Storing a frame leaves the independent ones. */
  lemma StaysStored(f: Codec.Frame, key: Key, before: map<Key, Value>, after: map<Key, Value>, rows: seq<Row>,
                    args: Args, key': Key)
    requires args.Valid() && IsStored(f, key, before, rows, args)
    requires Independent(key, key', args.numNodes) && KeptApart(before, after, key', args.numNodes)
    ensures IsStored(f, key, after, rows, args)
  {
    forall c | 0 <= c < |f.columns|
      ensures ColumnShows(f.columns[c], after, Transposed(rows, |f.columns|)[c], c, args)
    {
      var ks := f.columns[c].blocks;
      assert ColumnShows(f.columns[c], before, Transposed(rows, |f.columns|)[c], c, args);
      BlocksIndependent(key, key', c, |ks|, args.numNodes);
      assert forall j :: 0 <= j < |ks| ==> ks[j] in ks;
    }
  }

  /** fromVisitor, for a frame that fits the sizes: it can be fetched, and the frames under
      independent keys are as they were. */
  method StoreFrame(store: Stores, key: Key, types: seq<Codec.DataType>, rows: seq<Row>, args: Args)
    returns (ghost f: Codec.Frame)
    requires args.Valid() && (forall t :: t in types ==> t == Codec.Integer || t == Codec.Str) && AllFit(rows, types)
    requires Codec.ValidKey(key) && Codec.IsSize(args.numNodes)
    requires Codec.IsSize(|key.str| + 2 * |types| + |rows| + 4)
    modifies store
    ensures IsStored(f, key, store.data, rows, args)
    ensures KeptApart(old(store.data), store.data, key, args.numNodes)
  {
    var df := FromVisitor(store, key, types, rows, args);
    f := df.Image();
    FrameIsValid(f, store.data, rows, args);
  }
}
