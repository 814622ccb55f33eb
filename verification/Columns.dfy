/**
 A column of a distributed frame: appending values block by block, and reading one back.
 */
module Columns {
  import opened Messages
  import opened Serializer
  import opened BlockKeys
  import opened RowBlocks
  import opened ColumnStore

  /** The command line's block size and node count, both positive. */
  datatype Args = Args(blockSize: nat, numNodes: nat) {
    predicate Valid() { blockSize > 0 && numNodes > 0 && Codec.IsSize(blockSize) }
  }

  /** What a column object holds is what it would serialize; together with the stores it
      stands for the values vals, as column number colIdx of its frame. */
  ghost predicate ColumnShows(c: Codec.Column, data: map<Key, Value>, vals: seq<Cell>, colIdx: nat, args: Args)
    requires args.Valid()
  {
    && c.size == |vals| && AllOfType(vals, c.ty) && (c.ty == Codec.Integer || c.ty == Codec.Str)
    && c.blocks == KeyList(c.baseKey.str, colIdx, |c.blocks|, args.numNodes)
    && Stored(data, c.blocks, BlockValues(Chunks(vals, args.blockSize), c.ty, args.blockSize))
  }

  /** Runs of values stored behind full blocks extend the column by those values. */
  lemma ShowsMore(c: Codec.Column, c': Codec.Column, data: map<Key, Value>, shown: seq<Cell>, vals: seq<Cell>,
                  colIdx: nat, args: Args)
    requires args.Valid() && |shown| % args.blockSize == 0
    requires c.size == |shown| && AllOfType(shown, c.ty) && AllOfType(vals, c.ty)
    requires (c.ty == Codec.Integer || c.ty == Codec.Str)
    requires c' == c.(size := |shown| + |vals|, blocks := c'.blocks)
    requires c'.blocks == KeyList(c.baseKey.str, colIdx, |c'.blocks|, args.numNodes)
    requires Stored(data, c'.blocks, BlockValues(Chunks(shown, args.blockSize), c.ty, args.blockSize)
                                     + BlockValues(Chunks(vals, args.blockSize), c.ty, args.blockSize))
    ensures ColumnShows(c', data, shown + vals, colIdx, args)
  {
    var bs := args.blockSize;
    ChunksAppend(shown, vals, bs);
    BlockValuesAppend(Chunks(shown, bs), Chunks(vals, bs), c.ty, bs);
  }

  /** What is stored beside a column's blocks does not matter to it. */
  lemma ShowsStill(c: Codec.Column, before: map<Key, Value>, after: map<Key, Value>, vals: seq<Cell>, colIdx: nat,
                   args: Args, written: seq<Key>)
    requires args.Valid() && ColumnShows(c, before, vals, colIdx, args) && OthersKept(before, after, written)
    requires forall k :: k in c.blocks ==> k !in written
    ensures ColumnShows(c, after, vals, colIdx, args)
  {
  }

  /** Runs keep the type, and fit a block. */
  lemma ChunkTyped(vals: seq<Cell>, ty: Codec.DataType, bs: nat, b: nat)
    requires bs > 0 && AllOfType(vals, ty) && b < |Chunks(vals, bs)|
    ensures AllOfType(Chunks(vals, bs)[b], ty) && |Chunks(vals, bs)[b]| <= bs
  {
    ChunkIsSlice(vals, bs, b);
    Distribute(b, bs);
  }

  /** The block and the index in it at which get_int and get_string look for value idx. */
  method Locate(idx: nat, args: Args, ghost vals: seq<Cell>) returns (chunk: nat, idxInChunk: nat)
    requires args.Valid() && idx < |vals|
    ensures chunk < |Chunks(vals, args.blockSize)| && idxInChunk < |Chunks(vals, args.blockSize)[chunk]|
    ensures Chunks(vals, args.blockSize)[chunk][idxInChunk] == vals[idx]
  {
    chunk := idx / args.blockSize;
    idxInChunk := idx % args.blockSize;
    ChunkAt(vals, args.blockSize, idx);
  }

  /** Every run of the values has its block in the stores. */
  lemma RunStored(c: Codec.Column, data: map<Key, Value>, vals: seq<Cell>, b: nat, colIdx: nat, args: Args)
    requires args.Valid() && ColumnShows(c, data, vals, colIdx, args) && b < |Chunks(vals, args.blockSize)|
    ensures var k := GenKey(c.baseKey.str, colIdx, b, args.numNodes);
      k in data && data[k] == Bytes(BlockOf(Chunks(vals, args.blockSize)[b], c.ty, args.blockSize))
    ensures ValidBlock(BlockOf(Chunks(vals, args.blockSize)[b], c.ty, args.blockSize))
    ensures AllOfType(Chunks(vals, args.blockSize)[b], c.ty)
  {
    var bs := args.blockSize;
    ChunkTyped(vals, c.ty, bs, b);
    BlockOfIsValid(Chunks(vals, bs)[b], c.ty, bs);
    BlockValueAt(Chunks(vals, bs), b, c.ty, bs);
    KeyListAt(c.baseKey.str, colIdx, |c.blocks|, b, args.numNodes);
  }

  /** There is a block for each run of the values. */
  lemma BlockForEachRun(c: Codec.Column, data: map<Key, Value>, vals: seq<Cell>, colIdx: nat, args: Args)
    requires args.Valid() && ColumnShows(c, data, vals, colIdx, args)
    ensures |c.blocks| == |Chunks(vals, args.blockSize)|
  {
  }

  /** The key under which the block of value i is stored. */
  lemma KeyOfValue(blocks: seq<Key>, vals: seq<Cell>, i: nat, base: String, col: nat, bs: nat, numNodes: nat)
    requires bs > 0 && numNodes > 0 && i < |vals| && |blocks| == |Chunks(vals, bs)|
    requires blocks == KeyList(base, col, |blocks|, numNodes)
    ensures BlockOfRow(i, bs) < |blocks| && blocks[BlockOfRow(i, bs)] == GenKey(base, col, BlockOfRow(i, bs), numNodes)
  {
    HasChunk(vals, bs, i);
    KeyListAt(base, col, |blocks|, BlockOfRow(i, bs), numNodes);
  }

  class Column {
    const store: Stores
    const ty: Codec.DataType
    const baseKey: Key
    const blocks: DistributedArray
    var size: nat

    /** A deserialized column, everything but the store coming from the bytes; a new column
        is one without values or blocks. */
    constructor FromImage(store: Stores, image: Codec.Column)
      ensures this.store == store == blocks.store && Image() == image
      ensures fresh(blocks) && fresh(blocks.cache) && blocks.cache.Valid() && blocks.cache.data == map[]
    {
      this.store, baseKey, ty, size := store, image.baseKey, image.ty, image.size;
      blocks := new DistributedArray(store);
      new;
      blocks.keyList := image.blocks;
    }

    function Image(): Codec.Column
      reads this, blocks
    {
      Codec.Column(size, blocks.keyList, ty, baseKey)
    }

    /** addBlockToStore_. */
    method AddBlockToStore(bytes: Value, keyIdx: nat, colIdx: nat, args: Args)
      requires args.Valid() && blocks.store == store
      modifies blocks`keyList, store
      ensures var k := GenKey(baseKey.str, colIdx, keyIdx, args.numNodes);
        && store.data == old(store.data)[k := bytes] && blocks.keyList == old(blocks.keyList) + [k]
    {
      var k := GenKey(baseKey.str, colIdx, keyIdx, args.numNodes);
      store.Put(k, bytes);
      blocks.keyList := blocks.keyList + [k];
    }

    /** One round of add_all's loop: the next values, at most a block of them, are stored. */
    method AddBlock(block: CellBlock, vals: seq<Cell>, start: nat, keyIdx: nat, colIdx: nat, args: Args)
      returns (amount: nat)
      requires args.Valid() && blocks.store == store && block.vals.Length == args.blockSize
      requires block.Valid() && block.Contents() == [] && start < |vals|
      modifies blocks`keyList, store, block, block.vals
      ensures block.Valid() && block.Contents() == [] && amount == Least(|vals| - start, args.blockSize)
      ensures var k := GenKey(baseKey.str, colIdx, keyIdx, args.numNodes);
        && store.data == old(store.data)[k := Bytes(BlockOf(vals[start..start + amount], ty, args.blockSize))]
        && blocks.keyList == old(blocks.keyList) + [k]
    {
      amount := Least(|vals| - start, args.blockSize);
      block.Fill(vals, start, amount);
      var s := new Serializer();
      block.Serialize(ty, s);
      AddBlockToStore(s.buffer[..s.numBytesWritten], keyIdx, colIdx, args);
      block.Clear();
    }

    /** The same, seen as progress: the i-th run cs[i] joins what was stored since before. */
    method AddRun(block: CellBlock, vals: seq<Cell>, start: nat, first: nat, colIdx: nat, args: Args,
                  ghost before: map<Key, Value>, ghost cs: seq<seq<Cell>>, ghost i: nat, ghost stored: seq<Value>)
      returns (amount: nat)
      requires args.Valid() && blocks.store == store && block.vals.Length == args.blockSize
      requires block.Valid() && block.Contents() == [] && start < |vals|
      requires AtChunk(vals, start, cs, i, args.blockSize) && |blocks.keyList| == first + i
      requires BlocksAppended(before, store.data, blocks.keyList, ValuesThrough(stored, cs, i, ty, args.blockSize),
                              first, baseKey.str, colIdx, args.numNodes)
      modifies blocks`keyList, store, block, block.vals
      ensures block.Valid() && block.Contents() == []
      ensures AtChunk(vals, start + amount, cs, i + 1, args.blockSize) && |blocks.keyList| == first + i + 1
      ensures BlocksAppended(before, store.data, blocks.keyList, ValuesThrough(stored, cs, i + 1, ty, args.blockSize),
                             first, baseKey.str, colIdx, args.numNodes)
    {
      NextChunk(vals, start, cs, i, args.blockSize);
      RunAppended(before, store.data, blocks.keyList, stored, cs, i, ty, first, baseKey.str, colIdx, args);
      amount := AddBlock(block, vals, start, first + start / args.blockSize, colIdx, args);
    }

    /** The loop of add_all: the runs of vals are stored behind the blocks there are. */
    method AddBlocks(vals: seq<Cell>, colIdx: nat, args: Args, ghost stored: seq<Value>)
      requires args.Valid() && blocks.store == store
      requires BlocksAppended(store.data, store.data, blocks.keyList, stored, |blocks.keyList|, baseKey.str, colIdx,
                              args.numNodes)
      modifies blocks`keyList, store
      ensures BlocksAppended(old(store.data), store.data, blocks.keyList,
                             stored + BlockValues(Chunks(vals, args.blockSize), ty, args.blockSize),
                             |old(blocks.keyList)|, baseKey.str, colIdx, args.numNodes)
    {
      var bs := args.blockSize;
      var blockCountBefore := |blocks.keyList|;
      var block := new CellBlock(bs);
      var lenAdded := 0;
      ghost var before, cs, i := store.data, Chunks(vals, bs), 0;
      FirstChunk(vals, bs);
      while lenAdded < |vals|
        invariant block.Valid() && block.Contents() == [] && fresh(block) && fresh(block.vals)
        invariant AtChunk(vals, lenAdded, cs, i, bs) && |blocks.keyList| == blockCountBefore + i
        invariant BlocksAppended(before, store.data, blocks.keyList, ValuesThrough(stored, cs, i, ty, bs),
                                 blockCountBefore, baseKey.str, colIdx, args.numNodes)
      {
        var amountToAdd := AddRun(block, vals, lenAdded, blockCountBefore, colIdx, args, before, cs, i, stored);
        lenAdded := lenAdded + amountToAdd;
        i := i + 1;
      }
      AllThrough(stored, cs, ty, bs);
    }

    /** add_all, for values of the static type valTy; values of another type than the
        column's exit the program.  A column whose blocks are full is extended by exactly
        vals, and nothing but the new blocks' keys changes in the stores. */
    method AddAll(vals: seq<Cell>, valTy: Codec.DataType, colIdx: nat, args: Args, ghost shown: seq<Cell>)
      returns (ok: bool)
      requires args.Valid() && blocks.store == store && AllOfType(vals, valTy)
      requires ColumnShows(Image(), store.data, shown, colIdx, args) && |shown| % args.blockSize == 0
      modifies this`size, blocks`keyList, store
      ensures ok == (valTy == ty)
      ensures |old(blocks.keyList)| <= |blocks.keyList|
      ensures OthersKept(old(store.data), store.data, blocks.keyList[|old(blocks.keyList)|..])
      ensures ColumnShows(Image(), store.data, if ok then shown + vals else shown, colIdx, args)
    {
      if valTy != ty {
        return false;
      }
      ghost var image := Image();
      AddBlocks(vals, colIdx, args, BlockValues(Chunks(shown, args.blockSize), ty, args.blockSize));
      size := size + |vals|;
      ShowsMore(image, Image(), store.data, shown, vals, colIdx, args);
      return true;
    }

    /** get_int: -1 for a column of another type, else the value at idx, whatever was
        read and cached before. */
    method GetInt(idx: nat, colIdx: nat, args: Args, ghost vals: seq<Cell>) returns (r: int)
      requires args.Valid() && blocks.store == store && blocks.Coherent(ty)
      requires ColumnShows(Image(), store.data, vals, colIdx, args) && idx < |vals|
      modifies blocks.cache
      ensures blocks.Coherent(ty) && (ty != Codec.Integer ==> r == -1)
      ensures ty == Codec.Integer ==> vals[idx] == I(r)
    {
      if ty != Codec.Integer {
        return -1;
      }
      var chunk, idxInChunk := Locate(idx, args, vals);
      RunStored(Image(), store.data, vals, chunk, colIdx, args);
      ghost var cells := Chunks(vals, args.blockSize)[chunk];
      var k := GenKey(baseKey.str, colIdx, chunk, args.numNodes);
      var out := blocks.GetInt(k, idxInChunk, BlockOf(cells, ty, args.blockSize).ints);
      return out.value;
    }

    /** get_string: exits for a column of another type. */
    method GetString(idx: nat, colIdx: nat, args: Args, ghost vals: seq<Cell>) returns (r: Option<String>)
      requires args.Valid() && blocks.store == store && blocks.Coherent(ty)
      requires ColumnShows(Image(), store.data, vals, colIdx, args) && idx < |vals|
      modifies blocks.cache
      ensures blocks.Coherent(ty) && (ty != Codec.Str ==> r == None)
      ensures ty == Codec.Str ==> r.Some? && vals[idx] == S(r.value)
    {
      if ty != Codec.Str {
        return None;
      }
      var chunk, idxInChunk := Locate(idx, args, vals);
      RunStored(Image(), store.data, vals, chunk, colIdx, args);
      ghost var cells := Chunks(vals, args.blockSize)[chunk];
      var k := GenKey(baseKey.str, colIdx, chunk, args.numNodes);
      r := blocks.GetString(k, idxInChunk, BlockOf(cells, ty, args.blockSize).strs);
    }
  }

  /** The values stored once i of the runs cs have followed what was stored. */
  ghost function ValuesThrough(stored: seq<Value>, cs: seq<seq<Cell>>, i: nat, ty: Codec.DataType, bs: nat): seq<Value>
    requires i <= |cs|
  {
    stored + BlockValues(cs[..i], ty, bs)
  }

  lemma AllThrough(stored: seq<Value>, cs: seq<seq<Cell>>, ty: Codec.DataType, bs: nat)
    ensures ValuesThrough(stored, cs, |cs|, ty, bs) == stored + BlockValues(cs, ty, bs)
  {
    assert cs[..|cs|] == cs;
  }

  /** The i-th run is stored behind the ones before it. */
  lemma RunAppended(before: map<Key, Value>, data: map<Key, Value>, ks: seq<Key>, stored: seq<Value>,
                    cs: seq<seq<Cell>>, i: nat, ty: Codec.DataType, first: nat, base: String, col: nat, args: Args)
    requires args.Valid() && i < |cs|
    requires BlocksAppended(before, data, ks, ValuesThrough(stored, cs, i, ty, args.blockSize), first, base, col,
                            args.numNodes)
    ensures var k, v := GenKey(base, col, |ks|, args.numNodes), Bytes(BlockOf(cs[i], ty, args.blockSize));
      BlocksAppended(before, data[k := v], ks + [k], ValuesThrough(stored, cs, i + 1, ty, args.blockSize), first, base,
                     col, args.numNodes)
  {
    var v := Bytes(BlockOf(cs[i], ty, args.blockSize));
    assert cs[..i + 1][..i] == cs[..i];
    assert ValuesThrough(stored, cs, i + 1, ty, args.blockSize)
        == ValuesThrough(stored, cs, i, ty, args.blockSize) + [v];
    BlockAppended(before, data, ks, ValuesThrough(stored, cs, i, ty, args.blockSize), first, base, col, args.numNodes,
                  v);
  }

  /** start values are done, which are the first i runs. */
  ghost predicate AtChunk<T>(vals: seq<T>, start: nat, cs: seq<seq<T>>, i: nat, bs: nat) {
    && bs > 0 && start <= |vals| && i <= |cs| && Chunks(vals[start..], bs) == cs[i..]
    && (start < |vals| ==> start / bs == i && start % bs == 0)
  }

  lemma FirstChunk<T>(vals: seq<T>, bs: nat)
    requires bs > 0
    ensures AtChunk(vals, 0, Chunks(vals, bs), 0, bs)
  {
    assert vals[0..] == vals;
    BlockAndOffset(0, 0, bs);
  }

  /** The first run of what is left is the next of all the runs. */
  lemma NextChunk<T>(vals: seq<T>, start: nat, cs: seq<seq<T>>, i: nat, bs: nat)
    requires AtChunk(vals, start, cs, i, bs) && start < |vals|
    ensures i < |cs| && cs[i] == vals[start..start + Least(|vals| - start, bs)]
    ensures AtChunk(vals, start + Least(|vals| - start, bs), cs, i + 1, bs)
  {
    var rest := vals[start..];
    var amount := Least(|rest|, bs);
    assert rest[amount..] == vals[start + amount..];
    assert cs[i..][0] == rest[..amount] == vals[start..start + amount];
    assert cs[i..][1..] == cs[i + 1..];
    OneBlockMore(start, bs);
  }
}
