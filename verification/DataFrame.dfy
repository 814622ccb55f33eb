/**
 Distributed frames: built row by row from a writer, read back by any node.
 */
module DataFrame {
  import opened Messages
  import opened Serializer
  import opened RowBlocks
  import opened BlockKeys
  import opened ColumnStore
  import opened Columns

  type Row = seq<Cell>

  predicate FitsSchema(row: Row, types: seq<Codec.DataType>) {
    |row| == |types| && forall c :: 0 <= c < |row| ==> HasType(row[c], types[c])
  }

  predicate AllFit(rows: seq<Row>, types: seq<Codec.DataType>) {
    forall r :: 0 <= r < |rows| ==> FitsSchema(rows[r], types)
  }

  /** The cells of column c. */
  function ColumnOf(rows: seq<Row>, c: nat): (r: seq<Cell>)
    requires forall i :: 0 <= i < |rows| ==> c < |rows[i]|
    ensures |r| == |rows| && forall i :: 0 <= i < |r| ==> r[i] == rows[i][c]
  {
    seq(|rows|, i requires 0 <= i < |rows| => rows[i][c])
  }

  /** The rows seen as columns. */
  function Transposed(rows: seq<Row>, width: nat): (r: seq<seq<Cell>>)
    requires forall i :: 0 <= i < |rows| ==> |rows[i]| == width
    ensures |r| == width && forall c :: 0 <= c < width ==> r[c] == ColumnOf(rows, c)
  {
    seq(width, c requires 0 <= c < width => ColumnOf(rows, c))
  }

  /** The columns of rows, of which the first i have grown by those of chunk. */
  function PartlyAdded(rows: seq<Row>, chunk: seq<Row>, i: nat, width: nat): (r: seq<seq<Cell>>)
    requires forall j :: 0 <= j < |rows| ==> |rows[j]| == width
    requires forall j :: 0 <= j < |chunk| ==> |chunk[j]| == width
    ensures |r| == width
  {
    seq(width, c requires 0 <= c < width => ColumnOf(rows, c) + if c < i then ColumnOf(chunk, c) else [])
  }

  lemma NothingAdded(rows: seq<Row>, chunk: seq<Row>, width: nat)
    requires forall j :: 0 <= j < |rows| ==> |rows[j]| == width
    requires forall j :: 0 <= j < |chunk| ==> |chunk[j]| == width
    ensures PartlyAdded(rows, chunk, 0, width) == Transposed(rows, width)
  {
    assert forall c :: 0 <= c < width ==> PartlyAdded(rows, chunk, 0, width)[c] == Transposed(rows, width)[c];
  }

  lemma OneMoreAdded(rows: seq<Row>, chunk: seq<Row>, i: nat, width: nat)
    requires forall j :: 0 <= j < |rows| ==> |rows[j]| == width
    requires forall j :: 0 <= j < |chunk| ==> |chunk[j]| == width
    requires i < width
    ensures var shown := PartlyAdded(rows, chunk, i, width);
      |shown[i]| == |rows| && shown[i := shown[i] + ColumnOf(chunk, i)] == PartlyAdded(rows, chunk, i + 1, width)
  {
    var shown, shown' := PartlyAdded(rows, chunk, i, width), PartlyAdded(rows, chunk, i + 1, width);
    assert shown[i] == ColumnOf(rows, i);
    assert forall c :: 0 <= c < width && c != i ==> shown[c] == shown'[c];
  }

  lemma AllAdded(rows: seq<Row>, chunk: seq<Row>, width: nat)
    requires forall j :: 0 <= j < |rows| ==> |rows[j]| == width
    requires forall j :: 0 <= j < |chunk| ==> |chunk[j]| == width
    ensures PartlyAdded(rows, chunk, width, width) == Transposed(rows + chunk, width)
  {
    forall c | 0 <= c < width
      ensures PartlyAdded(rows, chunk, width, width)[c] == Transposed(rows + chunk, width)[c]
    {
      assert ColumnOf(rows, c) + ColumnOf(chunk, c) == ColumnOf(rows + chunk, c);
    }
  }

  /** The columns stand for the given lists of values. */
  ghost predicate AllShow(columns: seq<Codec.Column>, data: map<Key, Value>, shown: seq<seq<Cell>>, args: Args)
    requires args.Valid()
  {
    |shown| == |columns| && forall c :: 0 <= c < |columns| ==> ColumnShows(columns[c], data, shown[c], c, args)
  }

  /** A frame, as far as it would be serialized, together with what is stored, stands for
      the given rows. */
  ghost predicate FrameShows(f: Codec.Frame, data: map<Key, Value>, rows: seq<Row>, args: Args)
    requires args.Valid()
  {
    && |f.columns| == |f.schema.types| && f.schema.numRows == |rows| && AllFit(rows, f.schema.types)
    && (forall c :: 0 <= c < |f.columns| ==> f.columns[c].ty == f.schema.types[c])
    && AllShow(f.columns, data, Transposed(rows, |f.columns|), args)
  }

  /** Column i grew by vals and wrote only its own new blocks: the others still show what
      they showed. */
  lemma OthersStillShow(columns: seq<Codec.Column>, before: map<Key, Value>, after: map<Key, Value>,
                        shown: seq<seq<Cell>>,
                        i: nat, c': Codec.Column, first: nat, vals: seq<Cell>, args: Args)
    requires args.Valid() && AllShow(columns, before, shown, args) && i < |columns|
    requires ColumnShows(c', after, vals, i, args)
    requires first <= |c'.blocks| && OthersKept(before, after, c'.blocks[first..])
    ensures AllShow(columns[i := c'], after, shown[i := vals], args)
  {
    forall c | 0 <= c < |columns| && c != i
      ensures ColumnShows(columns[c], after, shown[c], c, args)
    {
      var col := columns[c];
      KeyListsApart(col.baseKey.str, c, |col.blocks|, c'.baseKey.str, i, |c'.blocks|, args.numNodes);
      assert forall k :: k in c'.blocks[first..] ==> k in c'.blocks;
      ShowsStill(col, before, after, shown[c], c, args, c'.blocks[first..]);
    }
  }

  /** A full block behind full blocks. */
  lemma StillFull(rows: seq<Row>, chunk: seq<Row>, bs: nat)
    requires bs > 0 && |rows| % bs == 0 && |chunk| == bs
    ensures |rows + chunk| % bs == 0
  {
    OneBlockMore(|rows|, bs);
  }

  lemma OneMoreRow(rows: seq<Row>, writer: seq<Row>, i: nat)
    requires i < |writer|
    ensures rows + writer[..i] + [writer[i]] == rows + writer[..i + 1]
  {
  }

  lemma OneMoreCell(row: Row, c: nat)
    requires c < |row|
    ensures row[..c + 1] == row[..c] + [row[c]]
  {
  }

  ghost predicate Separate(columns: seq<Column>, types: seq<Codec.DataType>, store: Stores)
    requires |columns| <= |types|
  {
    && (forall c :: 0 <= c < |columns| ==>
          columns[c].ty == types[c] && columns[c].store == store && columns[c].blocks.store == store)
    && (forall c, d :: 0 <= c < d < |columns| ==>
          columns[c] != columns[d] && columns[c].blocks != columns[d].blocks
              && columns[c].blocks.cache != columns[d].blocks.cache)
  }

  class DataFrame {
    const store: Stores
    const columns: seq<Column>
    const types: seq<Codec.DataType>
    const capCols: nat
    const key: Key
    const args: Args
    var numRows: nat

    /** The columns are separate objects over one store, typed as the schema says. */
    ghost predicate Valid() {
      args.Valid() && |columns| == |types| && Separate(columns, types, store)
    }

    constructor (store: Stores, columns: seq<Column>, types: seq<Codec.DataType>, capCols: nat, key: Key, numRows: nat,
                 args: Args)
      ensures this.store == store && this.columns == columns && this.types == types && this.capCols == capCols
      ensures this.key == key && this.numRows == numRows && this.args == args
    {
      this.store, this.columns, this.types, this.capCols := store, columns, types, capCols;
      this.key, this.numRows, this.args := key, numRows, args;
    }

    ghost function BlocksOf(): set<object> { set c | c in columns :: c.blocks }

    ghost function CachesOf(): set<object> { set c | c in columns :: c.blocks.cache }

    ghost function Images(): (r: seq<Codec.Column>)
      reads columns, BlocksOf()
      ensures |r| == |columns| && forall c :: 0 <= c < |r| ==> r[c] == columns[c].Image()
    {
      seq(|columns|, c requires 0 <= c < |columns| reads columns, BlocksOf() => columns[c].Image())
    }

    /** What serialize writes. */
    ghost function Image(): Codec.Frame
      reads this, columns, BlocksOf()
    {
      Codec.Frame(Images(), Codec.Schema(capCols, types, numRows), key)
    }

    method ToImage() returns (image: Codec.Frame)
      ensures image == Image()
    {
      var cols: seq<Codec.Column> := [];
      for c := 0 to |columns|
        invariant |cols| == c && forall d :: 0 <= d < c ==> cols[d] == columns[d].Image()
      {
        cols := cols + [columns[c].Image()];
      }
      image := Codec.Frame(cols, Codec.Schema(capCols, types, numRows), key);
    }

    /** A key under which the frame's columns store their blocks. */
    ghost predicate IsOwnKey(k: Key)
      requires Valid()
    {
      exists c :: 0 <= c < |columns| && IsBlockKey(k, columns[c].baseKey.str, args.numNodes)
    }

    /** What is stored under other keys stays. */
    ghost predicate KeepsOthers(before: map<Key, Value>, after: map<Key, Value>)
      requires Valid()
    {
      forall k :: k in before && !IsOwnKey(k) ==> k in after && after[k] == before[k]
    }

    lemma WroteOwnKeys(i: nat, first: nat, vals: seq<Cell>, before: map<Key, Value>, after: map<Key, Value>)
      requires Valid() && i < |columns| && ColumnShows(columns[i].Image(), after, vals, i, args)
      requires first <= |columns[i].blocks.keyList| && OthersKept(before, after, columns[i].blocks.keyList[first..])
      ensures KeepsOthers(before, after)
    {
      var ks := columns[i].blocks.keyList;
      KeyListOfBlockKeys(columns[i].baseKey.str, i, |ks|, args.numNodes);
      forall k | k in before && !IsOwnKey(k)
        ensures k in after && after[k] == before[k]
      {
        assert !IsBlockKey(k, columns[i].baseKey.str, args.numNodes);
        assert k in ks[first..] ==> k in ks;
      }
    }

    /** One column's turn in addRowChunk_. */
    method AddToColumn(i: nat, vals: seq<Cell>, ghost shown: seq<seq<Cell>>)
      requires Valid() && i < |columns| && AllOfType(vals, types[i])
      requires AllShow(Images(), store.data, shown, args) && |shown[i]| % args.blockSize == 0
      modifies columns, BlocksOf(), store
      ensures AllShow(Images(), store.data, shown[i := shown[i] + vals], args)
      ensures KeepsOthers(old(store.data), store.data)
    {
      ghost var images, before := Images(), store.data;
      var ok := columns[i].AddAll(vals, types[i], i, args, shown[i]);
      assert Images() == images[i := columns[i].Image()];
      OthersStillShow(images, before, store.data, shown, i, columns[i].Image(), |images[i].blocks|, shown[i] + vals,
                      args);
      WroteOwnKeys(i, |images[i].blocks|, shown[i] + vals, before, store.data);
    }

    /** The cells of column i of the first n rows of the chunk: the temporary array. */
    method CellsOf(rowChunk: array<Row>, n: nat, i: nat) returns (vals: seq<Cell>)
      requires n <= rowChunk.Length && forall j :: 0 <= j < n ==> i < |rowChunk[j]|
      ensures vals == ColumnOf(rowChunk[..n], i)
    {
      vals := [];
      for j := 0 to n
        invariant |vals| == j && forall k :: 0 <= k < j ==> vals[k] == rowChunk[k][i]
      {
        vals := vals + [rowChunk[j][i]];
      }
    }

    method AddColumn(rowChunk: array<Row>, n: nat, i: nat, ghost rows: seq<Row>, ghost chunk: seq<Row>)
      requires Valid() && AllFit(rows, types) && AllFit(chunk, types) && |rows| % args.blockSize == 0 && i < |types|
      requires AllShow(Images(), store.data, PartlyAdded(rows, chunk, i, |types|), args)
      requires n <= rowChunk.Length && rowChunk[..n] == chunk
      modifies columns, BlocksOf(), store
      ensures AllShow(Images(), store.data, PartlyAdded(rows, chunk, i + 1, |types|), args)
      ensures KeepsOthers(old(store.data), store.data)
    {
      assert forall j :: 0 <= j < n ==> rowChunk[j] == chunk[j];
      var vals := CellsOf(rowChunk, n, i);
      OneMoreAdded(rows, chunk, i, |types|);
      AddToColumn(i, vals, PartlyAdded(rows, chunk, i, |types|));
    }

    /** The loop of addRowChunk_ over the columns. */
    method AddColumns(rowChunk: array<Row>, n: nat, ghost rows: seq<Row>, ghost chunk: seq<Row>)
      requires Valid() && AllFit(rows, types) && AllFit(chunk, types) && |rows| % args.blockSize == 0
      requires AllShow(Images(), store.data, Transposed(rows, |types|), args)
      requires n <= rowChunk.Length && rowChunk[..n] == chunk
      modifies columns, BlocksOf(), store
      ensures AllShow(Images(), store.data, Transposed(rows + chunk, |types|), args)
      ensures KeepsOthers(old(store.data), store.data)
    {
      NothingAdded(rows, chunk, |types|);
      for i := 0 to |types|
        invariant AllShow(Images(), store.data, PartlyAdded(rows, chunk, i, |types|), args)
        invariant rowChunk[..n] == chunk && KeepsOthers(old(store.data), store.data)
      {
        AddColumn(rowChunk, n, i, rows, chunk);
      }
      AllAdded(rows, chunk, |types|);
    }

    /** addRowChunk_: the frame's rows, which fill their blocks, are followed by the first n
        rows of the chunk. */
    method AddRowChunk(rowChunk: array<Row>, n: nat, ghost rows: seq<Row>)
      requires Valid() && FrameShows(Image(), store.data, rows, args) && |rows| % args.blockSize == 0
      requires n <= rowChunk.Length && AllFit(rowChunk[..n], types)
      modifies this`numRows, columns, BlocksOf(), store
      ensures FrameShows(Image(), store.data, rows + rowChunk[..n], args)
      ensures KeepsOthers(old(store.data), store.data)
    {
      AddColumns(rowChunk, n, rows, rowChunk[..n]);
      numRows := numRows + n;
    }

    /** visit's loop: the rows shown so far, followed by those waiting in the chunk, are
        the given rows. */
    ghost predicate Pending(rowChunk: array<Row>, n: nat, shown: seq<Row>, rows: seq<Row>)
      requires Valid()
      reads this, columns, BlocksOf(), store, rowChunk
    {
      && n <= rowChunk.Length == args.blockSize
      && FrameShows(Image(), store.data, shown, args) && |shown| % args.blockSize == 0
      && AllFit(rowChunk[..n], types) && shown + rowChunk[..n] == rows
    }

    lemma StartPending(rowChunk: array<Row>, rows: seq<Row>)
      requires Valid() && FrameShows(Image(), store.data, rows, args) && |rows| % args.blockSize == 0
      requires rowChunk.Length == args.blockSize
      ensures Pending(rowChunk, 0, rows, rows)
    {
      assert rows + rowChunk[..0] == rows;
    }

    /** A full chunk is added to the frame. */
    method Flush(rowChunk: array<Row>, ghost shown: seq<Row>, ghost rows: seq<Row>)
      requires Valid() && Pending(rowChunk, args.blockSize, shown, rows)
      modifies this`numRows, columns, BlocksOf(), store
      ensures Pending(rowChunk, 0, rows, rows) && KeepsOthers(old(store.data), store.data)
    {
      StillFull(shown, rowChunk[..args.blockSize], args.blockSize);
      AddRowChunk(rowChunk, args.blockSize, shown);
      StartPending(rowChunk, rows);
    }

    /** What waits in the chunk at the end is added too. */
    method FlushRest(rowChunk: array<Row>, n: nat, ghost shown: seq<Row>, ghost rows: seq<Row>)
      requires Valid() && Pending(rowChunk, n, shown, rows)
      modifies this`numRows, columns, BlocksOf(), store
      ensures FrameShows(Image(), store.data, rows, args) && KeepsOthers(old(store.data), store.data)
    {
      if n > 0 {
        AddRowChunk(rowChunk, n, shown);
      } else {
        assert shown + rowChunk[..0] == shown;
      }
    }

    /** The writer fills in the next row of a chunk that has room. */
    method WriteRow(rowChunk: array<Row>, idx: nat, row: Row, ghost shown: seq<Row>, ghost rows: seq<Row>)
      requires Valid() && Pending(rowChunk, idx, shown, rows) && idx < args.blockSize && FitsSchema(row, types)
      modifies rowChunk
      ensures Pending(rowChunk, idx + 1, shown, rows + [row])
    {
      rowChunk[idx] := row;
      assert rowChunk[..idx + 1] == old(rowChunk[..idx]) + [row];
    }

    /** One round of visit's loop: a full chunk is added first, then the writer fills in
        the next row. */
    method VisitRow(rowChunk: array<Row>, n: nat, row: Row, ghost shown: seq<Row>, ghost rows: seq<Row>)
      returns (idxInCurBlock: nat, ghost shown': seq<Row>)
      requires Valid() && Pending(rowChunk, n, shown, rows) && FitsSchema(row, types)
      modifies this`numRows, columns, BlocksOf(), store, rowChunk
      ensures Pending(rowChunk, idxInCurBlock, shown', rows + [row]) && KeepsOthers(old(store.data), store.data)
    {
      idxInCurBlock, shown' := n, shown;
      if idxInCurBlock == args.blockSize {
        Flush(rowChunk, shown', rows);
        idxInCurBlock, shown' := 0, rows;
      }
      WriteRow(rowChunk, idxInCurBlock, row, shown', rows);
      idxInCurBlock := idxInCurBlock + 1;
    }

    /** visit: the writer is the rows it will fill in, each of them fully.  They follow the
        rows the frame has, if those fill their blocks (a new frame has none). */
    method Visit(writer: seq<Row>, ghost rows: seq<Row>)
      requires Valid() && FrameShows(Image(), store.data, rows, args) && |rows| % args.blockSize == 0
      requires AllFit(writer, types)
      modifies this`numRows, columns, BlocksOf(), store
      ensures FrameShows(Image(), store.data, rows + writer, args) && KeepsOthers(old(store.data), store.data)
    {
      var rowChunk := new Row[args.blockSize](_ => []);
      var idxInCurBlock, rowIdx := 0, 0;
      ghost var shown, seen := rows, rows;
      StartPending(rowChunk, rows);
      while rowIdx < |writer|
        invariant rowIdx <= |writer| && seen == rows + writer[..rowIdx]
        invariant Pending(rowChunk, idxInCurBlock, shown, seen) && KeepsOthers(old(store.data), store.data)
        modifies this`numRows, columns, BlocksOf(), store, rowChunk
      {
        idxInCurBlock, shown := VisitRow(rowChunk, idxInCurBlock, writer[rowIdx], shown, seen);
        OneMoreRow(rows, writer, rowIdx);
        seen := seen + [writer[rowIdx]];
        rowIdx := rowIdx + 1;
      }
      FlushRest(rowChunk, idxInCurBlock, shown, seen);
      assert writer[..rowIdx] == writer;
    }

    // ----- reading -----

    ghost predicate AllCoherent()
      requires Valid()
      reads columns, BlocksOf(), CachesOf(), store
    {
      forall c :: 0 <= c < |columns| ==> columns[c].blocks.Coherent(types[c])
    }

    lemma ColumnIsShown(c: nat, rows: seq<Row>)
      requires Valid() && FrameShows(Image(), store.data, rows, args) && c < |columns|
      ensures ColumnShows(columns[c].Image(), store.data, ColumnOf(rows, c), c, args)
    {
    }

    /** A read through one column's cache leaves the other columns coherent. */
    twostate lemma OthersCoherent(new c: nat)
      requires Valid() && old(AllCoherent()) && c < |columns| && columns[c].blocks.Coherent(types[c])
      requires unchanged(store)
      requires forall d :: 0 <= d < |columns| ==> unchanged(columns[d].blocks)
      requires forall d :: 0 <= d < |columns| && d != c ==> unchanged(columns[d].blocks.cache)
      ensures AllCoherent()
    {
    }

    method ReadInt(c: nat, rowIdx: nat, ghost rows: seq<Row>) returns (cell: Cell)
      requires Valid() && AllCoherent() && FrameShows(Image(), store.data, rows, args)
      requires c < |columns| && rowIdx < |rows| && types[c] == Codec.Integer
      modifies CachesOf()
      ensures AllCoherent() && cell == rows[rowIdx][c]
    {
      ColumnIsShown(c, rows);
      var i := columns[c].GetInt(rowIdx, c, args, ColumnOf(rows, c));
      OthersCoherent(c);
      cell := I(i);
    }

    method ReadString(c: nat, rowIdx: nat, ghost rows: seq<Row>) returns (cell: Cell)
      requires Valid() && AllCoherent() && FrameShows(Image(), store.data, rows, args)
      requires c < |columns| && rowIdx < |rows| && types[c] == Codec.Str
      modifies CachesOf()
      ensures AllCoherent() && cell == rows[rowIdx][c]
    {
      ColumnIsShown(c, rows);
      var s := columns[c].GetString(rowIdx, c, args, ColumnOf(rows, c));
      OthersCoherent(c);
      cell := S(s.value);
    }

    /** setRowValByColType_: the value of a row in a column. */
    method ReadCell(c: nat, rowIdx: nat, ghost rows: seq<Row>) returns (cell: Cell)
      requires Valid() && AllCoherent() && FrameShows(Image(), store.data, rows, args)
      requires c < |columns| && rowIdx < |rows|
      modifies CachesOf()
      ensures AllCoherent() && cell == rows[rowIdx][c]
    {
      ColumnIsShown(c, rows);
      if types[c] == Codec.Integer {
        cell := ReadInt(c, rowIdx, rows);
      } else {
        cell := ReadString(c, rowIdx, rows);
      }
    }

    /** The inner loop of map and local_map: one row, column by column. */
    method ReadRow(rowIdx: nat, ghost rows: seq<Row>) returns (row: Row)
      requires Valid() && AllCoherent() && FrameShows(Image(), store.data, rows, args) && rowIdx < |rows|
      modifies CachesOf()
      ensures AllCoherent() && row == rows[rowIdx]
    {
      row := [];
      ghost var whole := rows[rowIdx];
      assert |whole| == |columns|;
      for c := 0 to |columns|
        invariant AllCoherent() && row == whole[..c]
      {
        var cell := ReadCell(c, rowIdx, rows);
        row := row + [cell];
        OneMoreCell(whole, c);
      }
    }

    /** map: the reader is shown the rows from startIdx up to endIdx, in order, whatever the
        caches held. */
    method Map(startIdx: nat, endIdx: nat, ghost rows: seq<Row>) returns (visited: seq<Row>)
      requires Valid() && AllCoherent() && FrameShows(Image(), store.data, rows, args) && startIdx <= endIdx <= |rows|
      modifies CachesOf()
      ensures AllCoherent() && visited == rows[startIdx..endIdx]
    {
      visited := [];
      for rowIdx := startIdx to endIdx
        invariant AllCoherent() && visited == rows[startIdx..rowIdx]
      {
        var row := ReadRow(rowIdx, rows);
        visited := visited + [row];
      }
    }

    /** local_map on the node with the given id: the reader is shown exactly the rows whose
        blocks are homed there, in order, and each of them whole. */
    method LocalMapRows(storeId: nat, ghost rows: seq<Row>) returns (visited: seq<Row>)
      requires Valid() && AllCoherent() && FrameShows(Image(), store.data, rows, args)
      modifies CachesOf()
      ensures AllCoherent() && AreRowsAt(visited, rows, RowsOf(|rows|, args.blockSize, args.numNodes, storeId))
    {
      visited := [];
      var idxs := LocalMap(numRows, args.blockSize, args.numNodes, storeId);
      RowsOfIncreasing(numRows, args.blockSize, args.numNodes, storeId);
      for i := 0 to |idxs|
        invariant AllCoherent() && AreRowsAt(visited, rows, idxs[..i])
      {
        var row := ReadRow(idxs[i], rows);
        visited := visited + [row];
      }
      assert idxs[..|idxs|] == idxs;
    }
  }

  /** One row for each index, and that the row which stands there. */
  ghost predicate AreRowsAt(visited: seq<Row>, rows: seq<Row>, idxs: seq<nat>) {
    |visited| == |idxs| && forall k :: 0 <= k < |idxs| ==> idxs[k] < |rows| && visited[k] == rows[idxs[k]]
  }

  /** local_map agrees with genKey_: a row is shown on exactly one node, once, and that is
      the node on which the blocks with its cells are homed. */
  lemma ShownWhereItsBlocksAreHomed(rows: seq<Row>, i: nat, base: String, c: nat, args: Args)
    requires args.Valid() && i < |rows|
    ensures forall id: nat :: multiset(RowsOf(|rows|, args.blockSize, args.numNodes, id))[i]
              == if id == GenKey(base, c, i / args.blockSize, args.numNodes).home then 1 else 0
  {
    EachRowHasOneVisitor(|rows|, args.blockSize, args.numNodes, i);
  }

  /** In a frame that stands for rows, the key that a column holds for the block of a row is
      homed on the node which local_map shows the row. */
  lemma ShownWhereItIsStored(f: Codec.Frame, data: map<Key, Value>, rows: seq<Row>, i: nat, c: nat, args: Args)
    requires args.Valid() && FrameShows(f, data, rows, args) && i < |rows| && c < |f.columns|
    ensures BlockOfRow(i, args.blockSize) < |f.columns[c].blocks|
    ensures f.columns[c].blocks[BlockOfRow(i, args.blockSize)].home == HomeOfRow(i, args.blockSize, args.numNodes)
  {
    var col := f.columns[c];
    assert ColumnShows(col, data, ColumnOf(rows, c), c, args);
    BlockForEachRun(col, data, ColumnOf(rows, c), c, args);
    KeyOfValue(col.blocks, ColumnOf(rows, c), i, col.baseKey.str, c, args.blockSize, args.numNodes);
  }

  // ----- frames in the store -----

  /** The frame stored under a key stands for the given rows. */
  ghost predicate StoredFrame(f: Codec.Frame, key: Key, data: map<Key, Value>, rows: seq<Row>, args: Args)
    requires args.Valid()
  {
    key in data && data[key] == Codec.EncFrame(f) && FrameShows(f, data, rows, args)
  }

  /** A key is shorter than the keys of the blocks based on it. */
  lemma {:induction false} OwnKeyIsNoBlockKey(key: Key, col: nat, n: nat, numNodes: nat)
    requires numNodes > 0
    ensures key !in KeyList(key.str, col, n, numNodes)
  {
    if n > 0 {
      OwnKeyIsNoBlockKey(key, col, n - 1, numNodes);
      assert |GenKey(key.str, col, n - 1, numNodes).str| > |key.str|;
    }
  }

  /** Storing a frame under the key its blocks are based on does not touch the blocks. */
  lemma StillShowsRows(f: Codec.Frame, data: map<Key, Value>, rows: seq<Row>, args: Args, v: Value)
    requires args.Valid() && FrameShows(f, data, rows, args)
    requires forall c :: 0 <= c < |f.columns| ==> f.columns[c].baseKey == f.key
    ensures FrameShows(f, data[f.key := v], rows, args)
  {
    forall c | 0 <= c < |f.columns|
      ensures ColumnShows(f.columns[c], data[f.key := v], ColumnOf(rows, c), c, args)
    {
      OwnKeyIsNoBlockKey(f.key, c, |f.columns[c].blocks|, args.numNodes);
      ShowsStill(f.columns[c], data, data[f.key := v], ColumnOf(rows, c), c, args, [f.key]);
    }
  }

  /** The columns of a frame, made from what a frame would serialize. */
  method NewColumns(store: Stores, images: seq<Codec.Column>, types: seq<Codec.DataType>) returns (columns: seq<Column>)
    requires |images| == |types| && forall c :: 0 <= c < |images| ==> images[c].ty == types[c]
    ensures |columns| == |types| && Separate(columns, types, store)
    ensures forall c :: 0 <= c < |columns| ==>
              fresh(columns[c]) && fresh(columns[c].blocks) && fresh(columns[c].blocks.cache)
    ensures forall c :: 0 <= c < |columns| ==>
              columns[c].Image() == images[c] && columns[c].blocks.cache.Valid()
                  && columns[c].blocks.cache.data == map[]
  {
    columns := [];
    for i := 0 to |images|
      invariant |columns| == i && Separate(columns, types, store)
      invariant forall c :: 0 <= c < i ==>
                  fresh(columns[c]) && fresh(columns[c].blocks) && fresh(columns[c].blocks.cache)
      invariant forall c :: 0 <= c < i ==>
                  columns[c].Image() == images[c] && columns[c].blocks.cache.Valid()
                      && columns[c].blocks.cache.data == map[]
    {
      var column := new Column.FromImage(store, images[i]);
      columns := columns + [column];
    }
  }

  /** A column with no values yet. */
  function EmptyColumn(ty: Codec.DataType, key: Key): Codec.Column { Codec.Column(0, [], ty, key) }

  function EmptyColumns(types: seq<Codec.DataType>, key: Key): (r: seq<Codec.Column>)
    ensures |r| == |types| && forall c :: 0 <= c < |r| ==> r[c] == EmptyColumn(types[c], key)
  {
    seq(|types|, c requires 0 <= c < |types| => EmptyColumn(types[c], key))
  }

  /** A new frame shows no rows. */
  lemma EmptyFrameShows(types: seq<Codec.DataType>, capCols: nat, key: Key, data: map<Key, Value>, args: Args)
    requires args.Valid() && forall t :: t in types ==> t == Codec.Integer || t == Codec.Str
    ensures FrameShows(Codec.Frame(EmptyColumns(types, key), Codec.Schema(capCols, types, 0), key), data, [], args)
  {
    forall c | 0 <= c < |types|
      ensures ColumnShows(EmptyColumn(types[c], key), data, [], c, args)
    {
      assert types[c] in types;
    }
    assert forall c :: 0 <= c < |types| ==> Transposed([], |types|)[c] == [];
  }

  /** The frame constructor from a schema, a key and a store: no rows yet. */
  method NewFrame(store: Stores, key: Key, types: seq<Codec.DataType>, args: Args) returns (df: DataFrame)
    requires args.Valid() && forall t :: t in types ==> t == Codec.Integer || t == Codec.Str
    ensures fresh(df) && fresh(set c | c in df.columns) && fresh(df.BlocksOf()) && fresh(df.CachesOf())
    ensures df.Valid() && df.store == store && df.key == key && df.types == types && df.args == args && df.AllCoherent()
    ensures df.capCols == |types|
    ensures df.Images() == EmptyColumns(types, key) && FrameShows(df.Image(), store.data, [], args)
  {
    var columns := NewColumns(store, EmptyColumns(types, key), types);
    df := new DataFrame(store, columns, types, |types|, key, 0, args);
    EmptyFrameShows(types, |types|, key, store.data, args);
    assert df.Images() == EmptyColumns(types, key);
  }

  /** What is stored neither under the key nor under a block key based on it stays. */
  ghost predicate KeptApart(before: map<Key, Value>, after: map<Key, Value>, key: Key, numNodes: nat)
    requires numNodes > 0
  {
    forall k :: k in before && k != key && !IsBlockKey(k, key.str, numNodes) ==> k in after && after[k] == before[k]
  }

  /** A frame whose columns are based on the key keeps all of these. */
  lemma OwnKeysAreBasedOn(df: DataFrame, key: Key, before: map<Key, Value>, after: map<Key, Value>)
    requires df.Valid() && df.KeepsOthers(before, after)
    requires forall c :: 0 <= c < |df.columns| ==> df.columns[c].baseKey == key
    ensures KeptApart(before, after, key, df.args.numNodes)
  {
  }

  lemma ThenStored(before: map<Key, Value>, data: map<Key, Value>, after: map<Key, Value>, key: Key, numNodes: nat)
    requires numNodes > 0 && KeptApart(before, data, key, numNodes)
    requires forall k :: k in data && k != key ==> k in after && after[k] == data[k]
    ensures KeptApart(before, after, key, numNodes)
  {
  }

  /** fromVisitor and addDFToStore_: the rows of the writer, in the stores, under the key;
      nothing else changes there. */
  method FromVisitor(store: Stores, key: Key, types: seq<Codec.DataType>, writer: seq<Row>, args: Args)
    returns (df: DataFrame)
    requires args.Valid() && (forall t :: t in types ==> t == Codec.Integer || t == Codec.Str) && AllFit(writer, types)
    modifies store
    ensures df.Valid() && df.store == store && df.args == args && StoredFrame(df.Image(), key, store.data, writer, args)
    ensures df.types == types && df.capCols == |types| && df.key == key
    ensures forall c :: 0 <= c < |df.columns| ==> df.columns[c].baseKey == key
    ensures KeptApart(old(store.data), store.data, key, args.numNodes)
  {
    df := NewFrame(store, key, types, args);
    ghost var images := df.Images();
    assert forall c :: 0 <= c < |df.columns| ==> df.columns[c].baseKey == images[c].baseKey == key;
    df.Visit(writer, []);
    assert [] + writer == writer;
    ghost var data := store.data;
    OwnKeysAreBasedOn(df, key, old(store.data), data);
    AddToStore(df, writer);
    ThenStored(old(store.data), data, store.data, key, args.numNodes);
  }

  method ToValue(image: Codec.Frame) returns (val: Value)
    ensures val == Codec.EncFrame(image)
  {
    var s := new Serializer();
    SerializeFrame(s, image);
    val := s.buffer[..s.numBytesWritten];
    assert s.Written() == [] + Codec.EncFrame(image) == Codec.EncFrame(image);
  }

  /** A frame survives being stored as bytes. */
  method FromValue(val: Value, ghost f: Codec.Frame) returns (image: Codec.Frame)
    requires Codec.ValidFrame(f) && val == Codec.EncFrame(f)
    ensures image == f
  {
    var s := new Serializer.FromBytes(val);
    Codec.AtSlice(s.Written(), 0, val);
    assert s.Written()[0..0 + |val|] == val;
    image := DeserializeFrame(s, f);
  }

  method AddToStore(df: DataFrame, ghost rows: seq<Row>)
    requires df.Valid() && FrameShows(df.Image(), df.store.data, rows, df.args)
    requires forall c :: 0 <= c < |df.columns| ==> df.columns[c].baseKey == df.key
    modifies df.store
    ensures StoredFrame(df.Image(), df.key, df.store.data, rows, df.args)
    ensures forall k :: k in old(df.store.data) && k != df.key ==>
              k in df.store.data && df.store.data[k] == old(df.store.data)[k]
  {
    var image := df.ToImage();
    var val := ToValue(image);
    StillShowsRows(image, df.store.data, rows, df.args, val);
    df.store.Put(df.key, val);
    assert df.Images() == image.columns;
  }

  /** KVStore.waitAndGet, for a key under which a frame is stored: on any node, a frame
      that stands for the same rows, with its caches still empty. */
  method WaitAndGetFrame(store: Stores, key: Key, args: Args, ghost f: Codec.Frame, ghost rows: seq<Row>)
    returns (df: DataFrame)
    requires args.Valid() && StoredFrame(f, key, store.data, rows, args) && Codec.ValidFrame(f)
    ensures fresh(df) && fresh(df.CachesOf()) && df.Valid() && df.store == store && df.args == args && df.Image() == f
    ensures FrameShows(df.Image(), store.data, rows, args) && df.AllCoherent()
  {
    var val := store.WaitAndGet(key);
    var image := FromValue(val, f);
    var columns := NewColumns(store, image.columns, image.schema.types);
    df := new DataFrame(store, columns, image.schema.types, image.schema.capCols, image.key, image.schema.numRows,
                        args);
    assert df.Images() == image.columns;
  }

  // ----- build, then read -----

  /** What fits 64-bit sizes, key strings included, and holds no NUL. */
  ghost predicate Fits(f: Codec.Frame, args: Args) {
    && Codec.ValidKey(f.key) && Codec.IsSize(args.numNodes)
    && Codec.IsSize(|f.key.str| + |f.schema.types| + f.schema.numRows + f.schema.capCols + 4)
  }

  lemma {:induction false} KeyListIsValid(base: Key, col: nat, n: nat, numNodes: nat)
    requires Codec.ValidKey(base) && 0 < numNodes && Codec.IsSize(numNodes) && Codec.IsSize(|base.str| + col + n + 4)
    ensures forall k :: k in KeyList(base.str, col, n, numNodes) ==> Codec.ValidKey(k)
  {
    if n > 0 {
      KeyListIsValid(base, col, n - 1, numNodes);
      DecimalLength(col);
      DecimalLength(n - 1);
      var k := GenKey(base.str, col, n - 1, numNodes);
      assert Codec.ValidKey(k);
    }
  }

  /** A frame that stands for rows can be serialized and deserialized. */
  lemma FrameIsValid(f: Codec.Frame, data: map<Key, Value>, rows: seq<Row>, args: Args)
    requires args.Valid() && FrameShows(f, data, rows, args) && Fits(f, args)
    requires forall c :: 0 <= c < |f.columns| ==> f.columns[c].baseKey == f.key
    ensures Codec.ValidFrame(f)
  {
    forall col | col in f.columns
      ensures Codec.ValidColumn(col)
    {
      var c :| 0 <= c < |f.columns| && f.columns[c] == col;
      assert ColumnShows(col, data, ColumnOf(rows, c), c, args);
      NoMoreChunksThanValues(ColumnOf(rows, c), args.blockSize);
      KeyListIsValid(f.key, c, |col.blocks|, args.numNodes);
    }
  }

  /** One node builds a frame from a writer, another fetches it and maps a reader over it:
      the reader is shown exactly the writer's rows, for every block size and node count. */
  method BuildThenMap(store: Stores, key: Key, types: seq<Codec.DataType>, writer: seq<Row>, args: Args)
    returns (visited: seq<Row>)
    requires args.Valid() && (forall t :: t in types ==> t == Codec.Integer || t == Codec.Str) && AllFit(writer, types)
    requires Codec.ValidKey(key) && Codec.IsSize(args.numNodes)
    requires Codec.IsSize(|key.str| + 2 * |types| + |writer| + 4)
    modifies store
    ensures visited == writer
  {
    var built := FromVisitor(store, key, types, writer, args);
    ghost var f := built.Image();
    FrameIsValid(f, store.data, writer, args);
    var fetched := WaitAndGetFrame(store, key, args, f, writer);
    visited := fetched.Map(0, |writer|, writer);
    assert writer[0..|writer|] == writer;
  }

  /** The same with local_map on each node: node id is shown the writer's rows homed there. */
  method BuildThenLocalMap(store: Stores, key: Key, types: seq<Codec.DataType>, writer: seq<Row>, args: Args, id: nat)
    returns (visited: seq<Row>)
    requires args.Valid() && (forall t :: t in types ==> t == Codec.Integer || t == Codec.Str) && AllFit(writer, types)
    requires Codec.ValidKey(key) && Codec.IsSize(args.numNodes)
    requires Codec.IsSize(|key.str| + 2 * |types| + |writer| + 4)
    modifies store
    ensures AreRowsAt(visited, writer, RowsOf(|writer|, args.blockSize, args.numNodes, id))
  {
    var built := FromVisitor(store, key, types, writer, args);
    ghost var f := built.Image();
    FrameIsValid(f, store.data, writer, args);
    var fetched := WaitAndGetFrame(store, key, args, f, writer);
    visited := fetched.LocalMapRows(id, writer);
  }
}
