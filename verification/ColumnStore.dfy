/**
 A column whose blocks live in the key-value stores, and the cached reads of it.
 */
module ColumnStore {
  import opened Messages
  import opened Codec
  import opened Serializer
  import opened BlockKeys
  import opened Cache

  /** A value of one of the two column types modelled. */
  datatype Cell = I(i: int) | S(s: String)

  predicate HasType(c: Cell, ty: DataType) {
    if c.I? then ty == Integer && IsInt(c.i) else ty == Str && ValidString(c.s)
  }

  predicate AllOfType(cells: seq<Cell>, ty: DataType) {
    forall i :: 0 <= i < |cells| ==> HasType(cells[i], ty)
  }

  /** A block object: IntBlock or StringBlock. */
  datatype AnyBlock = Ints(ints: Block<int>) | Strs(strs: Block<String>)

  function Bytes(b: AnyBlock): Value {
    match b
    case Ints(ints) => EncBlock(ints, EncInt)
    case Strs(strs) => EncBlock(strs, EncString)
  }

  predicate ValidBlock(b: AnyBlock) {
    match b
    case Ints(x) => IsSize(x.capacity) && IsSize(|x.vals|) && forall i :: i in x.vals ==> IsInt(i)
    case Strs(x) => IsSize(x.capacity) && IsSize(|x.vals|) && forall s :: s in x.vals ==> ValidString(s)
  }

  function IntOf(c: Cell): int { if c.I? then c.i else 0 }

  function StrOf(c: Cell): String { if c.S? then c.s else [] }

  /** The block that a column of type ty makes of the given cells. */
  function BlockOf(cells: seq<Cell>, ty: DataType, bs: nat): AnyBlock {
    if ty == Integer then Ints(Block(bs, seq(|cells|, i requires 0 <= i < |cells| => IntOf(cells[i]))))
    else Strs(Block(bs, seq(|cells|, i requires 0 <= i < |cells| => StrOf(cells[i]))))
  }

  lemma BlockOfIsValid(cells: seq<Cell>, ty: DataType, bs: nat)
    requires AllOfType(cells, ty) && IsSize(bs) && IsSize(|cells|)
    ensures ValidBlock(BlockOf(cells, ty, bs))
  {
  }

  /** Valid blocks of one type with the same bytes are the same block. */
  lemma BytesTellBlocksApart(a: AnyBlock, b: AnyBlock)
    requires ValidBlock(a) && ValidBlock(b) && a.Ints? == b.Ints? && Bytes(a) == Bytes(b)
    ensures a == b
  {
    var buf := Bytes(a);
    AtSlice(buf, 0, buf);
    assert buf[0..0 + |buf|] == buf;
    if a.Ints? {
      IntBlockRoundTrip(buf, 0, a.ints);
      IntBlockRoundTrip(buf, 0, b.ints);
    } else {
      StringBlockRoundTrip(buf, 0, a.strs);
      StringBlockRoundTrip(buf, 0, b.strs);
    }
  }

  /** The stores of all nodes, as far as gets that wait and puts that are not raced can
      tell: a wait for a key returns what was put under it. */
  class Stores {
    var data: map<Key, Value>

    method Put(k: Key, v: Value)
      modifies this
      ensures data == old(data)[k := v]
    {
      data := data[k := v];
    }

    method WaitAndGet(k: Key) returns (v: Value)
      requires k in data
      ensures v == data[k]
    {
      v := data[k];
    }
  }

  class DistributedArray {
    const store: Stores
    const cache: Cache<Key, AnyBlock>
    var keyList: seq<Key>

    constructor (store: Stores)
      ensures this.store == store && keyList == [] && fresh(cache) && cache.Valid() && cache.data == map[]
    {
      this.store, keyList := store, [];
      cache := new Cache(15);
    }

    /** What is cached is a block of the column's type, and what the store holds. */
    ghost predicate Coherent(ty: DataType)
      reads this, store, cache
    {
      && cache.Valid()
      && forall k :: k in cache.data ==>
           && k in store.data && Bytes(cache.data[k]) == store.data[k]
           && ValidBlock(cache.data[k]) && cache.data[k].Ints? == (ty == Integer)
    }

    /** getIntBlockFromStore_ and getStrBlockFromStore_, for a key under which the store
        has the block b. */
    method BlockFromStore(k: Key, ty: DataType, ghost b: AnyBlock) returns (r: AnyBlock)
      requires k in store.data && store.data[k] == Bytes(b) && ValidBlock(b)
      requires b.Ints? == (ty == Integer)
      ensures r == b
    {
      var val := store.WaitAndGet(k);
      var s := new Serializer.FromBytes(val);
      AtSlice(s.Written(), 0, val);
      assert s.Written()[0..0 + |val|] == val;
      if ty == Integer {
        var x := DeserializeIntBlock(s, b.ints);
        r := Ints(x);
      } else {
        var x := DeserializeStringBlock(s, b.strs);
        r := Strs(x);
      }
    }

    /** A block that is not cached is taken from the store into the cache. */
    method FetchBlock(k: Key, ty: DataType, ghost b: AnyBlock)
      requires Coherent(ty) && k !in cache.data && k in store.data && store.data[k] == Bytes(b) && ValidBlock(b)
      requires b.Ints? == (ty == Integer)
      modifies cache
      ensures Coherent(ty) && k in cache.data
      ensures cache.keyOrder == Evicting(old(cache.keyOrder), cache.maxSize, k)
    {
      var val := BlockFromStore(k, ty, b);
      cache.Put(k, val);
    }

    /** The first half of getInt and getString: the block, from the cache or else from the
        store and through the cache.  It is the block in the store either way, and the
        cache changes as its first-in-first-out order says. */
    method CachedBlock(k: Key, ty: DataType, ghost b: AnyBlock) returns (r: AnyBlock)
      requires Coherent(ty) && k in store.data && store.data[k] == Bytes(b) && ValidBlock(b)
      requires b.Ints? == (ty == Integer)
      modifies cache
      ensures Coherent(ty) && r == b
      ensures cache.keyOrder == AfterRead(old(cache.keyOrder), cache.maxSize, k)
    {
      if k !in cache.data {
        FetchBlock(k, ty, b);
      }
      r := cache.data[k];
      BytesTellBlocksApart(r, b);
    }

    /** getInt; an index past the block's end exits the program. */
    method GetInt(k: Key, itemIdx: nat, ghost b: Block<int>) returns (r: Option<int>)
      requires Coherent(Integer) && k in store.data && store.data[k] == Bytes(Ints(b)) && ValidBlock(Ints(b))
      modifies cache
      ensures Coherent(Integer) && r == if itemIdx < |b.vals| then Some(b.vals[itemIdx]) else None
      ensures cache.keyOrder == AfterRead(old(cache.keyOrder), cache.maxSize, k)
    {
      var block := CachedBlock(k, Integer, Ints(b));
      if itemIdx >= |block.ints.vals| {
        return None;
      }
      return Some(block.ints.vals[itemIdx]);
    }

    /** getString. */
    method GetString(k: Key, itemIdx: nat, ghost b: Block<String>) returns (r: Option<String>)
      requires Coherent(Str) && k in store.data && store.data[k] == Bytes(Strs(b)) && ValidBlock(Strs(b))
      modifies cache
      ensures Coherent(Str) && r == if itemIdx < |b.vals| then Some(b.vals[itemIdx]) else None
      ensures cache.keyOrder == AfterRead(old(cache.keyOrder), cache.maxSize, k)
    {
      var block := CachedBlock(k, Str, Strs(b));
      if itemIdx >= |block.strs.vals| {
        return None;
      }
      return Some(block.strs.vals[itemIdx]);
    }
  }

  // ----- the column -----

  /** IntBlock or StringBlock while it is being filled: a fixed array and a count. */
  class CellBlock {
    const vals: array<Cell>
    var size: nat

    ghost predicate Valid()
      reads this
    {
      size <= vals.Length
    }

    ghost function Contents(): seq<Cell>
      requires Valid()
      reads this, vals
    {
      vals[..size]
    }

    constructor (capacity: nat)
      ensures Valid() && fresh(vals) && vals.Length == capacity && Contents() == []
    {
      vals, size := new Cell[capacity](_ => I(0)), 0;
    }

    /** add: a full block takes nothing. */
    method Add(c: Cell) returns (added: bool)
      requires Valid()
      modifies this, vals
      ensures Valid() && added == (|old(Contents())| < vals.Length)
      ensures Contents() == old(Contents()) + if added then [c] else []
    {
      if size >= vals.Length {
        return false;
      }
      vals[size] := c;
      size := size + 1;
      return true;
    }

    method Clear()
      modifies this
      ensures Valid() && Contents() == []
    {
      size := 0;
    }

    /** The loop that add_all fills a block with. */
    method Fill(cells: seq<Cell>, start: nat, amount: nat)
      requires Valid() && Contents() == [] && amount <= vals.Length && start + amount <= |cells|
      modifies this, vals
      ensures Valid() && Contents() == cells[start..start + amount]
    {
      for i := start to start + amount
        invariant Valid() && Contents() == cells[start..i]
      {
        var added := Add(cells[i]);
      }
    }

    method Serialize(ty: DataType, s: Serializer)
      requires Valid() && CanWrite(s) && s.Written() == []
      requires s.buffer as object != vals
      modifies s`buffer, s`numBytesWritten, s.buffer
      ensures s.Valid() && s.Written() == Bytes(BlockOf(Contents(), ty, vals.Length))
    {
      if ty == Integer {
        SerializeIntBlock(s, BlockOf(vals[..size], ty, vals.Length).ints);
      } else {
        SerializeStringBlock(s, BlockOf(vals[..size], ty, vals.Length).strs);
      }
    }
  }

  /** The stores hold the value vs[j] under each key ks[j]. */
  ghost predicate Stored(data: map<Key, Value>, ks: seq<Key>, vs: seq<Value>) {
    |ks| == |vs| && forall j :: 0 <= j < |ks| ==> ks[j] in data && data[ks[j]] == vs[j]
  }

  /** Whatever is not under one of the keys ks is stored as it was. */
  ghost predicate OthersKept(before: map<Key, Value>, after: map<Key, Value>, ks: seq<Key>) {
    forall k :: k in before && k !in ks ==> k in after && after[k] == before[k]
  }

  /** The keys of the first n blocks. */
  function KeyList(base: String, col: nat, n: nat, numNodes: nat): (r: seq<Key>)
    requires numNodes > 0
    ensures |r| == n
  {
    if n == 0 then [] else KeyList(base, col, n - 1, numNodes) + [GenKey(base, col, n - 1, numNodes)]
  }

  lemma {:induction false} KeyListAt(base: String, col: nat, n: nat, b: nat, numNodes: nat)
    requires numNodes > 0 && b < n
    ensures KeyList(base, col, n, numNodes)[b] == GenKey(base, col, b, numNodes)
  {
    if b < n - 1 {
      KeyListAt(base, col, n - 1, b, numNodes);
    }
  }

  /** A key under which columns with the given base key store blocks. */
  ghost predicate IsBlockKey(k: Key, base: String, numNodes: nat)
    requires numNodes > 0
  {
    exists col: nat, b: nat :: k == GenKey(base, col, b, numNodes)
  }

  /** Two frames under keys of which neither is the other nor a block key of the other. */
  ghost predicate Independent(key: Key, key': Key, numNodes: nat)
    requires numNodes > 0
  {
    key.str != key'.str && !IsBlockKey(key, key'.str, numNodes) && !IsBlockKey(key', key.str, numNodes)
  }

  lemma {:induction false} KeyListOfBlockKeys(base: String, col: nat, n: nat, numNodes: nat)
    requires numNodes > 0
    ensures forall k :: k in KeyList(base, col, n, numNodes) ==> IsBlockKey(k, base, numNodes)
  {
    if n > 0 {
      KeyListOfBlockKeys(base, col, n - 1, numNodes);
      assert IsBlockKey(GenKey(base, col, n - 1, numNodes), base, numNodes);
    }
  }

  /** They are keys of this column and of no other, and a key not yet in the list. */
  lemma {:induction false} KeyListIsFresh(base: String, col: nat, n: nat, base': String, col': nat, b: nat,
                                          numNodes: nat)
    requires numNodes > 0 && (base != base' || col != col' || b >= n)
    ensures GenKey(base', col', b, numNodes) !in KeyList(base, col, n, numNodes)
  {
    if n > 0 {
      KeyListIsFresh(base, col, n - 1, base', col', b, numNodes);
      if GenKey(base', col', b, numNodes) == GenKey(base, col, n - 1, numNodes) {
        KeysNeverCollide(base', col', b, base, col, n - 1, numNodes);
      }
    }
  }

  /** Two columns of one frame share no key, even if they share the base. */
  lemma {:induction false} KeyListsApart(base: String, col: nat, n: nat, base': String, col': nat, n': nat,
                                         numNodes: nat)
    requires numNodes > 0 && (base != base' || col != col')
    ensures forall k :: k in KeyList(base, col, n, numNodes) ==> k !in KeyList(base', col', n', numNodes)
  {
    if n > 0 {
      KeyListsApart(base, col, n - 1, base', col', n', numNodes);
      KeyListIsFresh(base', col', n', base, col, n - 1, numNodes);
    }
  }

  /** The values stored for the runs cs. */
  function BlockValues(cs: seq<seq<Cell>>, ty: DataType, bs: nat): (r: seq<Value>)
    ensures |r| == |cs|
  {
    if cs == [] then [] else BlockValues(cs[..|cs| - 1], ty, bs) + [Bytes(BlockOf(cs[|cs| - 1], ty, bs))]
  }

  lemma {:induction false} BlockValuesAppend(a: seq<seq<Cell>>, b: seq<seq<Cell>>, ty: DataType, bs: nat)
    ensures BlockValues(a + b, ty, bs) == BlockValues(a, ty, bs) + BlockValues(b, ty, bs)
    decreases |b|
  {
    if b == [] {
      assert a + b == a;
    } else {
      assert (a + b)[..|a + b| - 1] == a + b[..|b| - 1];
      BlockValuesAppend(a, b[..|b| - 1], ty, bs);
    }
  }

  lemma {:induction false} BlockValueAt(cs: seq<seq<Cell>>, j: nat, ty: DataType, bs: nat)
    requires j < |cs|
    ensures BlockValues(cs, ty, bs)[j] == Bytes(BlockOf(cs[j], ty, bs))
    decreases |cs|
  {
    if j < |cs| - 1 {
      BlockValueAt(cs[..|cs| - 1], j, ty, bs);
    }
  }

  /** The stores hold values under the keys ks of a column; of these the keys from the
      first-th on were written since the stores held before, and nothing else was. */
  ghost predicate BlocksAppended(before: map<Key, Value>, data: map<Key, Value>, ks: seq<Key>, values: seq<Value>,
                           first: nat, base: String, col: nat, numNodes: nat)
    requires numNodes > 0
  {
    && first <= |ks| && ks == KeyList(base, col, |ks|, numNodes)
    && Stored(data, ks, values) && OthersKept(before, data, ks[first..])
  }

  lemma BlockAppended(before: map<Key, Value>, data: map<Key, Value>, ks: seq<Key>, values: seq<Value>,
                    first: nat, base: String, col: nat, numNodes: nat, v: Value)
    requires numNodes > 0 && BlocksAppended(before, data, ks, values, first, base, col, numNodes)
    ensures var k := GenKey(base, col, |ks|, numNodes);
      BlocksAppended(before, data[k := v], ks + [k], values + [v], first, base, col, numNodes)
  {
    var k := GenKey(base, col, |ks|, numNodes);
    KeyListIsFresh(base, col, |ks|, base, col, |ks|, numNodes);
    assert (ks + [k])[first..] == ks[first..] + [k];
  }
}
