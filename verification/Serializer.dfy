/**
 The growable byte buffer with its write and read cursors, and the nested
 serialize and deserialize methods that go through it.
 */
module Serializer {
  import opened Messages
  import opened Codec

  class Serializer {
    var buffer: array<byte>
    var numBytesWritten: nat
    var numBytesRead: nat

    ghost predicate Valid()
      reads this
    {
      numBytesRead <= numBytesWritten <= buffer.Length
    }

    ghost function Written(): seq<byte>
      reads this, buffer
      requires Valid()
    {
      buffer[..numBytesWritten]
    }

    constructor ()
      ensures Valid() && fresh(buffer) && buffer.Length == 1024 && Written() == [] && numBytesRead == 0
    {
      buffer := new byte[1024](_ => 0);
      numBytesWritten, numBytesRead := 0, 0;
    }

    constructor FromBytes(inp: seq<byte>)
      ensures Valid() && fresh(buffer) && Written() == inp && numBytesRead == 0
    {
      buffer := new byte[|inp|](i requires 0 <= i < |inp| => inp[i]);
      numBytesWritten, numBytesRead := |inp|, 0;
    }

    /** grow_: twice the room, the written bytes copied over. */
    method Grow()
      requires Valid() && buffer.Length > 0
      modifies this`buffer
      ensures Valid() && fresh(buffer) && buffer.Length == 2 * old(buffer.Length)
      ensures Written() == old(Written())
    {
      var newBuf := new byte[2 * buffer.Length](_ => 0);
      forall i | 0 <= i < numBytesWritten {
        newBuf[i] := buffer[i];
      }
      buffer := newBuf;
    }

    /** add_: the loop only ends if there is some room to double. */
    method Add(d: seq<byte>)
      requires Valid() && (buffer.Length > 0 || d == [])
      modifies this`buffer, this`numBytesWritten, buffer
      ensures Valid() && (buffer == old(buffer) || fresh(buffer)) && buffer.Length >= old(buffer.Length)
      ensures Written() == old(Written()) + d
    {
      while numBytesWritten + |d| > buffer.Length
        invariant Valid() && numBytesWritten == old(numBytesWritten) && Written() == old(Written())
        invariant buffer == old(buffer) || fresh(buffer)
        invariant (buffer.Length > 0 || d == []) && buffer.Length >= old(buffer.Length)
        decreases numBytesWritten + |d| - buffer.Length
      {
        Grow();
      }
      CopyIn(d);
    }

    /** memcpy behind the written bytes. */
    method CopyIn(d: seq<byte>)
      requires Valid() && numBytesWritten + |d| <= buffer.Length
      modifies this`numBytesWritten, buffer
      ensures Valid() && Written() == old(Written()) + d
    {
      forall i | 0 <= i < |d| {
        buffer[numBytesWritten + i] := d[i];
      }
      ghost var n := numBytesWritten;
      numBytesWritten := numBytesWritten + |d|;
      assert buffer[..n] == old(Written());
      assert buffer[n..n + |d|] == d;
      assert Written() == buffer[..n] + buffer[n..n + |d|];
    }

    /** clear: nothing written, nothing read, room as before. */
    method Clear()
      requires Valid()
      modifies this
      ensures Valid() && fresh(buffer) && buffer.Length == old(buffer.Length)
      ensures Written() == [] && numBytesRead == 0
    {
      buffer := new byte[buffer.Length](_ => 0);
      numBytesWritten, numBytesRead := 0, 0;
    }

    /** The fixed-size reads: k bytes from the read cursor. */
    method Take(k: nat) returns (bytes: seq<byte>)
      requires Valid() && numBytesRead + k <= numBytesWritten
      modifies this`numBytesRead
      ensures Valid() && numBytesRead == old(numBytesRead) + k
      ensures bytes == Written()[old(numBytesRead)..numBytesRead]
    {
      bytes := buffer[numBytesRead..numBytesRead + k];
      numBytesRead := numBytesRead + k;
    }

    method ReadSizeT() returns (n: nat)
      requires Valid() && DecSize(Written(), numBytesRead).Got?
      modifies this`numBytesRead
      ensures Valid() && DecSize(Written(), old(numBytesRead)) == Got(n, numBytesRead)
    {
      var bytes := Take(8);
      n := FromLittleEndian(bytes);
    }

    method ReadInt() returns (i: int)
      requires Valid() && DecInt(Written(), numBytesRead).Got?
      modifies this`numBytesRead
      ensures Valid() && DecInt(Written(), old(numBytesRead)) == Got(i, numBytesRead)
    {
      var bytes := Take(4);
      var u: int := FromLittleEndian(bytes);
      if u < 0x8000_0000 {
        i := u;
      } else {
        i := u - 0x1_0000_0000;
      }
    }

    method ReadMsgKind() returns (k: MsgKind)
      requires Valid() && DecKind(Written(), numBytesRead).Got?
      modifies this`numBytesRead
      ensures Valid() && DecKind(Written(), old(numBytesRead)) == Got(k, numBytesRead)
    {
      var w := Take(2);
      if w == [49, 0] { k := PutKind; }
      else if w == [50, 0] { k := ReplyDataKind; }
      else if w == [51, 0] { k := WaitAndGetKind; }
      else if w == [52, 0] { k := RegisterKind; }
      else if w == [53, 0] { k := DirKind; }
      else if w == [54, 0] { k := DoneKind; }
      else if w == [55, 0] { k := TeardownKind; }
      else { k := GetDataKind; }
    }

    /** readString: strlen from the read cursor, then copy. */
    method ReadString() returns (s: String)
      requires Valid() && DecCString(Written(), numBytesRead).Got?
      modifies this`numBytesRead
      ensures Valid() && DecCString(Written(), old(numBytesRead)) == Got(s, numBytesRead)
    {
      var len := 0;
      while buffer[numBytesRead + len] != 0
        invariant StrLen(Written(), numBytesRead + len).Some?
        invariant StrLen(Written(), numBytesRead) == Some(len + StrLen(Written(), numBytesRead + len).value)
        decreases numBytesWritten - numBytesRead - len
      {
        len := len + 1;
      }
      s := Take(len);
      var terminator := Take(1);
    }
  }

  // ----- one serialize and deserialize method for each class -----

  /** What every serialize method does to its serializer. */
  twostate predicate Appended(s: Serializer, enc: seq<byte>)
    reads s, s.buffer
  {
    && old(s.Valid()) && s.Valid() && s.Written() == old(s.Written()) + enc
    && (s.buffer == old(s.buffer) || fresh(s.buffer)) && s.buffer.Length >= old(s.buffer.Length) > 0
  }

  ghost predicate CanWrite(s: Serializer)
    reads s
  {
    s.Valid() && s.buffer.Length > 0
  }

  /** The bytes enc are next to be read, with anything behind them.  A deserialize
      method is told, for the proof only, the value whose encoding that is. */
  ghost predicate Next(s: Serializer, enc: seq<byte>)
    reads s, s.buffer
  {
    s.Valid() && At(s.Written(), s.numBytesRead, enc)
  }

  lemma NextSplit(s: Serializer, a: seq<byte>, b: seq<byte>)
    requires Next(s, a + b)
    ensures Next(s, a) && At(s.Written(), s.numBytesRead + |a|, b)
  {
    AtSplit(s.Written(), s.numBytesRead, a, b);
  }

  method SerializeString(s: Serializer, str: String)
    requires CanWrite(s)
    modifies s`buffer, s`numBytesWritten, s.buffer
    ensures Appended(s, EncString(str))
  {
    s.Add(EncSize(|str|));
    s.Add(EncCString(str));
  }

  method DeserializeString(s: Serializer, ghost str: String) returns (r: String)
    requires ValidString(str) && Next(s, EncString(str))
    modifies s`numBytesRead
    ensures s.Valid() && r == str && s.numBytesRead == old(s.numBytesRead) + |EncString(str)|
  {
    NextSplit(s, EncSize(|str|), EncCString(str));
    SizeRoundTrip(s.Written(), s.numBytesRead, |str|);
    CStringRoundTrip(s.Written(), s.numBytesRead + 8, str);
    var size := s.ReadSizeT();
    r := s.ReadString();
  }

  method SerializeKey(s: Serializer, k: Key)
    requires CanWrite(s)
    modifies s`buffer, s`numBytesWritten, s.buffer
    ensures Appended(s, EncKey(k))
  {
    SerializeString(s, k.str);
    s.Add(EncSize(k.home));
  }

  method DeserializeKey(s: Serializer, ghost k: Key) returns (r: Key)
    requires ValidKey(k) && Next(s, EncKey(k))
    modifies s`numBytesRead
    ensures s.Valid() && r == k && s.numBytesRead == old(s.numBytesRead) + |EncKey(k)|
  {
    NextSplit(s, EncString(k.str), EncSize(k.home));
    SizeRoundTrip(s.Written(), s.numBytesRead + |EncString(k.str)|, k.home);
    var str := DeserializeString(s, k.str);
    var home := s.ReadSizeT();
    r := Key(str, home);
  }

  method SerializeValue(s: Serializer, v: Value)
    requires CanWrite(s)
    modifies s`buffer, s`numBytesWritten, s.buffer
    ensures Appended(s, EncValue(v))
  {
    s.Add(EncSize(|v|));
    s.Add(v);
  }

  method DeserializeValue(s: Serializer, ghost v: Value) returns (r: Value)
    requires IsSize(|v|) && Next(s, EncValue(v))
    modifies s`numBytesRead
    ensures s.Valid() && r == v && s.numBytesRead == old(s.numBytesRead) + |EncValue(v)|
  {
    NextSplit(s, EncSize(|v|), v);
    SizeRoundTrip(s.Written(), s.numBytesRead, |v|);
    AtSlice(s.Written(), s.numBytesRead + 8, v);
    var n := s.ReadSizeT();
    r := s.Take(n);
  }

  method DeserializeType(s: Serializer, ghost t: DataType) returns (r: DataType)
    requires Next(s, EncType(t))
    modifies s`numBytesRead
    ensures s.Valid() && r == t && s.numBytesRead == old(s.numBytesRead) + |EncType(t)|
  {
    TypeRoundTrip(s.Written(), s.numBytesRead, t);
    var c := s.Take(1);
    r := CharToType(c[0]).value;
  }

  // ----- lists -----

  /** What is written, and the elements of xs from the i-th on, make up total. */
  ghost predicate StillToWrite<T>(written: seq<byte>, xs: seq<T>, i: nat, enc: T -> seq<byte>, total: seq<byte>)
    requires i <= |xs|
  {
    written + EncAll(xs[i..], enc) == total
  }

  lemma NothingWritten<T>(written: seq<byte>, xs: seq<T>, enc: T -> seq<byte>)
    ensures StillToWrite(written, xs, 0, enc, written + EncAll(xs, enc))
  {
    assert xs[0..] == xs;
  }

  lemma OneMoreWritten<T>(written: seq<byte>, written': seq<byte>, xs: seq<T>, i: nat, enc: T -> seq<byte>,
                          total: seq<byte>)
    requires i < |xs| && StillToWrite(written, xs, i, enc, total) && written' == written + enc(xs[i])
    ensures StillToWrite(written', xs, i + 1, enc, total)
  {
    assert xs[i..][1..] == xs[i + 1..];
    assert written' + EncAll(xs[i + 1..], enc) == written + (enc(xs[i]) + EncAll(xs[i + 1..], enc));
  }

  lemma AllWritten<T>(written: seq<byte>, xs: seq<T>, enc: T -> seq<byte>, total: seq<byte>)
    requires StillToWrite(written, xs, |xs|, enc, total)
    ensures written == total
  {
    assert written + [] == written;
  }

  /** At pos stand the elements of xs from the i-th on, and they end at end. */
  ghost predicate Remaining<T>(buf: seq<byte>, pos: nat, xs: seq<T>, i: nat, enc: T -> seq<byte>, end: nat)
    requires i <= |xs|
  {
    At(buf, pos, EncAll(xs[i..], enc)) && pos + |EncAll(xs[i..], enc)| == end
  }

  lemma NothingRead<T>(buf: seq<byte>, pos: nat, xs: seq<T>, enc: T -> seq<byte>)
    requires At(buf, pos, EncAll(xs, enc))
    ensures Remaining(buf, pos, xs, 0, enc, pos + |EncAll(xs, enc)|)
  {
    assert xs[0..] == xs;
  }

  lemma OneMoreToRead<T>(buf: seq<byte>, pos: nat, xs: seq<T>, i: nat, enc: T -> seq<byte>, end: nat)
    requires i < |xs| && Remaining(buf, pos, xs, i, enc, end)
    ensures xs[i] in xs && At(buf, pos, enc(xs[i]))
    ensures Remaining(buf, pos + |enc(xs[i])|, xs, i + 1, enc, end)
  {
    assert xs[i..][1..] == xs[i + 1..];
    AtSplit(buf, pos, enc(xs[i]), EncAll(xs[i + 1..], enc));
  }

  /** The elements of an IntBlock, written and read. */
  method WriteInts(s: Serializer, xs: seq<int>)
    requires CanWrite(s)
    modifies s`buffer, s`numBytesWritten, s.buffer
    ensures Appended(s, EncAll(xs, EncInt))
  {
    ghost var total := s.Written() + EncAll(xs, EncInt);
    NothingWritten(s.Written(), xs, EncInt);
    var i := 0;
    while i < |xs|
      invariant 0 <= i <= |xs| && CanWrite(s) && s.buffer.Length >= old(s.buffer.Length)
      invariant s.buffer == old(s.buffer) || fresh(s.buffer)
      invariant StillToWrite(s.Written(), xs, i, EncInt, total)
    {
      ghost var written := s.Written();
      s.Add(EncInt(xs[i]));
      OneMoreWritten(written, s.Written(), xs, i, EncInt, total);
      i := i + 1;
    }
    AllWritten(s.Written(), xs, EncInt, total);
  }

  method ReadInts(s: Serializer, n: nat, ghost xs: seq<int>) returns (r: seq<int>)
    requires n == |xs| && (forall x :: x in xs ==> IsInt(x)) && Next(s, EncAll(xs, EncInt))
    modifies s`numBytesRead
    ensures s.Valid() && r == xs && s.numBytesRead == old(s.numBytesRead) + |EncAll(xs, EncInt)|
  {
    ghost var buf, end := s.Written(), s.numBytesRead + |EncAll(xs, EncInt)|;
    NothingRead(buf, s.numBytesRead, xs, EncInt);
    r := [];
    var i := 0;
    while i < n
      invariant 0 <= i <= n && s.Valid() && s.Written() == buf
      invariant |r| == i && forall j :: 0 <= j < i ==> r[j] == xs[j]
      invariant Remaining(buf, s.numBytesRead, xs, i, EncInt, end)
    {
      OneMoreToRead(buf, s.numBytesRead, xs, i, EncInt, end);
      IntRoundTrip(buf, s.numBytesRead, xs[i]);
      var x := s.ReadInt();
      r := r + [x];
      i := i + 1;
    }
  }

  /** The elements of a StringBlock, written and read. */
  method WriteStrings(s: Serializer, xs: seq<String>)
    requires CanWrite(s)
    modifies s`buffer, s`numBytesWritten, s.buffer
    ensures Appended(s, EncAll(xs, EncString))
  {
    ghost var total := s.Written() + EncAll(xs, EncString);
    NothingWritten(s.Written(), xs, EncString);
    var i := 0;
    while i < |xs|
      invariant 0 <= i <= |xs| && CanWrite(s) && s.buffer.Length >= old(s.buffer.Length)
      invariant s.buffer == old(s.buffer) || fresh(s.buffer)
      invariant StillToWrite(s.Written(), xs, i, EncString, total)
    {
      ghost var written := s.Written();
      SerializeString(s, xs[i]);
      OneMoreWritten(written, s.Written(), xs, i, EncString, total);
      i := i + 1;
    }
    AllWritten(s.Written(), xs, EncString, total);
  }

  method ReadStrings(s: Serializer, n: nat, ghost xs: seq<String>) returns (r: seq<String>)
    requires n == |xs| && (forall x :: x in xs ==> ValidString(x)) && Next(s, EncAll(xs, EncString))
    modifies s`numBytesRead
    ensures s.Valid() && r == xs && s.numBytesRead == old(s.numBytesRead) + |EncAll(xs, EncString)|
  {
    ghost var buf, end := s.Written(), s.numBytesRead + |EncAll(xs, EncString)|;
    NothingRead(buf, s.numBytesRead, xs, EncString);
    r := [];
    var i := 0;
    while i < n
      invariant 0 <= i <= n && s.Valid() && s.Written() == buf
      invariant |r| == i && forall j :: 0 <= j < i ==> r[j] == xs[j]
      invariant Remaining(buf, s.numBytesRead, xs, i, EncString, end)
    {
      OneMoreToRead(buf, s.numBytesRead, xs, i, EncString, end);
      var x := DeserializeString(s, xs[i]);
      r := r + [x];
      i := i + 1;
    }
  }

  /** The keys of a KeyArr, written and read. */
  method WriteKeys(s: Serializer, xs: seq<Key>)
    requires CanWrite(s)
    modifies s`buffer, s`numBytesWritten, s.buffer
    ensures Appended(s, EncAll(xs, EncKey))
  {
    ghost var total := s.Written() + EncAll(xs, EncKey);
    NothingWritten(s.Written(), xs, EncKey);
    var i := 0;
    while i < |xs|
      invariant 0 <= i <= |xs| && CanWrite(s) && s.buffer.Length >= old(s.buffer.Length)
      invariant s.buffer == old(s.buffer) || fresh(s.buffer)
      invariant StillToWrite(s.Written(), xs, i, EncKey, total)
    {
      ghost var written := s.Written();
      SerializeKey(s, xs[i]);
      OneMoreWritten(written, s.Written(), xs, i, EncKey, total);
      i := i + 1;
    }
    AllWritten(s.Written(), xs, EncKey, total);
  }

  method ReadKeys(s: Serializer, n: nat, ghost xs: seq<Key>) returns (r: seq<Key>)
    requires n == |xs| && (forall x :: x in xs ==> ValidKey(x)) && Next(s, EncAll(xs, EncKey))
    modifies s`numBytesRead
    ensures s.Valid() && r == xs && s.numBytesRead == old(s.numBytesRead) + |EncAll(xs, EncKey)|
  {
    ghost var buf, end := s.Written(), s.numBytesRead + |EncAll(xs, EncKey)|;
    NothingRead(buf, s.numBytesRead, xs, EncKey);
    r := [];
    var i := 0;
    while i < n
      invariant 0 <= i <= n && s.Valid() && s.Written() == buf
      invariant |r| == i && forall j :: 0 <= j < i ==> r[j] == xs[j]
      invariant Remaining(buf, s.numBytesRead, xs, i, EncKey, end)
    {
      OneMoreToRead(buf, s.numBytesRead, xs, i, EncKey, end);
      var x := DeserializeKey(s, xs[i]);
      r := r + [x];
      i := i + 1;
    }
  }

  /** The types of a Schema, written and read. */
  method WriteTypes(s: Serializer, xs: seq<DataType>)
    requires CanWrite(s)
    modifies s`buffer, s`numBytesWritten, s.buffer
    ensures Appended(s, EncAll(xs, EncType))
  {
    ghost var total := s.Written() + EncAll(xs, EncType);
    NothingWritten(s.Written(), xs, EncType);
    var i := 0;
    while i < |xs|
      invariant 0 <= i <= |xs| && CanWrite(s) && s.buffer.Length >= old(s.buffer.Length)
      invariant s.buffer == old(s.buffer) || fresh(s.buffer)
      invariant StillToWrite(s.Written(), xs, i, EncType, total)
    {
      ghost var written := s.Written();
      s.Add(EncType(xs[i]));
      OneMoreWritten(written, s.Written(), xs, i, EncType, total);
      i := i + 1;
    }
    AllWritten(s.Written(), xs, EncType, total);
  }

  method ReadTypes(s: Serializer, n: nat, ghost xs: seq<DataType>) returns (r: seq<DataType>)
    requires n == |xs| && Next(s, EncAll(xs, EncType))
    modifies s`numBytesRead
    ensures s.Valid() && r == xs && s.numBytesRead == old(s.numBytesRead) + |EncAll(xs, EncType)|
  {
    ghost var buf, end := s.Written(), s.numBytesRead + |EncAll(xs, EncType)|;
    NothingRead(buf, s.numBytesRead, xs, EncType);
    r := [];
    var i := 0;
    while i < n
      invariant 0 <= i <= n && s.Valid() && s.Written() == buf
      invariant |r| == i && forall j :: 0 <= j < i ==> r[j] == xs[j]
      invariant Remaining(buf, s.numBytesRead, xs, i, EncType, end)
    {
      OneMoreToRead(buf, s.numBytesRead, xs, i, EncType, end);
      var x := DeserializeType(s, xs[i]);
      r := r + [x];
      i := i + 1;
    }
  }

  // ----- blocks, schemas, columns, frames -----

  /** Concatenation is associative. */
  lemma Nested(w: seq<byte>, a: seq<byte>, b: seq<byte>, c: seq<byte>)
    ensures w + a + b + c == w + (a + (b + c))
  {
  }

  lemma Two(w: seq<byte>, a: seq<byte>, b: seq<byte>)
    ensures w + a + b == w + (a + b)
  {
  }

  lemma Joined(w: seq<byte>, a: seq<byte>, b: seq<byte>, c: seq<byte>)
    ensures w + a + b + c == w + (a + b + c)
  {
  }

  method SerializeIntBlock(s: Serializer, b: Block<int>)
    requires CanWrite(s)
    modifies s`buffer, s`numBytesWritten, s.buffer
    ensures Appended(s, EncBlock(b, EncInt))
  {
    s.Add(EncSize(b.capacity));
    s.Add(EncSize(|b.vals|));
    WriteInts(s, b.vals);
    Nested(old(s.Written()), EncSize(b.capacity), EncSize(|b.vals|), EncAll(b.vals, EncInt));
  }

  method DeserializeIntBlock(s: Serializer, ghost b: Block<int>) returns (r: Block<int>)
    requires IsSize(b.capacity) && IsSize(|b.vals|) && (forall x :: x in b.vals ==> IsInt(x))
    requires Next(s, EncBlock(b, EncInt))
    modifies s`numBytesRead
    ensures s.Valid() && r == b && s.numBytesRead == old(s.numBytesRead) + |EncBlock(b, EncInt)|
  {
    NextSplit(s, EncSize(b.capacity), EncList(b.vals, EncInt));
    SizeRoundTrip(s.Written(), s.numBytesRead, b.capacity);
    var capacity := s.ReadSizeT();
    NextSplit(s, EncSize(|b.vals|), EncAll(b.vals, EncInt));
    SizeRoundTrip(s.Written(), s.numBytesRead, |b.vals|);
    var n := s.ReadSizeT();
    var vals := ReadInts(s, n, b.vals);
    r := Block(capacity, vals);
  }

  method SerializeStringBlock(s: Serializer, b: Block<String>)
    requires CanWrite(s)
    modifies s`buffer, s`numBytesWritten, s.buffer
    ensures Appended(s, EncBlock(b, EncString))
  {
    s.Add(EncSize(b.capacity));
    s.Add(EncSize(|b.vals|));
    WriteStrings(s, b.vals);
    Nested(old(s.Written()), EncSize(b.capacity), EncSize(|b.vals|), EncAll(b.vals, EncString));
  }

  method DeserializeStringBlock(s: Serializer, ghost b: Block<String>) returns (r: Block<String>)
    requires IsSize(b.capacity) && IsSize(|b.vals|) && (forall x :: x in b.vals ==> ValidString(x))
    requires Next(s, EncBlock(b, EncString))
    modifies s`numBytesRead
    ensures s.Valid() && r == b && s.numBytesRead == old(s.numBytesRead) + |EncBlock(b, EncString)|
  {
    NextSplit(s, EncSize(b.capacity), EncList(b.vals, EncString));
    SizeRoundTrip(s.Written(), s.numBytesRead, b.capacity);
    var capacity := s.ReadSizeT();
    NextSplit(s, EncSize(|b.vals|), EncAll(b.vals, EncString));
    SizeRoundTrip(s.Written(), s.numBytesRead, |b.vals|);
    var n := s.ReadSizeT();
    var vals := ReadStrings(s, n, b.vals);
    r := Block(capacity, vals);
  }

  method SerializeKeyArr(s: Serializer, keys: seq<Key>)
    requires CanWrite(s)
    modifies s`buffer, s`numBytesWritten, s.buffer
    ensures Appended(s, EncList(keys, EncKey))
  {
    s.Add(EncSize(|keys|));
    WriteKeys(s, keys);
  }

  method DeserializeKeyArr(s: Serializer, ghost keys: seq<Key>) returns (r: seq<Key>)
    requires IsSize(|keys|) && (forall k :: k in keys ==> ValidKey(k)) && Next(s, EncList(keys, EncKey))
    modifies s`numBytesRead
    ensures s.Valid() && r == keys && s.numBytesRead == old(s.numBytesRead) + |EncList(keys, EncKey)|
  {
    NextSplit(s, EncSize(|keys|), EncAll(keys, EncKey));
    SizeRoundTrip(s.Written(), s.numBytesRead, |keys|);
    var n := s.ReadSizeT();
    r := ReadKeys(s, n, keys);
  }

  method SerializeSchema(s: Serializer, schema: Schema)
    requires CanWrite(s)
    modifies s`buffer, s`numBytesWritten, s.buffer
    ensures Appended(s, EncSchema(schema))
  {
    s.Add(EncSize(schema.capCols));
    s.Add(EncSize(|schema.types|));
    s.Add(EncSize(schema.numRows));
    WriteTypes(s, schema.types);
  }

  method DeserializeSchema(s: Serializer, ghost schema: Schema) returns (r: Schema)
    requires ValidSchema(schema) && Next(s, EncSchema(schema))
    modifies s`numBytesRead
    ensures s.Valid() && r == schema && s.numBytesRead == old(s.numBytesRead) + |EncSchema(schema)|
  {
    ghost var a, b, c, d := EncSize(schema.capCols), EncSize(|schema.types|), EncSize(schema.numRows),
        EncAll(schema.types, EncType);
    NextSplit(s, a + b + c, d);
    AtSplit3(s.Written(), s.numBytesRead, a, b, c);
    SizeRoundTrip(s.Written(), s.numBytesRead, schema.capCols);
    SizeRoundTrip(s.Written(), s.numBytesRead + 8, |schema.types|);
    SizeRoundTrip(s.Written(), s.numBytesRead + 16, schema.numRows);
    var capCols := s.ReadSizeT();
    var numCols := s.ReadSizeT();
    var numRows := s.ReadSizeT();
    var types := ReadTypes(s, numCols, schema.types);
    r := Schema(capCols, types, numRows);
  }

  method SerializeColumn(s: Serializer, c: Column)
    requires CanWrite(s)
    modifies s`buffer, s`numBytesWritten, s.buffer
    ensures Appended(s, EncColumn(c))
  {
    var n, t := EncSize(c.size), EncType(c.ty);
    ghost var w, l := s.Written(), EncList(c.blocks, EncKey);
    s.Add(n);
    SerializeKeyArr(s, c.blocks);
    s.Add(t);
    Joined(w, n, l, t);
    assert s.Written() == w + (n + l + t);
    SerializeKey(s, c.baseKey);
    Two(w, n + l + t, EncKey(c.baseKey));
  }

  method DeserializeColumn(s: Serializer, ghost c: Column) returns (r: Column)
    requires ValidColumn(c) && Next(s, EncColumn(c))
    modifies s`numBytesRead
    ensures s.Valid() && r == c && s.numBytesRead == old(s.numBytesRead) + |EncColumn(c)|
  {
    ghost var n, l, t, k := EncSize(c.size), EncList(c.blocks, EncKey), EncType(c.ty), EncKey(c.baseKey);
    NextSplit(s, n + l + t, k);
    AtSplit3(s.Written(), s.numBytesRead, n, l, t);
    SizeRoundTrip(s.Written(), s.numBytesRead, c.size);
    var size := s.ReadSizeT();
    var blocks := DeserializeKeyArr(s, c.blocks);
    var ty := DeserializeType(s, c.ty);
    var base := DeserializeKey(s, c.baseKey);
    r := Column(size, blocks, ty, base);
  }

  /** The columns of a ColumnArray, written and read. */
  method WriteColumns(s: Serializer, xs: seq<Column>)
    requires CanWrite(s)
    modifies s`buffer, s`numBytesWritten, s.buffer
    ensures Appended(s, EncAll(xs, EncColumn))
  {
    ghost var total := s.Written() + EncAll(xs, EncColumn);
    NothingWritten(s.Written(), xs, EncColumn);
    var i := 0;
    while i < |xs|
      invariant 0 <= i <= |xs| && CanWrite(s) && s.buffer.Length >= old(s.buffer.Length)
      invariant s.buffer == old(s.buffer) || fresh(s.buffer)
      invariant StillToWrite(s.Written(), xs, i, EncColumn, total)
    {
      ghost var written := s.Written();
      SerializeColumn(s, xs[i]);
      OneMoreWritten(written, s.Written(), xs, i, EncColumn, total);
      i := i + 1;
    }
    AllWritten(s.Written(), xs, EncColumn, total);
  }

  method ReadNextColumn(s: Serializer, ghost xs: seq<Column>, ghost i: nat, ghost end: nat) returns (x: Column)
    requires s.Valid() && i < |xs| && ValidColumn(xs[i])
    requires Remaining(s.Written(), s.numBytesRead, xs, i, EncColumn, end)
    modifies s`numBytesRead
    ensures s.Valid() && x == xs[i] && Remaining(s.Written(), s.numBytesRead, xs, i + 1, EncColumn, end)
  {
    OneMoreToRead(s.Written(), s.numBytesRead, xs, i, EncColumn, end);
    x := DeserializeColumn(s, xs[i]);
  }

  method ReadColumns(s: Serializer, n: nat, ghost xs: seq<Column>) returns (r: seq<Column>)
    requires n == |xs| && (forall x :: x in xs ==> ValidColumn(x)) && Next(s, EncAll(xs, EncColumn))
    modifies s`numBytesRead
    ensures s.Valid() && r == xs && s.numBytesRead == old(s.numBytesRead) + |EncAll(xs, EncColumn)|
  {
    ghost var buf, end := s.Written(), s.numBytesRead + |EncAll(xs, EncColumn)|;
    NothingRead(buf, s.numBytesRead, xs, EncColumn);
    r := [];
    var i := 0;
    while i < n
      invariant 0 <= i <= n && s.Valid() && s.Written() == buf
      invariant r == xs[..i]
      invariant Remaining(buf, s.numBytesRead, xs, i, EncColumn, end)
    {
      assert xs[i] in xs && xs[..i + 1] == xs[..i] + [xs[i]];
      var x := ReadNextColumn(s, xs, i, end);
      r := r + [x];
      i := i + 1;
    }
  }

  method SerializeColumnList(s: Serializer, columns: seq<Column>)
    requires CanWrite(s)
    modifies s`buffer, s`numBytesWritten, s.buffer
    ensures Appended(s, EncList(columns, EncColumn))
  {
    s.Add(EncSize(|columns|));
    WriteColumns(s, columns);
  }

  method SerializeColumnArray(s: Serializer, columns: seq<Column>, key: Key)
    requires CanWrite(s)
    modifies s`buffer, s`numBytesWritten, s.buffer
    ensures Appended(s, EncColumnArray(columns, key))
  {
    SerializeColumnList(s, columns);
    SerializeKey(s, key);
  }

  method DeserializeColumnArray(s: Serializer, ghost columns: seq<Column>, ghost key: Key)
    returns (r: seq<Column>, k: Key)
    requires IsSize(|columns|) && (forall c :: c in columns ==> ValidColumn(c)) && ValidKey(key)
    requires Next(s, EncColumnArray(columns, key))
    modifies s`numBytesRead
    ensures s.Valid() && r == columns && k == key
    ensures s.numBytesRead == old(s.numBytesRead) + |EncColumnArray(columns, key)|
  {
    NextSplit(s, EncList(columns, EncColumn), EncKey(key));
    NextSplit(s, EncSize(|columns|), EncAll(columns, EncColumn));
    SizeRoundTrip(s.Written(), s.numBytesRead, |columns|);
    var n := s.ReadSizeT();
    r := ReadColumns(s, n, columns);
    k := DeserializeKey(s, key);
  }

  /** DataFrame.serialize. */
  method SerializeFrame(s: Serializer, f: Frame)
    requires CanWrite(s)
    modifies s`buffer, s`numBytesWritten, s.buffer
    ensures Appended(s, EncFrame(f))
  {
    ghost var w, a, b, c := s.Written(), EncColumnArray(f.columns, f.key), EncSchema(f.schema), EncKey(f.key);
    SerializeColumnArray(s, f.columns, f.key);
    SerializeSchema(s, f.schema);
    SerializeKey(s, f.key);
    Joined(w, a, b, c);
  }

  /** DataFrame.deserialize: from a buffer holding a serialized frame at the cursor and
      anything behind it, that frame; the cursor ends exactly behind it. */
  method DeserializeFrame(s: Serializer, ghost f: Frame) returns (r: Frame)
    requires ValidFrame(f) && Next(s, EncFrame(f))
    modifies s`numBytesRead
    ensures s.Valid() && r == f && s.numBytesRead == old(s.numBytesRead) + |EncFrame(f)|
  {
    ghost var a, b, c := EncColumnArray(f.columns, f.key), EncSchema(f.schema), EncKey(f.key);
    AtSplit3(s.Written(), s.numBytesRead, a, b, c);
    var columns, dfKey := DeserializeColumnArray(s, f.columns, f.key);
    var schema := DeserializeSchema(s, f.schema);
    var key := DeserializeKey(s, f.key);
    r := Frame(columns, schema, key);
  }
}
