/**
 The byte formats: what serialize writes for each kind of object, and what
 deserialize reads back from a position in a buffer.
 */
module Codec {
  import opened Messages
  import RowBlocks

  /** What a read returns: the value and the cursor after it, or nothing when the
      buffer is too short or malformed (where the C++ code would run off the end). */
  datatype Read<+T> = Got(value: T, pos: nat) | Bad

  /** buf holds exactly enc at pos; anything may follow. */
  ghost predicate At(buf: seq<byte>, pos: nat, enc: seq<byte>)
    decreases |enc|
  {
    if enc == [] then pos <= |buf|
    else pos < |buf| && buf[pos] == enc[0] && At(buf, pos + 1, enc[1..])
  }

  lemma {:induction false} AtSlice(buf: seq<byte>, pos: nat, enc: seq<byte>)
    ensures At(buf, pos, enc) <==> pos + |enc| <= |buf| && buf[pos..pos + |enc|] == enc
    decreases |enc|
  {
    if enc != [] {
      AtSlice(buf, pos + 1, enc[1..]);
      if pos + |enc| <= |buf| {
        assert buf[pos..pos + |enc|] == [buf[pos]] + buf[pos + 1..pos + 1 + |enc[1..]|];
      }
    }
  }

  lemma {:induction false} AtSplit(buf: seq<byte>, pos: nat, a: seq<byte>, b: seq<byte>)
    requires At(buf, pos, a + b)
    ensures At(buf, pos, a) && At(buf, pos + |a|, b)
    decreases |a|
  {
    if a == [] {
      assert a + b == b;
      AtSlice(buf, pos, b);
    } else {
      assert (a + b)[1..] == a[1..] + b;
      AtSplit(buf, pos + 1, a[1..], b);
    }
  }

  lemma AtSplit3(buf: seq<byte>, pos: nat, a: seq<byte>, b: seq<byte>, c: seq<byte>)
    requires At(buf, pos, a + b + c)
    ensures At(buf, pos, a) && At(buf, pos + |a|, b) && At(buf, pos + |a| + |b|, c)
  {
    AtSplit(buf, pos, a + b, c);
    AtSplit(buf, pos, a, b);
  }

  // ----- machine words -----

  function Pow256(k: nat): nat {
    if k == 0 then 1 else 256 * Pow256(k - 1)
  }

  /** The k low bytes of n, least significant first, as memcpy copies a word on x86. */
  function LittleEndian(n: nat, k: nat): (r: seq<byte>)
    ensures |r| == k
  {
    if k == 0 then [] else [n % 256] + LittleEndian(n / 256, k - 1)
  }

  function FromLittleEndian(bs: seq<byte>): nat {
    if bs == [] then 0 else bs[0] + 256 * FromLittleEndian(bs[1..])
  }

  lemma {:induction false} LittleEndianRoundTrip(n: nat, k: nat)
    requires n < Pow256(k)
    ensures FromLittleEndian(LittleEndian(n, k)) == n
  {
    if k > 0 {
      LittleEndianRoundTrip(n / 256, k - 1);
      assert LittleEndian(n, k)[1..] == LittleEndian(n / 256, k - 1);
    }
  }

  lemma DivideTwice(n: nat, d: nat)
    requires d > 0
    ensures n / 256 / d == n / (256 * d)
  {
    var q, r := n / 256 / d, n / 256 % d;
    assert n / 256 == q * d + r;
    assert n == q * (256 * d) + (256 * r + n % 256);
    RowBlocks.BlockAndOffset(q, 256 * r + n % 256, 256 * d);
  }

  /** Byte i of a word is its digit for 256 to the power of i. */
  lemma {:induction false} LittleEndianByte(n: nat, k: nat, i: nat)
    requires i < k
    ensures Pow256(i) > 0 && LittleEndian(n, k)[i] == n / Pow256(i) % 256
  {
    if i > 0 {
      LittleEndianByte(n / 256, k - 1, i - 1);
      DivideTwice(n, Pow256(i - 1));
    }
  }

  lemma WordSizes()
    ensures Pow256(8) == 0x1_0000_0000_0000_0000
    ensures Pow256(4) == 0x1_0000_0000
  {
    assert Pow256(4) == 256 * (256 * (256 * (256 * Pow256(0))));
    assert Pow256(8) == 256 * (256 * (256 * (256 * Pow256(4))));
  }

  /** n fits a 64-bit size_t. */
  predicate IsSize(n: nat) { n < 0x1_0000_0000_0000_0000 }

  /** i fits a 32-bit int. */
  predicate IsInt(i: int) { -0x8000_0000 <= i < 0x8000_0000 }

  function EncSize(n: nat): (r: seq<byte>)
    ensures |r| == 8
  {
    LittleEndian(n, 8)
  }

  function DecSize(buf: seq<byte>, pos: nat): Read<nat> {
    if pos + 8 <= |buf| then Got(FromLittleEndian(buf[pos..pos + 8]), pos + 8) else Bad
  }

  lemma SizeRoundTrip(buf: seq<byte>, pos: nat, n: nat)
    requires IsSize(n) && At(buf, pos, EncSize(n))
    ensures DecSize(buf, pos) == Got(n, pos + 8)
  {
    WordSizes();
    AtSlice(buf, pos, EncSize(n));
    LittleEndianRoundTrip(n, 8);
  }

  /** Two's complement. */
  function EncInt(i: int): (r: seq<byte>)
    ensures |r| == 4
  {
    LittleEndian(i % 0x1_0000_0000, 4)
  }

  function DecInt(buf: seq<byte>, pos: nat): Read<int> {
    if pos + 4 <= |buf| then
      var u := FromLittleEndian(buf[pos..pos + 4]);
      Got(if u < 0x8000_0000 then u else u - 0x1_0000_0000, pos + 4)
    else Bad
  }

  lemma IntRoundTrip(buf: seq<byte>, pos: nat, i: int)
    requires IsInt(i) && At(buf, pos, EncInt(i))
    ensures DecInt(buf, pos) == Got(i, pos + 4)
  {
    WordSizes();
    AtSlice(buf, pos, EncInt(i));
    LittleEndianRoundTrip(i % 0x1_0000_0000, 4);
  }

  // ----- repeated elements -----

  function EncAll<T>(xs: seq<T>, enc: T -> seq<byte>): seq<byte> {
    if xs == [] then [] else enc(xs[0]) + EncAll(xs[1..], enc)
  }

  function DecAll<T>(buf: seq<byte>, pos: nat, n: nat, dec: (seq<byte>, nat) -> Read<T>): Read<seq<T>>
    decreases n
  {
    if n == 0 then Got([], pos)
    else
      match dec(buf, pos)
      case Bad => Bad
      case Got(x, p) =>
        match DecAll(buf, p, n - 1, dec)
        case Bad => Bad
        case Got(xs, q) => Got([x] + xs, q)
  }

  /** Wherever buf holds the bytes of x, x reads back. */
  ghost predicate ReadsBack<T>(buf: seq<byte>, x: T, enc: T -> seq<byte>, dec: (seq<byte>, nat) -> Read<T>) {
    forall p: nat :: At(buf, p, enc(x)) ==> dec(buf, p) == Got(x, p + |enc(x)|)
  }

  /** If each element reads back, the whole list does. */
  lemma {:induction false} AllRoundTrip<T>(buf: seq<byte>, pos: nat, xs: seq<T>, enc: T -> seq<byte>,
                                           dec: (seq<byte>, nat) -> Read<T>)
    requires At(buf, pos, EncAll(xs, enc))
    requires forall x :: x in xs ==> ReadsBack(buf, x, enc, dec)
    ensures DecAll(buf, pos, |xs|, dec) == Got(xs, pos + |EncAll(xs, enc)|)
    decreases |xs|
  {
    if xs != [] {
      AtSplit(buf, pos, enc(xs[0]), EncAll(xs[1..], enc));
      assert ReadsBack(buf, xs[0], enc, dec);
      AllRoundTrip(buf, pos + |enc(xs[0])|, xs[1..], enc, dec);
      assert [xs[0]] + xs[1..] == xs;
    }
  }

  /** A counted list: its length, then its elements. */
  function EncList<T>(xs: seq<T>, enc: T -> seq<byte>): seq<byte> {
    EncSize(|xs|) + EncAll(xs, enc)
  }

  function DecList<T>(buf: seq<byte>, pos: nat, dec: (seq<byte>, nat) -> Read<T>): Read<seq<T>> {
    match DecSize(buf, pos)
    case Bad => Bad
    case Got(n, p) => DecAll(buf, p, n, dec)
  }

  lemma ListRoundTrip<T>(buf: seq<byte>, pos: nat, xs: seq<T>, enc: T -> seq<byte>, dec: (seq<byte>, nat) -> Read<T>)
    requires IsSize(|xs|) && At(buf, pos, EncList(xs, enc))
    requires forall x :: x in xs ==> ReadsBack(buf, x, enc, dec)
    ensures DecList(buf, pos, dec) == Got(xs, pos + |EncList(xs, enc)|)
  {
    AtSplit(buf, pos, EncSize(|xs|), EncAll(xs, enc));
    SizeRoundTrip(buf, pos, |xs|);
    AllRoundTrip(buf, pos + 8, xs, enc, dec);
  }

  // ----- strings, keys, values -----

  /** strlen: the distance to the first NUL at or after pos. */
  function StrLen(buf: seq<byte>, pos: nat): (r: Option<nat>)
    ensures r.Some? ==> pos + r.value < |buf| && buf[pos + r.value] == 0
    decreases |buf| - pos
  {
    if pos >= |buf| then None
    else if buf[pos] == 0 then Some(0)
    else
      match StrLen(buf, pos + 1)
      case None => None
      case Some(n) => Some(n + 1)
  }

  function EncCString(s: String): seq<byte> { s + [0] }

  function DecCString(buf: seq<byte>, pos: nat): Read<String> {
    match StrLen(buf, pos)
    case None => Bad
    case Some(n) => Got(buf[pos..pos + n], pos + n + 1)
  }

  lemma {:induction false} StrLenOf(buf: seq<byte>, pos: nat, s: String)
    requires 0 !in s && At(buf, pos, EncCString(s))
    ensures StrLen(buf, pos) == Some(|s|)
    decreases |s|
  {
    assert buf[pos] == EncCString(s)[0];
    if s != [] {
      assert EncCString(s) == [s[0]] + EncCString(s[1..]);
      AtSplit(buf, pos, [s[0]], EncCString(s[1..]));
      StrLenOf(buf, pos + 1, s[1..]);
    }
  }

  lemma CStringRoundTrip(buf: seq<byte>, pos: nat, s: String)
    requires 0 !in s && At(buf, pos, EncCString(s))
    ensures DecCString(buf, pos) == Got(s, pos + |EncCString(s)|)
  {
    StrLenOf(buf, pos, s);
    AtSplit(buf, pos, s, [0]);
    AtSlice(buf, pos, s);
  }

  predicate ValidString(s: String) { 0 !in s && IsSize(|s|) }

  function EncString(s: String): seq<byte> { EncSize(|s|) + EncCString(s) }

  function DecString(buf: seq<byte>, pos: nat): Read<String> {
    match DecSize(buf, pos)
    case Bad => Bad
    case Got(n, p) =>
      match DecCString(buf, p)
      case Bad => Bad
      case Got(s, q) => if |s| == n then Got(s, q) else Bad
  }

  lemma StringRoundTrip(buf: seq<byte>, pos: nat, s: String)
    requires ValidString(s) && At(buf, pos, EncString(s))
    ensures DecString(buf, pos) == Got(s, pos + |EncString(s)|)
  {
    AtSplit(buf, pos, EncSize(|s|), EncCString(s));
    SizeRoundTrip(buf, pos, |s|);
    CStringRoundTrip(buf, pos + 8, s);
  }

  predicate ValidKey(k: Key) { ValidString(k.str) && IsSize(k.home) }

  function EncKey(k: Key): seq<byte> { EncString(k.str) + EncSize(k.home) }

  function DecKey(buf: seq<byte>, pos: nat): Read<Key> {
    match DecString(buf, pos)
    case Bad => Bad
    case Got(s, p) =>
      match DecSize(buf, p)
      case Bad => Bad
      case Got(n, q) => Got(Key(s, n), q)
  }

  lemma KeyRoundTrip(buf: seq<byte>, pos: nat, k: Key)
    requires ValidKey(k) && At(buf, pos, EncKey(k))
    ensures DecKey(buf, pos) == Got(k, pos + |EncKey(k)|)
  {
    AtSplit(buf, pos, EncString(k.str), EncSize(k.home));
    StringRoundTrip(buf, pos, k.str);
    SizeRoundTrip(buf, pos + |EncString(k.str)|, k.home);
  }

  /** Any bytes, zeros included. */
  function EncValue(v: Value): seq<byte> { EncSize(|v|) + v }

  function DecValue(buf: seq<byte>, pos: nat): Read<Value> {
    match DecSize(buf, pos)
    case Bad => Bad
    case Got(n, p) => if p + n <= |buf| then Got(buf[p..p + n], p + n) else Bad
  }

  lemma ValueRoundTrip(buf: seq<byte>, pos: nat, v: Value)
    requires IsSize(|v|) && At(buf, pos, EncValue(v))
    ensures DecValue(buf, pos) == Got(v, pos + |EncValue(v)|)
  {
    AtSplit(buf, pos, EncSize(|v|), v);
    SizeRoundTrip(buf, pos, |v|);
    AtSlice(buf, pos + 8, v);
  }

  // ----- blocks -----

  datatype Block<T> = Block(capacity: nat, vals: seq<T>)

  function EncBlock<T>(b: Block<T>, enc: T -> seq<byte>): seq<byte> {
    EncSize(b.capacity) + EncList(b.vals, enc)
  }

  function DecBlock<T>(buf: seq<byte>, pos: nat, dec: (seq<byte>, nat) -> Read<T>): Read<Block<T>> {
    match DecSize(buf, pos)
    case Bad => Bad
    case Got(cap, p) =>
      match DecList(buf, p, dec)
      case Bad => Bad
      case Got(vals, q) => Got(Block(cap, vals), q)
  }

  lemma BlockRoundTrip<T>(buf: seq<byte>, pos: nat, b: Block<T>, enc: T -> seq<byte>, dec: (seq<byte>, nat) -> Read<T>)
    requires IsSize(b.capacity) && IsSize(|b.vals|) && At(buf, pos, EncBlock(b, enc))
    requires forall x :: x in b.vals ==> ReadsBack(buf, x, enc, dec)
    ensures DecBlock(buf, pos, dec) == Got(b, pos + |EncBlock(b, enc)|)
  {
    AtSplit(buf, pos, EncSize(b.capacity), EncList(b.vals, enc));
    SizeRoundTrip(buf, pos, b.capacity);
    ListRoundTrip(buf, pos + 8, b.vals, enc, dec);
  }

  lemma IntBlockRoundTrip(buf: seq<byte>, pos: nat, b: Block<int>)
    requires IsSize(b.capacity) && IsSize(|b.vals|) && forall i :: i in b.vals ==> IsInt(i)
    requires At(buf, pos, EncBlock(b, EncInt))
    ensures DecBlock(buf, pos, DecInt) == Got(b, pos + |EncBlock(b, EncInt)|)
  {
    forall x | x in b.vals
      ensures ReadsBack(buf, x, EncInt, DecInt)
    {
      forall p: nat | At(buf, p, EncInt(x)) { IntRoundTrip(buf, p, x); }
    }
    BlockRoundTrip(buf, pos, b, EncInt, DecInt);
  }

  lemma StringBlockRoundTrip(buf: seq<byte>, pos: nat, b: Block<String>)
    requires IsSize(b.capacity) && IsSize(|b.vals|) && forall s :: s in b.vals ==> ValidString(s)
    requires At(buf, pos, EncBlock(b, EncString))
    ensures DecBlock(buf, pos, DecString) == Got(b, pos + |EncBlock(b, EncString)|)
  {
    forall x | x in b.vals
      ensures ReadsBack(buf, x, EncString, DecString)
    {
      forall p: nat | At(buf, p, EncString(x)) { StringRoundTrip(buf, p, x); }
    }
    BlockRoundTrip(buf, pos, b, EncString, DecString);
  }

  // ----- schemas, columns, frames -----

  datatype DataType = Boolean | Integer | Double | Str

  /** typeToChar and charToType, which also accepts lower-case letters. */
  function TypeToChar(t: DataType): byte {
    match t
    case Boolean => 66
    case Integer => 73
    case Double => 68
    case Str => 83
  }

  function CharToType(c: byte): Option<DataType> {
    if c == 73 || c == 105 then Some(Integer)
    else if c == 83 || c == 115 then Some(Str)
    else if c == 66 || c == 98 then Some(Boolean)
    else if c == 68 || c == 100 then Some(Double)
    else None
  }

  function EncType(t: DataType): seq<byte> { [TypeToChar(t)] }

  function DecType(buf: seq<byte>, pos: nat): Read<DataType> {
    if pos < |buf| && CharToType(buf[pos]).Some? then Got(CharToType(buf[pos]).value, pos + 1) else Bad
  }

  lemma TypeRoundTrip(buf: seq<byte>, pos: nat, t: DataType)
    requires At(buf, pos, EncType(t))
    ensures DecType(buf, pos) == Got(t, pos + 1)
  {
    assert buf[pos + 0] == EncType(t)[0];
  }

  datatype Schema = Schema(capCols: nat, types: seq<DataType>, numRows: nat)

  predicate ValidSchema(s: Schema) { IsSize(s.capCols) && IsSize(|s.types|) && IsSize(s.numRows) }

  function EncSchema(s: Schema): seq<byte> {
    EncSize(s.capCols) + EncSize(|s.types|) + EncSize(s.numRows) + EncAll(s.types, EncType)
  }

  /** A column without its store: its length, the keys of its blocks, its type and base key. */
  datatype Column = Column(size: nat, blocks: seq<Key>, ty: DataType, baseKey: Key)

  predicate ValidColumn(c: Column) {
    IsSize(c.size) && IsSize(|c.blocks|) && ValidKey(c.baseKey) && forall k :: k in c.blocks ==> ValidKey(k)
  }

  function EncColumn(c: Column): seq<byte> {
    EncSize(c.size) + EncList(c.blocks, EncKey) + EncType(c.ty) + EncKey(c.baseKey)
  }

  /** ColumnArray.serialize: the columns, then the key of the frame they belong to. */
  function EncColumnArray(columns: seq<Column>, key: Key): seq<byte> {
    EncList(columns, EncColumn) + EncKey(key)
  }

  /** A frame without its store. */
  datatype Frame = Frame(columns: seq<Column>, schema: Schema, key: Key)

  predicate ValidFrame(f: Frame) {
    IsSize(|f.columns|) && ValidSchema(f.schema) && ValidKey(f.key) && forall c :: c in f.columns ==> ValidColumn(c)
  }

  /** The column array and the frame hold one key between them: it is written twice. */
  function EncFrame(f: Frame): seq<byte> {
    EncColumnArray(f.columns, f.key) + EncSchema(f.schema) + EncKey(f.key)
  }

  // ----- messages -----

  predicate ValidMessage(m: Message) {
    && IsSize(m.sender) && IsSize(m.target)
    && match m
       case Put(_, _, k, v) => ValidKey(k) && IsSize(|v|)
       case ReplyData(_, _, k, v) => ValidKey(k) && IsSize(|v|)
       case WaitAndGet(_, _, k) => ValidKey(k)
       case Done(_, _) => true
       case Teardown(_, _) => true
  }

  datatype MsgKind =
    | GetDataKind | PutKind | ReplyDataKind | WaitAndGetKind
    | RegisterKind | DirKind | DoneKind | TeardownKind

  function KindOf(m: Message): MsgKind {
    match m
    case Put(_, _, _, _) => PutKind
    case ReplyData(_, _, _, _) => ReplyDataKind
    case WaitAndGet(_, _, _) => WaitAndGetKind
    case Done(_, _) => DoneKind
    case Teardown(_, _) => TeardownKind
  }

  /** A kind is written as its digit and a NUL. */
  function Digit(k: MsgKind): byte {
    match k
    case GetDataKind => 48
    case PutKind => 49
    case ReplyDataKind => 50
    case WaitAndGetKind => 51
    case RegisterKind => 52
    case DirKind => 53
    case DoneKind => 54
    case TeardownKind => 55
  }

  function EncKind(k: MsgKind): (r: seq<byte>)
    ensures |r| == 2
  {
    [Digit(k), 0]
  }

  /** readMsgKind: whatever is not one of the eight strings reads as GetData. */
  function DecKind(buf: seq<byte>, pos: nat): Read<MsgKind> {
    if pos + 2 > |buf| then Bad
    else
      var d := buf[pos];
      var kind :=
        if buf[pos + 1] != 0 then GetDataKind
        else if d == 49 then PutKind
        else if d == 50 then ReplyDataKind
        else if d == 51 then WaitAndGetKind
        else if d == 52 then RegisterKind
        else if d == 53 then DirKind
        else if d == 54 then DoneKind
        else if d == 55 then TeardownKind
        else GetDataKind;
      Got(kind, pos + 2)
  }

  lemma KindRoundTrip(buf: seq<byte>, pos: nat, k: MsgKind)
    requires At(buf, pos, EncKind(k))
    ensures DecKind(buf, pos) == Got(k, pos + 2)
  {
    assert buf[pos + 0] == EncKind(k)[0] && buf[pos + 1] == EncKind(k)[1];
  }

  /** Two bytes that no kind is written as read as GetData. */
  lemma UnknownKind(buf: seq<byte>, pos: nat)
    requires pos + 2 <= |buf| && forall k: MsgKind :: EncKind(k) != [buf[pos], buf[pos + 1]]
    ensures DecKind(buf, pos) == Got(GetDataKind, pos + 2)
  {
    assert EncKind(PutKind) == [49, 0] && EncKind(ReplyDataKind) == [50, 0] && EncKind(WaitAndGetKind) == [51, 0];
    assert EncKind(RegisterKind) == [52, 0] && EncKind(DirKind) == [53, 0] && EncKind(DoneKind) == [54, 0];
    assert EncKind(TeardownKind) == [55, 0];
  }

  /** Message::serialize, common to all messages. */
  function EncHeader(m: Message): seq<byte> {
    EncKind(KindOf(m)) + EncSize(m.sender) + EncSize(m.target)
  }

  function DecHeader(buf: seq<byte>, pos: nat): Read<(MsgKind, nat, nat)> {
    match DecKind(buf, pos)
    case Bad => Bad
    case Got(k, p) =>
      match DecSize(buf, p)
      case Bad => Bad
      case Got(s, q) =>
        match DecSize(buf, q)
        case Bad => Bad
        case Got(t, e) => Got((k, s, t), e)
  }

  /** What follows the header. */
  function EncPayload(m: Message): seq<byte> {
    match m
    case Put(_, _, k, v) => EncKey(k) + EncValue(v)
    case ReplyData(_, _, k, v) => EncKey(k) + EncValue(v)
    case WaitAndGet(_, _, k) => EncKey(k)
    case Done(_, _) => []
    case Teardown(_, _) => []
  }

  function DecKeyValue(buf: seq<byte>, pos: nat): Read<(Key, Value)> {
    match DecKey(buf, pos)
    case Bad => Bad
    case Got(key, p) =>
      match DecValue(buf, p)
      case Bad => Bad
      case Got(value, q) => Got((key, value), q)
  }

  function DecPayload(buf: seq<byte>, pos: nat, kind: MsgKind, sender: nat, target: nat): Read<Message> {
    match kind
    case PutKind =>
      (match DecKeyValue(buf, pos)
       case Bad => Bad
       case Got(kv, q) => Got(Put(sender, target, kv.0, kv.1), q))
    case ReplyDataKind =>
      (match DecKeyValue(buf, pos)
       case Bad => Bad
       case Got(kv, q) => Got(ReplyData(sender, target, kv.0, kv.1), q))
    case WaitAndGetKind =>
      (match DecKey(buf, pos)
       case Bad => Bad
       case Got(key, q) => Got(WaitAndGet(sender, target, key), q))
    case DoneKind => Got(Done(sender, target), pos)
    case TeardownKind => Got(Teardown(sender, target), pos)
    case _ => Bad
  }

  function EncMessage(m: Message): seq<byte> { EncHeader(m) + EncPayload(m) }

  /** deserialize of the class that the frame's kind selected.  (The kind read from the
      header ends up in kind_, so the message is of that kind if the two agree.) */
  function DecMessage(buf: seq<byte>, pos: nat, kind: MsgKind): Read<Message> {
    match DecHeader(buf, pos)
    case Bad => Bad
    case Got(h, p) => if h.0 != kind then Bad else DecPayload(buf, p, kind, h.1, h.2)
  }

  /** What Network.sendMsg puts on the wire: the kind, then the whole message. */
  function EncWire(m: Message): seq<byte> { EncKind(KindOf(m)) + EncMessage(m) }

  function DecWire(buf: seq<byte>, pos: nat): Read<Message> {
    match DecKind(buf, pos)
    case Bad => Bad
    case Got(kind, p) => DecMessage(buf, p, kind)
  }

  /** The bytes of a message on the wire, from the first on: '1' for Put, '2' for ReplyData,
      '3' for WaitAndGet, '6' for Done and '7' for Teardown, with a NUL, twice; then the two
      nodes, eight bytes each. */
  lemma WireLayout(m: Message)
    ensures var d: byte := if m.Put? then 49 else if m.ReplyData? then 50 else if m.WaitAndGet? then 51
                           else if m.Done? then 54 else 55;
      EncWire(m) == [d, 0, d, 0] + LittleEndian(m.sender, 8) + LittleEndian(m.target, 8) + EncPayload(m)
  {
    var kind, s, t := EncKind(KindOf(m)), EncSize(m.sender), EncSize(m.target);
    Regroup(kind, s, t, EncPayload(m));
    assert kind + kind == [kind[0], 0, kind[0], 0];
  }

  lemma Regroup(kind: seq<byte>, s: seq<byte>, t: seq<byte>, rest: seq<byte>)
    ensures kind + (((kind + s) + t) + rest) == (((kind + kind) + s) + t) + rest
  {
  }

  /** What follows: the key's string, with its length in front and a NUL behind, and the
      key's home; and for a message with a value its length and its bytes. */
  lemma PayloadLayout(m: Message)
    requires !m.Done? && !m.Teardown?
    ensures EncPayload(m) == LittleEndian(|m.key.str|, 8) + m.key.str + [0] + LittleEndian(m.key.home, 8)
                             + if m.WaitAndGet? then [] else LittleEndian(|m.value|, 8) + m.value
  {
    var size, home := LittleEndian(|m.key.str|, 8), LittleEndian(m.key.home, 8);
    assert (size + (m.key.str + [0])) + home == size + m.key.str + [0] + home;
  }

  lemma HeaderRoundTrip(buf: seq<byte>, pos: nat, m: Message)
    requires ValidMessage(m) && At(buf, pos, EncHeader(m))
    ensures DecHeader(buf, pos) == Got((KindOf(m), m.sender, m.target), pos + |EncHeader(m)|)
  {
    var k, s, t := EncKind(KindOf(m)), EncSize(m.sender), EncSize(m.target);
    AtSplit3(buf, pos, k, s, t);
    KindRoundTrip(buf, pos, KindOf(m));
    SizeRoundTrip(buf, pos + 2, m.sender);
    SizeRoundTrip(buf, pos + 10, m.target);
  }

  lemma KeyValueRoundTrip(buf: seq<byte>, pos: nat, k: Key, v: Value)
    requires ValidKey(k) && IsSize(|v|) && At(buf, pos, EncKey(k) + EncValue(v))
    ensures DecKeyValue(buf, pos) == Got((k, v), pos + |EncKey(k) + EncValue(v)|)
  {
    AtSplit(buf, pos, EncKey(k), EncValue(v));
    KeyRoundTrip(buf, pos, k);
    ValueRoundTrip(buf, pos + |EncKey(k)|, v);
  }

  lemma PayloadRoundTrip(buf: seq<byte>, pos: nat, m: Message)
    requires ValidMessage(m) && At(buf, pos, EncPayload(m))
    ensures DecPayload(buf, pos, KindOf(m), m.sender, m.target) == Got(m, pos + |EncPayload(m)|)
  {
    if m.Put? || m.ReplyData? {
      KeyValueRoundTrip(buf, pos, m.key, m.value);
    } else if m.WaitAndGet? {
      KeyRoundTrip(buf, pos, m.key);
    }
  }

  lemma MessageRoundTrip(buf: seq<byte>, pos: nat, m: Message)
    requires ValidMessage(m) && At(buf, pos, EncMessage(m))
    ensures DecMessage(buf, pos, KindOf(m)) == Got(m, pos + |EncMessage(m)|)
  {
    AtSplit(buf, pos, EncHeader(m), EncPayload(m));
    HeaderRoundTrip(buf, pos, m);
    PayloadRoundTrip(buf, pos + |EncHeader(m)|, m);
  }

  /** The kind prefix selects the right class, and everything in the message comes back. */
  lemma WireRoundTrip(buf: seq<byte>, pos: nat, m: Message)
    requires ValidMessage(m) && At(buf, pos, EncWire(m))
    ensures DecWire(buf, pos) == Got(m, pos + |EncWire(m)|)
  {
    AtSplit(buf, pos, EncKind(KindOf(m)), EncMessage(m));
    KindRoundTrip(buf, pos, KindOf(m));
    MessageRoundTrip(buf, pos + 2, m);
  }

  /** Messages written back to back decode to the same list. */
  lemma WireListRoundTrip(buf: seq<byte>, pos: nat, ms: seq<Message>)
    requires (forall m :: m in ms ==> ValidMessage(m)) && At(buf, pos, EncAll(ms, EncWire))
    ensures DecAll(buf, pos, |ms|, DecWire) == Got(ms, pos + |EncAll(ms, EncWire)|)
  {
    forall m | m in ms
      ensures ReadsBack(buf, m, EncWire, DecWire)
    {
      forall p: nat | At(buf, p, EncWire(m)) { WireRoundTrip(buf, p, m); }
    }
    AllRoundTrip(buf, pos, ms, EncWire, DecWire);
  }
}
