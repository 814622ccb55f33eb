/**
 The byte side of Network: every message goes out as its kind followed by the whole
 message, through one serializer that sends and receives share.
 */
module Network {
  import opened Messages
  import opened Codec
  import opened Serializer

  /** Message.serialize: the fields all messages have. */
  method SerializeHeader(s: Serializer, m: Message)
    requires CanWrite(s)
    modifies s`buffer, s`numBytesWritten, s.buffer
    ensures Appended(s, EncHeader(m))
  {
    s.Add(EncKind(KindOf(m)));
    s.Add(EncSize(m.sender));
    s.Add(EncSize(m.target));
    Joined(old(s.Written()), EncKind(KindOf(m)), EncSize(m.sender), EncSize(m.target));
  }

  method SerializeKeyValue(s: Serializer, k: Key, v: Value)
    requires CanWrite(s)
    modifies s`buffer, s`numBytesWritten, s.buffer
    ensures Appended(s, EncKey(k) + EncValue(v))
  {
    SerializeKey(s, k);
    SerializeValue(s, v);
    Two(old(s.Written()), EncKey(k), EncValue(v));
  }

  /** serialize of the subclass. */
  method SerializeMessage(s: Serializer, m: Message)
    requires CanWrite(s)
    modifies s`buffer, s`numBytesWritten, s.buffer
    ensures Appended(s, EncMessage(m))
  {
    ghost var w := s.Written();
    SerializeHeader(s, m);
    match m {
      case Put(_, _, k, v) => SerializeKeyValue(s, k, v);
      case ReplyData(_, _, k, v) => SerializeKeyValue(s, k, v);
      case WaitAndGet(_, _, k) => SerializeKey(s, k);
      case Done(_, _) =>
      case Teardown(_, _) =>
    }
    Two(w, EncHeader(m), EncPayload(m));
  }

  method DeserializeHeader(s: Serializer, ghost m: Message) returns (kind: MsgKind, sender: nat, target: nat)
    requires ValidMessage(m) && Next(s, EncHeader(m))
    modifies s`numBytesRead
    ensures s.Valid() && kind == KindOf(m) && sender == m.sender && target == m.target
    ensures s.numBytesRead == old(s.numBytesRead) + |EncHeader(m)|
  {
    AtSplit3(s.Written(), s.numBytesRead, EncKind(KindOf(m)), EncSize(m.sender), EncSize(m.target));
    KindRoundTrip(s.Written(), s.numBytesRead, KindOf(m));
    SizeRoundTrip(s.Written(), s.numBytesRead + 2, m.sender);
    SizeRoundTrip(s.Written(), s.numBytesRead + 10, m.target);
    kind := s.ReadMsgKind();
    sender := s.ReadSizeT();
    target := s.ReadSizeT();
  }

  method DeserializeKeyValue(s: Serializer, ghost k: Key, ghost v: Value) returns (key: Key, value: Value)
    requires ValidKey(k) && IsSize(|v|) && Next(s, EncKey(k) + EncValue(v))
    modifies s`numBytesRead
    ensures s.Valid() && key == k && value == v
    ensures s.numBytesRead == old(s.numBytesRead) + |EncKey(k) + EncValue(v)|
  {
    NextSplit(s, EncKey(k), EncValue(v));
    key := DeserializeKey(s, k);
    value := DeserializeValue(s, v);
  }

  /** deserialize of the class chosen by the kind in front of the message.  The header
      repeats the kind. */
  method DeserializeMessage(s: Serializer, kind: MsgKind, ghost m: Message) returns (r: Message)
    requires ValidMessage(m) && kind == KindOf(m) && Next(s, EncMessage(m))
    modifies s`numBytesRead
    ensures s.Valid() && r == m && s.numBytesRead == old(s.numBytesRead) + |EncMessage(m)|
  {
    NextSplit(s, EncHeader(m), EncPayload(m));
    var again, sender, target := DeserializeHeader(s, m);
    match kind {
      case PutKind =>
        var k, v := DeserializeKeyValue(s, m.key, m.value);
        r := Put(sender, target, k, v);
      case ReplyDataKind =>
        var k, v := DeserializeKeyValue(s, m.key, m.value);
        r := ReplyData(sender, target, k, v);
      case WaitAndGetKind =>
        var k := DeserializeKey(s, m.key);
        r := WaitAndGet(sender, target, k);
      case DoneKind => r := Done(sender, target);
      case TeardownKind => r := Teardown(sender, target);
    }
  }

  class Network {
    const mySer: Serializer

    /** Between calls everything written has been read. */
    ghost predicate Valid()
      reads this, mySer
    {
      CanWrite(mySer) && mySer.numBytesRead == mySer.numBytesWritten
    }

    constructor ()
      ensures Valid() && fresh(mySer) && fresh(mySer.buffer)
    {
      mySer := new Serializer();
    }

    /** sendMsg: the bytes handed to the socket.  They do not depend on what was sent or
        received before. */
    method SendMsg(m: Message) returns (sent: seq<byte>)
      requires Valid()
      modifies mySer, mySer.buffer
      ensures Valid() && fresh(mySer.buffer) && sent == EncWire(m)
    {
      mySer.Clear();
      mySer.Add(EncKind(KindOf(m)));
      SerializeMessage(mySer, m);
      sent := mySer.buffer[..mySer.numBytesWritten];
      assert sent == EncKind(KindOf(m)) + EncMessage(m);
      mySer.Clear();
    }

    /** receiveMsg: the bytes of one connection are those of one message, and that message
        comes back, whatever this node sent and received before. */
    method ReceiveMsg(bytes: seq<byte>, ghost m: Message) returns (r: Message)
      requires Valid() && ValidMessage(m) && bytes == EncWire(m)
      modifies mySer, mySer.buffer
      ensures Valid() && (mySer.buffer == old(mySer.buffer) || fresh(mySer.buffer)) && r == m
    {
      ghost var start := mySer.numBytesRead;
      mySer.Add(bytes);
      AtSlice(mySer.Written(), start, bytes);
      NextSplit(mySer, EncKind(KindOf(m)), EncMessage(m));
      KindRoundTrip(mySer.Written(), start, KindOf(m));
      var kind := mySer.ReadMsgKind();
      r := DeserializeMessage(mySer, kind, m);
    }
  }
}
