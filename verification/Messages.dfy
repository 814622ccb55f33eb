/**
 The values that travel through eau2: bytes, keys, stored values and the
 messages nodes send each other.
 */
module Messages {

  /** One char of a C++ buffer. */
  type byte = x: int | 0 <= x < 256

  /** The characters of a String, without the terminator. */
  type String = seq<byte>

  datatype Option<+T> = None | Some(value: T)

  /** A key names a piece of data and the node whose store holds it. */
  datatype Key = Key(str: String, home: nat)

  /** A Value is an opaque block of bytes. */
  type Value = seq<byte>

  /** The message kinds of the blocking protocol. */
  datatype Message =
    | Put(sender: nat, target: nat, key: Key, value: Value)
    | ReplyData(sender: nat, target: nat, key: Key, value: Value)
    | WaitAndGet(sender: nat, target: nat, key: Key)
    | Done(sender: nat, target: nat)
    | Teardown(sender: nat, target: nat)
}
