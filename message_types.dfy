/** The message type and the constants of the message-passing library:
    the size of the destination registry, the cap of the message pool and
    the fixed layout of a message (a length byte followed by 255 payload bytes). */
module MessageTypes {

  /** Number of destination queues; valid identifiers are 0 .. MAX_SIZE - 1. */
  const MAX_SIZE: nat := 254

  /** Largest number of message buffers that may be outstanding at once. */
  const MAX_MSGS: nat := 2048

  /** Number of payload bytes every message carries. */
  const PAYLOAD_CAPACITY: nat := 255

  /** An unsigned 8-bit integer (uint8_t). */
  newtype uint8 = x: int | 0 <= x < 0x100

  /** The fixed-size payload array of a message. */
  type Payload = s: seq<uint8> | |s| == PAYLOAD_CAPACITY witness seq(255, _ => 0)

  /** A message is a plain value: assigning one message to another copies
      the length and all of the payload. */
  datatype Message = Message(len: uint8, data: Payload)

  datatype Option<T> = None | Some(value: T)

  /** The message a fresh allocation hands out: every byte cleared. */
  function ZeroMessage(): (m: Message)
    ensures m.len == 0
    ensures forall i :: 0 <= i < |m.data| ==> m.data[i] == 0
  {
    Message(0, seq(PAYLOAD_CAPACITY, _ => 0))
  }

  /** The bytes of a message that its length marks as valid. */
  function Contents(m: Message): (b: seq<uint8>)
    ensures |b| == m.len as int <= PAYLOAD_CAPACITY
    ensures forall i :: 0 <= i < |b| ==> b[i] == m.data[i]
  {
    m.data[..m.len]
  }

  /** Whether an identifier names one of the destination queues. Since an
      identifier is one byte wide, the only invalid ones are 254 and 255. */
  predicate IsValidId(id: uint8): (valid: bool)
    ensures valid <==> 0 <= id as int < MAX_SIZE
    ensures !valid <==> id as int == 254 || id as int == 255
  {
    id as int < MAX_SIZE
  }
}
