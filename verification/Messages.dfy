/**
 The MQTT message (message.go) and the checks made on it before it is sent.
 */
module Messages {
  import opened Bytes

  datatype Message = Message(topic: seq<byte>, id: uint16, qos: byte, retain: bool, dup: bool, payload: seq<byte>)

  /** The largest remaining length of section 2.2.3 of MQTT 3.1.1. */
  const MAX_REMAINING: nat := 0xFFF_FFFF

  function PublishLength(m: Message): nat {
    2 + |m.topic| + (if m.qos == 0 then 0 else 2) + |m.payload|
  }

  /** Packing the message does not panic. */
  predicate Fits(m: Message) {
    m.qos <= 2 && |m.topic| <= 0xFFFF && PublishLength(m) <= MAX_REMAINING
  }

  /** `ValidateMessage` on a client whose `MaxPayloadLen` is `maxPayload` (0: unlimited). */
  predicate Valid(m: Message, maxPayload: nat) {
    (maxPayload == 0 || |m.payload| < maxPayload) && m.qos <= 2
  }
}
