/** The parts of the KNX bus library the exporter relies on, kept abstract:
    group telegrams, the group-address constructor and the DPT 9.001 decoder.
    The address type and the decoded value type are type parameters, so no
    property below depends on how the library packs an address or unpacks a
    two-octet float. */
module Knx {
  import opened Options

  /** Go's `uint8`: the width of each group-address component. */
  type uint8 = x: int | 0 <= x < 0x100

  type byte = uint8

  /** The command carried by a group telegram. */
  datatype GroupCommand = GroupRead | GroupResponse | GroupWrite

  /** A group telegram: command, destination group address and payload. */
  datatype GroupEvent<A> = GroupEvent(command: GroupCommand, destination: A, data: seq<byte>)

  /** The 3-level group-address constructor (main, middle, sub). Only the
      equality of its results matters to the exporter. */
  type Pack<A> = (uint8, uint8, uint8) -> A

  /** Error reported by a datapoint decoder. */
  datatype DecodeError = DecodeError(reason: string)

  /** Error reported by the gateway when a telegram cannot be sent. */
  datatype TransportError = TransportError(reason: string)

  /** What a decoder call leaves behind: the value held by the receiver
      after the call, and the error it returned, if any. */
  datatype Unpacked<V> = Unpacked(value: V, error: Option<DecodeError>)

  /** The DPT 9.001 decoder, applied to a telegram payload. */
  type Unpack<V> = seq<byte> -> Unpacked<V>
}
