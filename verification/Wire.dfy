/** Addresses, ports and frames as every layer sees them. */
module Wire {

  type byte = x: int | 0 <= x < 0x100

  /** A MIP address: one per network interface. */
  type Address = byte

  /** A 16-bit port; a transport frame carries only its low 14 bits. */
  type Port = x: int | 0 <= x < 0x1_0000

  const PORT_SPACE := 0x4000

  const MAX_MSG := 1490

  /** What one non-blocking socket read can return: at least one byte, at most what fits a frame. */
  type Chunk = s: seq<byte> | 1 <= |s| <= MAX_MSG witness [0]

  datatype Kind = Request | Reply | Data | Sack

  /** The fields of a transport frame. */
  datatype Segment = Segment(kind: Kind, dest: Port, source: Port, seqNum: nat, msg: seq<byte>)

  /** An entry of the transport daemon's output queue. */
  datatype Packet = Packet(to: Address, seg: Segment)

  /** A frame built for a pair of ports: the header keeps the low 14 bits of each. */
  function MakeSegment(kind: Kind, dest: Port, source: Port, seqNum: nat, msg: seq<byte>): Segment {
    Segment(kind, dest % PORT_SPACE, source % PORT_SPACE, seqNum, msg)
  }

  datatype Option<+T> = None | Some(value: T)
}
