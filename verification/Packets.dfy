/** Game packets as the peers exchange them, and the packets CrownLink exchanges for itself. */
module Packets {
  import opened Basics
  import opened Bytes

  const MAX_PACKET_SIZE: nat := 512
  const HEADER_SIZE: nat := 12
  const MAX_PAYLOAD_SIZE: nat := MAX_PACKET_SIZE - HEADER_SIZE
  const SIZE_T_RANGE: nat := 0x1_0000_0000

  datatype PacketType = System | Text | Turn | CrownLink

  datatype PacketSubType = Ping | PingResponse | Other

  /** What goes to libjuice as one datagram: the game's own bytes, or a packet of CrownLink's. */
  datatype Datagram =
    | GameData(data: seq<byte>)
    | CrownLinkData(size: nat, subType: PacketSubType, payload: seq<byte>)

  /** A peer id. */
  type NetAddress = a: seq<byte> | |a| == 16 witness Zeros(16)

  type u16 = x: nat | x < 0x1_0000

  /** The payload field of a packet, always of full size. */
  type PayloadBuffer = s: seq<byte> | |s| == MAX_PAYLOAD_SIZE witness Zeros(MAX_PAYLOAD_SIZE)

  datatype Header = Header(size: u16, kind: PacketType, subType: PacketSubType, resendRequest: bool)

  datatype GamePacket = GamePacket(sender: NetAddress, header: Header, payload: PayloadBuffer, size: nat, timestamp: nat)

  /** A packet waiting to be sent by the worker thread. `kind` selects the agent of the pair. */
  datatype CustomPacket<K> = CustomPacket(
    address: NetAddress,
    kind: K,
    subType: PacketSubType,
    data: PayloadBuffer,
    dataSize: nat)

  function Zeros(n: nat): (r: seq<byte>)
    ensures |r| == n
  {
    seq(n, _ => 0)
  }

  /** The packet's own idea of its payload size: an unsigned subtraction, which wraps for a size below the header's. */
  function ClaimedPayload(header: Header): nat {
    (header.size - HEADER_SIZE) % SIZE_T_RANGE
  }

  /** The packet a peer reads from the datagram of a CrownLink packet: the rest of the buffer is zero. */
  function Arrived(sender: NetAddress, size: u16, subType: PacketSubType, payload: seq<byte>, now: nat): GamePacket
    requires |payload| <= MAX_PAYLOAD_SIZE
  {
    GamePacket(sender, Header(size, CrownLink, subType, false), payload + Zeros(MAX_PAYLOAD_SIZE - |payload|), size, now)
  }

  /** `CustomPacketData`: an oversized payload is not copied, but its size is kept. */
  function MakeCustomPacket<K>(address: NetAddress, kind: K, subType: PacketSubType, payload: PayloadBuffer, size: nat)
    : CustomPacket<K>
  {
    var data := if size > MAX_PAYLOAD_SIZE then Zeros(MAX_PAYLOAD_SIZE)
                else payload[..size] + Zeros(MAX_PAYLOAD_SIZE - size);
    CustomPacket(address, kind, subType, data, size)
  }

  // ----- Ping timestamps -----

  const TIMESTAMP_SIZE: nat := 8
  const TIMESTAMP_RANGE: nat := 0x1_0000_0000_0000_0000
  const MAX_PING_DELTA: nat := 30 * 1000

  /** A millisecond clock reading in network byte order. */
  function TimestampBytes(t: nat): (r: seq<byte>)
    ensures |r| == TIMESTAMP_SIZE
  {
    EncodeBE(t, TIMESTAMP_SIZE)
  }

  /**
   The elapsed time a ping response stands for, if it is one and is plausible. The subtraction is unsigned, so a
   timestamp later than `now` gives an elapsed time out of range.
   */
  function ElapsedTime(packet: GamePacket, now: nat): Option<nat> {
    if ClaimedPayload(packet.header) != TIMESTAMP_SIZE then None
    else
      var delta := (now - DecodeBE(packet.payload[..TIMESTAMP_SIZE])) % TIMESTAMP_RANGE;
      if delta > MAX_PING_DELTA then None else Some(delta)
  }

  lemma TimestampRoundTrip(t: nat)
    requires t < TIMESTAMP_RANGE
    ensures DecodeBE(TimestampBytes(t)) == t
  {
    assert Pow256(8) == 256 * (256 * (256 * (256 * Pow256(4))));
    assert Pow256(4) == 256 * (256 * (256 * (256 * Pow256(0))));
    RoundTripBE(t, TIMESTAMP_SIZE);
  }
}
