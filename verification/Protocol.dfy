/** recovery_protocol.c and the packet half of pedalctl.py: the 64-byte report
    both sides exchange. */
module Protocol {
  import opened Words
  import opened BootState
  import opened Nor
  import Crc

  const PACKET_MAGIC: uint32 := 0x5846_584E
  const PROTOCOL_VERSION: uint8 := 2
  const PAYLOAD_SIZE: nat := 32
  const HEADER_BYTES: nat := 28
  const PACKET_SIZE: nat := 64

  const FLAG_FULL_FLASH: uint16 := 0x8000
  const FULL_FLASH_UNLOCK: uint32 := 0x4550_4957

  const GET_INFO: uint8 := 1
  const BEGIN_IMAGE: uint8 := 2
  const ERASE_SLOT: uint8 := 3
  const WRITE_CHUNK: uint8 := 4
  const READ_CHUNK: uint8 := 5
  const FINALIZE_IMAGE: uint8 := 6
  const SET_PENDING: uint8 := 7
  const REBOOT: uint8 := 8
  const GET_LOG: uint8 := 9
  const BEGIN_FULL_FLASH: uint8 := 10
  const ERASE_FULL_FLASH: uint8 := 11
  const FINALIZE_FULL_FLASH: uint8 := 12
  const READ_KNOBS: uint8 := 13

  const OK: uint16 := 0
  const BAD_MAGIC: uint16 := 1
  const BAD_VERSION: uint16 := 2
  const BAD_COMMAND: uint16 := 3
  const BAD_LENGTH: uint16 := 4
  const BAD_HEADER_CRC: uint16 := 5
  const BAD_PAYLOAD_CRC: uint16 := 6
  const BAD_SESSION: uint16 := 7
  const BAD_SEQUENCE: uint16 := 8
  const BAD_SLOT: uint16 := 9
  const RANGE_DENIED: uint16 := 10
  const BACKEND_ERROR: uint16 := 11
  const INVALID_STATE: uint16 := 12
  const IMAGE_INVALID: uint16 := 13
  const ACTIVE_SLOT: uint16 := 14
  const NOT_FINALIZED: uint16 := 15
  const BAD_FLAGS: uint16 := 16
  const WRITE_ORDER: uint16 := 17
  const FULL_FLASH_DISABLED: uint16 := 18

  /** recovery_packet_t: the report as both sides lay it out. */
  datatype Packet = Packet(
    magic: uint32, version: uint8, command: uint8, flags: uint16,
    session: uint32, sequence: uint32, offset: uint32,
    length: uint16, status: uint16, payloadCrc: uint32, headerCrc: uint32,
    payload: Bytes)

  predicate Formed(p: Packet) { |p.payload| == PAYLOAD_SIZE }

  function HeaderOf(p: Packet): (b: Bytes)
    ensures |b| == HEADER_BYTES
  {
    Le(p.magic, 4) + [Byte(p.version), Byte(p.command)] + Le(p.flags, 2)
    + Le(p.session, 4) + Le(p.sequence, 4) + Le(p.offset, 4)
    + Le(p.length, 2) + Le(p.status, 2) + Le(p.payloadCrc, 4)
  }

  /** The packed bytes of a report. */
  function Pack(p: Packet): (b: Bytes)
    requires Formed(p)
    ensures |b| == PACKET_SIZE
  {
    HeaderOf(p) + Le(p.headerCrc, 4) + p.payload
  }

  function Unpack(b: Bytes): (p: Packet)
    requires |b| == PACKET_SIZE
    ensures Formed(p)
  {
    Packet(Word32(b, 0), Word8(b, 4), Word8(b, 5), Word16(b, 6), Word32(b, 8), Word32(b, 12), Word32(b, 16),
           Word16(b, 20), Word16(b, 22), Word32(b, 24), Word32(b, 28), b[32..64])
  }

  /** recovery_packet_finalize */
  function Finalize(p: Packet): (q: Packet)
    requires Formed(p)
    ensures Formed(q)
  {
    var withPayload := p.(payloadCrc := if p.length <= PAYLOAD_SIZE then Crc.Crc32(p.payload[..p.length]) else 0);
    withPayload.(headerCrc := Crc.Crc32(HeaderOf(withPayload)))
  }

  /** recovery_packet_validate without a session requirement, as the engine uses it. */
  function Validate(p: Packet): uint16
    requires Formed(p)
  {
    if p.magic != PACKET_MAGIC then BAD_MAGIC
    else if p.version != PROTOCOL_VERSION then BAD_VERSION
    else if !(GET_INFO <= p.command <= READ_KNOBS) then BAD_COMMAND
    else if p.length > PAYLOAD_SIZE then BAD_LENGTH
    else if p.headerCrc != Crc.Crc32(HeaderOf(p)) then BAD_HEADER_CRC
    else if p.payloadCrc != Crc.Crc32(p.payload[..p.length]) then BAD_PAYLOAD_CRC
    else OK
  }

  /** The flash offset of a slot-relative range, or why it is refused. */
  datatype Range = Denied(status: uint16) | At(offset: nat)

  /** recovery_resolve_range */
  function ResolveRange(slot: uint8, offset: uint32, length: uint32): (r: Range)
    ensures r.At? <==> SlotValid(slot) && 0 < length && offset + length <= SLOT_SIZE
    ensures r.At? ==> r.offset == SlotOffset(slot) + offset
  {
    if !SlotValid(slot) then Denied(BAD_SLOT)
    else if length == 0 || offset >= SLOT_SIZE || length > SLOT_SIZE - offset then Denied(RANGE_DENIED)
    else At(SlotOffset(slot) + offset)
  }

  // ---- The host's view: pedalctl.Packet ----

  /** The frozen dataclass of the host tool. */
  datatype HostPacket = HostPacket(
    command: uint8, flags: uint16, session: uint32, sequence: uint32, offset: uint32, status: uint16, payload: Bytes)

  predicate Encodable(h: HostPacket) {
    GET_INFO <= h.command <= READ_KNOBS && |h.payload| <= PAYLOAD_SIZE
  }

  /** Packet.encode */
  function HostEncode(h: HostPacket): (p: Packet)
    requires Encodable(h)
    ensures Formed(p)
  {
    Finalize(Packet(PACKET_MAGIC, PROTOCOL_VERSION, h.command, h.flags, h.session, h.sequence, h.offset,
                    |h.payload|, h.status, 0, 0, h.payload + Filled(PAYLOAD_SIZE - |h.payload|, 0)))
  }

  /** Packet.decode */
  function HostDecode(p: Packet): Option<HostPacket>
    requires Formed(p)
  {
    if Validate(p) == OK
    then Some(HostPacket(p.command, p.flags, p.session, p.sequence, p.offset, p.status, p.payload[..p.length]))
    else None
  }

  lemma FinalizedIsValid(p: Packet)
    requires Formed(p) && p.magic == PACKET_MAGIC && p.version == PROTOCOL_VERSION
    requires GET_INFO <= p.command <= READ_KNOBS && p.length <= PAYLOAD_SIZE
    ensures Validate(Finalize(p)) == OK
  {
    var q := p.(payloadCrc := Crc.Crc32(p.payload[..p.length]));
    assert HeaderOf(q.(headerCrc := Crc.Crc32(HeaderOf(q)))) == HeaderOf(q);
  }

  /** What the host sends, the device accepts and the host would decode back to
      the same packet. */
  lemma HostRoundTrip(h: HostPacket)
    requires Encodable(h)
    ensures Validate(HostEncode(h)) == OK
    ensures HostDecode(HostEncode(h)) == Some(h)
  {
    var p := Packet(PACKET_MAGIC, PROTOCOL_VERSION, h.command, h.flags, h.session, h.sequence, h.offset,
                    |h.payload|, h.status, 0, 0, h.payload + Filled(PAYLOAD_SIZE - |h.payload|, 0));
    FinalizedIsValid(p);
    assert p.payload[..p.length] == h.payload;
  }

  lemma Field8(b: Bytes, at: nat, x: uint8)
    requires at < |b| && b[at] == Byte(x)
    ensures Word8(b, at) == x
  {
    ByteOfInt(x);
  }

  /** The packed layout is the same read back. */
  lemma PackRoundTrip(p: Packet)
    requires Formed(p)
    ensures Unpack(Pack(p)) == p
  {
    hide Le, FromLe, Word32, Word16, Word8;
    var b := Pack(p);
    assert b[0..4] == Le(p.magic, 4); Field32(b, 0, p.magic);
    assert b[4] == Byte(p.version); Field8(b, 4, p.version);
    assert b[5] == Byte(p.command); Field8(b, 5, p.command);
    assert b[6..8] == Le(p.flags, 2); Field16(b, 6, p.flags);
    PackTail(p, b);
    assert b[32..64] == p.payload;
  }

  lemma PackTail(p: Packet, b: Bytes)
    requires Formed(p) && b == Pack(p)
    ensures Word32(b, 8) == p.session && Word32(b, 12) == p.sequence && Word32(b, 16) == p.offset
    ensures Word16(b, 20) == p.length && Word16(b, 22) == p.status
    ensures Word32(b, 24) == p.payloadCrc && Word32(b, 28) == p.headerCrc
  {
    hide Le, FromLe, Word32, Word16;
    assert b[8..12] == Le(p.session, 4); Field32(b, 8, p.session);
    assert b[12..16] == Le(p.sequence, 4); Field32(b, 12, p.sequence);
    assert b[16..20] == Le(p.offset, 4); Field32(b, 16, p.offset);
    assert b[20..22] == Le(p.length, 2); Field16(b, 20, p.length);
    assert b[22..24] == Le(p.status, 2); Field16(b, 22, p.status);
    assert b[24..28] == Le(p.payloadCrc, 4); Field32(b, 24, p.payloadCrc);
    assert b[28..32] == Le(p.headerCrc, 4); Field32(b, 28, p.headerCrc);
  }

  // ---- Damage on the wire ----

  /** The header of a report read from its bytes is those bytes again. */
  lemma UnpackedHeader(b: Bytes)
    requires |b| == PACKET_SIZE
    ensures HeaderOf(Unpack(b)) == b[..HEADER_BYTES]
  {
    hide Le, FromLe;
    FieldIs(b, 0, 4); FieldIs(b, 6, 2); FieldIs(b, 8, 4); FieldIs(b, 12, 4);
    FieldIs(b, 16, 4); FieldIs(b, 20, 2); FieldIs(b, 22, 2); FieldIs(b, 24, 4);
    assert HeaderOf(Unpack(b)) == b[0..4] + [b[4], b[5]] + b[6..8] + b[8..12] + b[12..16] + b[16..20] + b[20..22] + b[22..24] + b[24..28];
  }

  /** A report is valid exactly if its first fields are right, its length fits
      and both checksums are those of the bytes they cover. */
  lemma ValidBytes(b: Bytes)
    requires |b| == PACKET_SIZE
    ensures Validate(Unpack(b)) == OK <==>
      && Word32(b, 0) == PACKET_MAGIC && Word8(b, 4) == PROTOCOL_VERSION && GET_INFO <= Word8(b, 5) <= READ_KNOBS
      && Word16(b, 20) <= PAYLOAD_SIZE
      && Word32(b, 28) == Crc.Crc32(b[..28]) && Word32(b, 24) == Crc.Crc32(b[32..32 + Word16(b, 20)])
  {
    hide HeaderOf, Crc.Crc32, Word32, Word16, Word8;
    UnpackedHeader(b);
    if Word16(b, 20) <= PAYLOAD_SIZE { assert b[32..64][..Word16(b, 20)] == b[32..32 + Word16(b, 20)]; }
  }

  /** Up to four adjacent altered bytes, inside the header, its checksum or the
      payload in use, and the report is refused. */
  lemma DamageIsRefused(b: Bytes, at: nat, damage: Bytes)
    requires |b| == PACKET_SIZE && Validate(Unpack(b)) == OK
    requires |damage| <= 4 && at + |damage| <= PACKET_SIZE && damage != b[at..at + |damage|]
    requires at + |damage| <= 28 || (28 <= at && at + |damage| <= 32) || (32 <= at && at + |damage| <= 32 + Word16(b, 20))
    ensures Validate(Unpack(b[..at] + damage + b[at + |damage|..])) != OK
  {
    hide HeaderOf, Crc.Crc32, Word32, Word16, Word8, Validate, Unpack;
    var end, c := at + |damage|, b[..at] + damage + b[at + |damage|..];
    ValidBytes(b);
    ValidBytes(c);
    if end <= 28 {
      assert b[..28] == b[..at] + b[at..end] + b[end..28] && c[..28] == b[..at] + damage + b[end..28];
      Crc.BurstDetected(b[..at], b[at..end], damage, b[end..28]);
      SameField(b, c, 28);
    } else if end <= 32 {
      assert c[..28] == b[..28] && c[at..end] == damage;
      if Word32(c, 28) == Word32(b, 28) { FieldBytes(b, c, 28, at, end); }
    } else {
      SameField(b, c, 24);
      SameLength(b, c);
      var last := 32 + Word16(b, 20);
      assert b[32..last] == b[32..at] + b[at..end] + b[end..last] && c[32..last] == b[32..at] + damage + b[end..last];
      Crc.BurstDetected(b[32..at], b[at..end], damage, b[end..last]);
    }
  }

  /** What is altered behind the payload in use goes unnoticed. */
  lemma PaddingIsIgnored(b: Bytes, c: Bytes)
    requires |b| == |c| == PACKET_SIZE && Validate(Unpack(b)) == OK
    requires forall i :: 0 <= i < 32 + Word16(b, 20) && i < PACKET_SIZE ==> c[i] == b[i]
    ensures Validate(Unpack(c)) == OK && HostDecode(Unpack(c)) == HostDecode(Unpack(b))
  {
    hide HeaderOf, Crc.Crc32, Word32, Word16, Word8, Validate;
    ValidBytes(b);
    ValidBytes(c);
    var last := 32 + Word16(b, 20);
    SameHeader(b, c);
    SameSlice(b, c, 0, 28);
    SameSlice(b, c, 32, last);
    SliceOfSlice(b, 32, 32, 0, last - 32);
    SliceOfSlice(c, 32, 32, 0, last - 32);
  }

  lemma SameHeader(b: Bytes, c: Bytes)
    requires |b| == |c| == PACKET_SIZE && forall i :: 0 <= i < 32 ==> c[i] == b[i]
    ensures Word32(c, 0) == Word32(b, 0) && Word8(c, 4) == Word8(b, 4) && Word8(c, 5) == Word8(b, 5) && Word16(c, 6) == Word16(b, 6)
    ensures Word32(c, 8) == Word32(b, 8) && Word32(c, 12) == Word32(b, 12) && Word32(c, 16) == Word32(b, 16)
    ensures Word16(c, 20) == Word16(b, 20) && Word16(c, 22) == Word16(b, 22)
    ensures Word32(c, 24) == Word32(b, 24) && Word32(c, 28) == Word32(b, 28)
  {
    hide FromLe;
    SameSlice(b, c, 0, 4); SameSlice(b, c, 6, 8); SameSlice(b, c, 8, 12); SameSlice(b, c, 12, 16); SameSlice(b, c, 16, 20);
    SameSlice(b, c, 20, 22); SameSlice(b, c, 22, 24); SameSlice(b, c, 24, 28); SameSlice(b, c, 28, 32);
  }

  lemma SameField(b: Bytes, c: Bytes, at: nat)
    requires |b| == |c| && at + 4 <= |b| && forall i :: at <= i < at + 4 ==> c[i] == b[i]
    ensures Word32(c, at) == Word32(b, at)
  {
    assert c[at..at + 4] == b[at..at + 4];
  }

  lemma SameLength(b: Bytes, c: Bytes)
    requires |b| == |c| == PACKET_SIZE && c[20] == b[20] && c[21] == b[21]
    ensures Word16(c, 20) == Word16(b, 20)
  {
    assert c[20..22] == b[20..22];
  }

  /** Equal words, equal bytes. */
  lemma FieldBytes(b: Bytes, c: Bytes, field: nat, at: nat, end: nat)
    requires |b| == |c| && field <= at <= end <= field + 4 <= |b| && Word32(c, field) == Word32(b, field)
    ensures c[at..end] == b[at..end]
  {
    FromLeInjective(c[field..field + 4], b[field..field + 4]);
    forall i | at <= i < end ensures c[i] == b[i] {
      assert c[i] == c[field..field + 4][i - field] && b[i] == b[field..field + 4][i - field];
    }
  }
}
