/** The 65-byte chat packet and its record encoding. */
module WireFormat {
  import opened Words
  import opened Records

  const RECORDS_PER_PACKET: nat := 5
  const MAX_CHUNKS: nat := MAX_RECORDS / RECORDS_PER_PACKET

  const FULL: U8 := 1
  const DELTA: U8 := 2
  const INTEREST: U8 := 3
  const REMOVE: U8 := 0x80

  datatype WireRecord = WireRecord(buildUnitId: U16, x: U16, y: U16, z: U16, rotation: U8)

  const BLANK: WireRecord := WireRecord(0, 0, 0, 0, 0)

  datatype RawPacket = RawPacket(
    chatByte: U8, nullText: U8, msgId: U8, size: U8, version: U8, kind: U8,
    sequence: U32, base: U32, chunkIndex: U16, chunkCount: U16, recordCount: U8,
    records: seq<WireRecord>, reserved: U8)

  type Packet = p: RawPacket | |p.records| == RECORDS_PER_PACKET
    witness RawPacket(0, 0, 0, 0, 0, 0, 0, 0, 0, 0, 0, [BLANK, BLANK, BLANK, BLANK, BLANK], 0)

  function MakePacket(id: U8, kind: U8): Packet {
    RawPacket(5, 0, id, 65, 2, kind, 0, 0, 0, 0, 0, [BLANK, BLANK, BLANK, BLANK, BLANK], 0)
  }

  predicate Envelope(p: Packet, id: U8) {
    && p.chatByte == 5 && p.nullText == 0 && p.msgId == id
    && p.size == 65 && p.version == 2 && p.reserved == 0
  }

  // ---- Rotation byte: bit 7 is the remove flag, bits 0 and 1 the facing

  function WithRemove(rotation: U8): U8 {
    if rotation >= REMOVE then rotation else rotation + REMOVE
  }

  predicate HasRemove(rotation: U8) {
    rotation >= REMOVE
  }

  predicate HasStrayBits(rotation: U8) {
    rotation % 0x80 > 3
  }

  function Facing(rotation: U8): U8 {
    rotation % 4
  }

  /** The arithmetic forms are the source's bit expressions on a byte. */
  lemma RotationBits(r: bv8)
    ensures (r | 0x80) as int == WithRemove(r as int)
    ensures (r & 0x80 != 0) == HasRemove(r as int)
    ensures (r & !(0x80 | 3) != 0) == HasStrayBits(r as int)
    ensures (r & 3) as int == Facing(r as int)
  {
    RemoveBit(r);
    LowBits(r);
  }

  lemma RemoveBit(r: bv8)
    ensures (r | 0x80) as int == WithRemove(r as int)
    ensures (r & 0x80 != 0) == HasRemove(r as int)
  {
  }

  lemma LowBits(r: bv8)
    ensures (r & !(0x80 | 3) != 0) == HasStrayBits(r as int)
    ensures (r & 3) as int == Facing(r as int)
  {
  }

  function Wire(r: Record, remove: bool := false): WireRecord {
    WireRecord(r.buildUnitId, r.x, r.y, r.z, if remove then WithRemove(r.rotation) else r.rotation)
  }

  function Unwire(w: WireRecord): Record {
    Record(w.buildUnitId, w.x, w.y, w.z, Facing(w.rotation))
  }

  predicate ValidWire(w: WireRecord) {
    w.buildUnitId != 0 && !HasStrayBits(w.rotation)
  }

  /** A valid record survives the wire, and so does the flag it travels with. */
  lemma WireRoundTrip(r: Record, remove: bool)
    requires ValidRecord(r)
    ensures Unwire(Wire(r, remove)) == r
    ensures HasRemove(Wire(r, remove).rotation) == remove
    ensures ValidWire(Wire(r, remove))
  {
  }

  /** Conversely the acceptance test admits exactly the encodings of valid records. */
  lemma ValidWireIsEncoding(w: WireRecord)
    ensures ValidWire(w) <==> exists r, remove :: ValidRecord(r) && w == Wire(r, remove)
  {
    if ValidWire(w) {
      assert w == Wire(Unwire(w), HasRemove(w.rotation));
    }
  }
}
