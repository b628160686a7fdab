/** boot_state.c: the durable A/B state, its 32-byte flash record and the four
    transitions of an update. */
module BootState {
  import opened Words
  import Crc

  const RECORD_MAGIC: uint32 := 0x31545342
  const RECORD_FORMAT_VERSION: uint16 := 1
  const RECORD_SIZE: nat := 32
  const CRC_OFFSET: nat := 28
  const SECTOR_SIZE: nat := 4096
  const RECORDS_PER_SECTOR: nat := 128
  const SLOT_A: uint8 := 0
  const SLOT_B: uint8 := 1
  const SLOT_NONE: uint8 := 0xFF
  const DEFAULT_MAX_TRIALS: uint8 := 3

  /** boot_state_t, copied by value between the journal and its callers. */
  datatype State = State(
    sequence: uint32,
    confirmed: uint8,
    pending: uint8,
    trials: uint8,
    maxTrials: uint8,
    flags: uint32,
    found: bool)

  const DEFAULT: State := State(0, SLOT_A, SLOT_NONE, 0, DEFAULT_MAX_TRIALS, 0, false)

  predicate SlotValid(slot: uint8) { slot == SLOT_A || slot == SLOT_B }

  /** What a record must satisfy beyond its magic, sizes and CRC. */
  predicate Storable(s: State) {
    && SlotValid(s.confirmed)
    && (s.pending == SLOT_NONE || SlotValid(s.pending))
    && s.pending != s.confirmed
    && s.maxTrials != 0
    && s.trials <= s.maxTrials
  }

  /** sequence_is_newer: the sign of the 32-bit difference. */
  predicate Newer(candidate: uint32, current: uint32) {
    0 < Distance(current, candidate) < 0x8000_0000
  }

  // ---- The flash record ----

  /** The packed struct up to its CRC. */
  function Header(s: State): (b: seq<byte>)
    ensures |b| == CRC_OFFSET
  {
    Le(RECORD_MAGIC, 4) + Le(RECORD_FORMAT_VERSION, 2) + Le(RECORD_SIZE, 2) + Le(s.sequence, 4)
    + [Byte(s.confirmed), Byte(s.pending), Byte(s.trials), Byte(s.maxTrials)]
    + Le(s.flags, 4) + Filled(8, 0)
  }

  function Encode(s: State): (b: seq<byte>)
    ensures |b| == RECORD_SIZE
  {
    Header(s) + Le(Crc.Crc32(Header(s)), 4)
  }

  function Fields(b: seq<byte>): State
    requires |b| == RECORD_SIZE
  {
    State(Word32(b, 8), Word8(b, 12), Word8(b, 13), Word8(b, 14), Word8(b, 15), Word32(b, 16), true)
  }

  predicate Framed(b: seq<byte>)
    requires |b| == RECORD_SIZE
  {
    && Word32(b, 0) == RECORD_MAGIC
    && Word16(b, 4) == RECORD_FORMAT_VERSION
    && Word16(b, 6) == RECORD_SIZE
  }

  predicate Sealed(b: seq<byte>)
    requires |b| == RECORD_SIZE
  {
    Word32(b, CRC_OFFSET) == Crc.Crc32(b[..CRC_OFFSET])
  }

  function Decode(b: seq<byte>): Option<State>
    requires |b| == RECORD_SIZE
  {
    if Framed(b) && Storable(Fields(b)) && Sealed(b) then Some(Fields(b)) else None
  }

  /** The records that decode, byte by byte: the four ways two slots can be
      confirmed and pending, and a trial limit that is at least one and not
      overrun. */
  lemma RecordIsTheTable(b: seq<byte>)
    requires |b| == RECORD_SIZE
    ensures Decode(b).Some? <==>
      && Word32(b, 0) == 0x3154_5342 && Word16(b, 4) == 1 && Word16(b, 6) == 32
      && (b[12] as int, b[13] as int) in {(0, 255), (0, 1), (1, 255), (1, 0)}
      && b[14] as int <= b[15] as int && 1 <= b[15] as int
      && Word32(b, 28) == Crc.Crc32(b[..28])
  {
    hide Word32, Word16, Crc.Crc32;
  }

  predicate Erased(b: seq<byte>) { forall i :: 0 <= i < |b| ==> b[i] == 0xFF }

  lemma Field32(b: seq<byte>, at: nat, x: uint32)
    requires at + 4 <= |b| && b[at..at + 4] == Le(x, 4)
    ensures Word32(b, at) == x
  {
    PowersOf256();
    LeRoundTrip(x, 4);
  }

  lemma Field16(b: seq<byte>, at: nat, x: uint16)
    requires at + 2 <= |b| && b[at..at + 2] == Le(x, 2)
    ensures Word16(b, at) == x
  {
    PowersOf256();
    LeRoundTrip(x, 2);
  }

  lemma EncodedFields(s: State)
    ensures Framed(Encode(s)) && Sealed(Encode(s))
    ensures Fields(Encode(s)) == s.(found := true)
  {
    var h, b := Header(s), Encode(s);
    hide Le, FromLe, Filled, Crc.Crc32;
    assert h[0..4] == Le(RECORD_MAGIC, 4);
    assert h[4..6] == Le(RECORD_FORMAT_VERSION, 2);
    assert h[6..8] == Le(RECORD_SIZE, 2);
    assert h[8..12] == Le(s.sequence, 4);
    assert h[12..16] == [Byte(s.confirmed), Byte(s.pending), Byte(s.trials), Byte(s.maxTrials)];
    assert h[16..20] == Le(s.flags, 4);
    EncodedWords(s, h, b);
  }

  lemma EncodedWords(s: State, h: seq<byte>, b: seq<byte>)
    requires |h| == CRC_OFFSET && |b| == RECORD_SIZE && b == h + Le(Crc.Crc32(h), 4)
    requires h[0..4] == Le(RECORD_MAGIC, 4)
    requires h[4..6] == Le(RECORD_FORMAT_VERSION, 2)
    requires h[6..8] == Le(RECORD_SIZE, 2)
    requires h[8..12] == Le(s.sequence, 4)
    requires h[12..16] == [Byte(s.confirmed), Byte(s.pending), Byte(s.trials), Byte(s.maxTrials)]
    requires h[16..20] == Le(s.flags, 4)
    ensures Framed(b) && Sealed(b) && Fields(b) == s.(found := true)
  {
    hide Le, FromLe, Crc.Crc32;
    assert b[..CRC_OFFSET] == h;
    assert b[0..4] == h[0..4]; Field32(b, 0, RECORD_MAGIC);
    assert b[4..6] == h[4..6]; Field16(b, 4, RECORD_FORMAT_VERSION);
    assert b[6..8] == h[6..8]; Field16(b, 6, RECORD_SIZE);
    assert b[8..12] == h[8..12]; Field32(b, 8, s.sequence);
    assert b[16..20] == h[16..20]; Field32(b, 16, s.flags);
    assert b[28..32] == Le(Crc.Crc32(h), 4); Field32(b, 28, Crc.Crc32(h));
    assert b[12] == h[12..16][0] && b[13] == h[12..16][1] && b[14] == h[12..16][2] && b[15] == h[12..16][3];
    ByteOfInt(s.confirmed); ByteOfInt(s.pending); ByteOfInt(s.trials); ByteOfInt(s.maxTrials);
  }

  /** A record decodes to the state it was made from exactly when that state is
      one the journal may hold. */
  lemma RoundTrip(s: State)
    ensures Decode(Encode(s)) == if Storable(s) then Some(s.(found := true)) else None
  {
    EncodedFields(s);
    hide Framed, Sealed, Encode, Fields;
    assert Storable(s) == Storable(s.(found := true));
  }

  lemma ErasedIsNotARecord(b: seq<byte>)
    requires |b| == RECORD_SIZE && Erased(b)
    ensures Decode(b) == None
  {
    var m := b[0..4];
    assert FromLe(m) == 255 + 256 * FromLe(m[1..]);
    assert FromLe(m) % 256 == 255;
    assert RECORD_MAGIC % 256 == 0x42;
  }

  /** Every valid record with up to four adjacent bytes altered, on one side of
      the boundary between header and CRC, is refused. */
  lemma DamageDetected(b: seq<byte>, at: nat, damage: seq<byte>)
    requires |b| == RECORD_SIZE && Decode(b).Some?
    requires |damage| <= 4 && at + |damage| <= RECORD_SIZE
    requires at + |damage| <= CRC_OFFSET || CRC_OFFSET <= at
    requires damage != b[at..at + |damage|]
    ensures Decode(b[..at] + damage + b[at + |damage|..]) == None
  {
    hide Crc.Crc32, Framed, Storable, Fields;
    var c := b[..at] + damage + b[at + |damage|..];
    var end := at + |damage|;
    if end <= CRC_OFFSET {
      var suffix := b[end..CRC_OFFSET];
      assert b[..CRC_OFFSET] == b[..at] + b[at..end] + suffix;
      assert c[..CRC_OFFSET] == b[..at] + damage + suffix;
      assert c[28..32] == b[28..32];
      Crc.BurstDetected(b[..at], b[at..end], damage, suffix);
    } else {
      assert c[..CRC_OFFSET] == b[..CRC_OFFSET];
      assert c[at..end] == damage;
      if Decode(c).Some? {
        FromLeInjective(c[28..32], b[28..32]);
        SameWindow(c, b, at, end);
      }
    }
  }

  lemma SameWindow(c: seq<byte>, b: seq<byte>, at: nat, end: nat)
    requires |c| == |b| == RECORD_SIZE && c[28..32] == b[28..32] && 28 <= at <= end <= 32
    ensures c[at..end] == b[at..end]
  {
    forall i | at <= i < end ensures c[i] == b[i] {
      assert c[i] == c[28..32][i - 28] && b[i] == b[28..32][i - 28];
    }
  }

  lemma DigitInjective(a: nat, b: nat, x: nat, y: nat)
    requires a < 256 && b < 256 && a + 256 * x == b + 256 * y
    ensures a == b && x == y
  {}

  lemma ByteInjective(a: byte, b: byte)
    requires a as int == b as int
    ensures a == b
  {}

  lemma {:induction false} FromLeInjective(a: seq<byte>, b: seq<byte>)
    requires |a| == |b| && FromLe(a) == FromLe(b)
    ensures a == b
  {
    if a != [] {
      DigitInjective(a[0] as int, b[0] as int, FromLe(a[1..]), FromLe(b[1..]));
      ByteInjective(a[0], b[0]);
      FromLeInjective(a[1..], b[1..]);
      assert a == [a[0]] + a[1..] && b == [b[0]] + b[1..];
    }
  }

  /** The bytes of a field are the little-endian form of its value. */
  lemma FieldIs(b: seq<byte>, at: nat, n: nat)
    requires at + n <= |b|
    ensures b[at..at + n] == Le(FromLe(b[at..at + n]), n)
  {
    var field := b[at..at + n];
    LeRoundTrip(FromLe(field), n);
    FromLeInjective(Le(FromLe(field), n), field);
  }

  // ---- Record images in flash ----

  /** One 32-byte place of the log: never written, damaged, or a state. */
  datatype Cell = Blank | Junk | Record(state: State)

  function Classify(b: seq<byte>): (c: Cell)
    requires |b| == RECORD_SIZE
    ensures c.Record? <==> Decode(b).Some?
    ensures c.Record? ==> Decode(b) == Some(c.state)
    ensures c.Blank? <==> Erased(b)
  {
    ErasedIsNotARecordIff(b);
    if Erased(b) then Blank else match Decode(b) case None => Junk case Some(s) => Record(s)
  }

  lemma ErasedIsNotARecordIff(b: seq<byte>)
    requires |b| == RECORD_SIZE
    ensures Erased(b) ==> Decode(b) == None
  {
    if Erased(b) { ErasedIsNotARecord(b); }
  }

  /** The n places that start at byte `base` of an image. */
  function CellsAt(b: seq<byte>, base: nat, n: nat): (cells: seq<Cell>)
    requires base + RECORD_SIZE * n <= |b|
    ensures |cells| == n
  {
    seq(n, i requires 0 <= i < n => Classify(b[base + RECORD_SIZE * i..base + RECORD_SIZE * i + RECORD_SIZE]))
  }

  /** The running choice of a scan: the first state met, then any newer one. */
  function Pick(best: State, cell: Cell): State {
    if cell.Record? && (!best.found || Newer(cell.state.sequence, best.sequence)) then cell.state else best
  }

  function Newest(cells: seq<Cell>): State {
    if cells == [] then DEFAULT else Pick(Newest(cells[..|cells| - 1]), cells[|cells| - 1])
  }

  function FirstBlank(cells: seq<Cell>): (n: nat)
    ensures n <= |cells|
    ensures forall i :: 0 <= i < n ==> !cells[i].Blank?
    ensures n < |cells| ==> cells[n].Blank?
  {
    if cells == [] || cells[0].Blank? then 0
    else 1 + FirstBlank(cells[1..])
  }

  /** boot_record_decode on a record image. */
  method RecordDecode(record: seq<byte>) returns (ok: bool, state: State)
    requires |record| == RECORD_SIZE
    ensures ok == Decode(record).Some?
    ensures ok ==> Decode(record) == Some(state)
  {
    var expectedCrc := Crc.Compute(record[..CRC_OFFSET]);
    state := Fields(record);
    ok := Word32(record, 0) == RECORD_MAGIC
      && Word16(record, 4) == RECORD_FORMAT_VERSION
      && Word16(record, 6) == RECORD_SIZE
      && Storable(state)
      && Word32(record, CRC_OFFSET) == expectedCrc;
  }

  /** boot_record_encode, reserved bytes written one by one. */
  method RecordEncode(state: State) returns (record: seq<byte>)
    ensures record == Encode(state)
  {
    hide Crc.Crc32, Le;
    var prefix := Le(RECORD_MAGIC, 4) + Le(RECORD_FORMAT_VERSION, 2) + Le(RECORD_SIZE, 2) + Le(state.sequence, 4)
      + [Byte(state.confirmed), Byte(state.pending), Byte(state.trials), Byte(state.maxTrials)]
      + Le(state.flags, 4);
    record := prefix;
    for index := 0 to 8
      invariant record == prefix + Filled(index, 0)
    {
      record := record + [0];
      assert Filled(index, 0) + [0] == Filled(index + 1, 0);
    }
    assert record == Header(state);
    var crc := Crc.Compute(record);
    record := record + Le(crc, 4);
  }

  /** bytes_are_erased. */
  method BytesAreErased(bytes: seq<byte>) returns (erased: bool)
    ensures erased == Erased(bytes)
  {
    for index := 0 to |bytes|
      invariant forall i :: 0 <= i < index ==> bytes[i] == 0xFF
    {
      if bytes[index] != 0xFF { return false; }
    }
    return true;
  }

  /** A boot_state_t the firmware passes by pointer and updates in place. */
  class StateVar {
    var value: State

    constructor ()
      ensures value == DEFAULT
    {
      value := DEFAULT;
    }

    /** boot_state_begin_update */
    method BeginUpdate(slot: uint8)
      modifies this
      ensures value == Begun(old(value), slot)
    {
      if !SlotValid(slot) || slot == value.confirmed { return; }
      value := value.(sequence := Wrap32(value.sequence + 1));
      value := value.(pending := slot);
      value := value.(trials := 0);
      value := value.(maxTrials := DEFAULT_MAX_TRIALS);
    }

    /** boot_state_record_trial */
    method RecordTrial()
      modifies this
      ensures value == Tried(old(value))
    {
      if value.pending == SLOT_NONE || value.trials >= value.maxTrials { return; }
      value := value.(sequence := Wrap32(value.sequence + 1));
      value := value.(trials := value.trials + 1);
    }

    /** boot_state_confirm_pending */
    method ConfirmPending()
      modifies this
      ensures value == Confirmed(old(value))
    {
      if value.pending == SLOT_NONE { return; }
      value := value.(sequence := Wrap32(value.sequence + 1));
      value := value.(confirmed := value.pending);
      value := value.(pending := SLOT_NONE);
      value := value.(trials := 0);
    }

    /** boot_state_rollback */
    method Rollback()
      modifies this
      ensures value == RolledBack(old(value))
    {
      if value.pending == SLOT_NONE { return; }
      value := value.(sequence := Wrap32(value.sequence + 1));
      value := value.(pending := SLOT_NONE);
      value := value.(trials := 0);
    }
  }

  function Next(s: State): State { s.(sequence := Wrap32(s.sequence + 1)) }

  function Begun(s: State, slot: uint8): State {
    if SlotValid(slot) && slot != s.confirmed
    then Next(s).(pending := slot, trials := 0, maxTrials := DEFAULT_MAX_TRIALS)
    else s
  }

  function Tried(s: State): State {
    if s.pending != SLOT_NONE && s.trials < s.maxTrials then Next(s).(trials := s.trials + 1) else s
  }

  function Confirmed(s: State): State {
    if s.pending != SLOT_NONE then Next(s).(confirmed := s.pending, pending := SLOT_NONE, trials := 0) else s
  }

  function RolledBack(s: State): State {
    if s.pending != SLOT_NONE then Next(s).(pending := SLOT_NONE, trials := 0) else s
  }

  /** boot_state_selected_slot */
  function SelectedSlot(s: State): uint8 {
    if s.pending != SLOT_NONE && s.trials < s.maxTrials then s.pending else s.confirmed
  }

  /** The slot a boot may still have to fall back on never moves except by
      confirmation, and every state the transitions make is one the journal
      can hold. */
  lemma TransitionsKeepStates(s: State, slot: uint8)
    requires Storable(s)
    ensures Storable(Begun(s, slot)) && Begun(s, slot).confirmed == s.confirmed
    ensures Storable(Tried(s)) && Tried(s).confirmed == s.confirmed
    ensures Storable(RolledBack(s)) && RolledBack(s).confirmed == s.confirmed
    ensures Storable(Confirmed(s))
    ensures s.pending != SLOT_NONE ==> Confirmed(s).confirmed == s.pending != s.confirmed
  {}

  /** A scan carried on from a state already chosen. */
  function Resume(start: State, cells: seq<Cell>): State {
    if cells == [] then start else Pick(Resume(start, cells[..|cells| - 1]), cells[|cells| - 1])
  }

  lemma {:induction false} ResumeNewest(before: seq<Cell>, cells: seq<Cell>)
    ensures Resume(Newest(before), cells) == Newest(before + cells)
  {
    if cells == [] {
      assert before + cells == before;
    } else {
      assert (before + cells)[..|before + cells| - 1] == before + cells[..|cells| - 1];
      ResumeNewest(before, cells[..|cells| - 1]);
    }
  }

  lemma ResumeNothing(start: State)
    ensures Resume(start, []) == start
  {}

  lemma ResumeOne(start: State, cells: seq<Cell>, k: nat)
    requires k < |cells|
    ensures Resume(start, cells[..k + 1]) == Pick(Resume(start, cells[..k]), cells[k])
  {
    assert cells[..k + 1][..k] == cells[..k];
  }

  /** scan_sector: one pass over the records of a sector. */
  method ScanSector(sector: seq<byte>, state: StateVar)
    requires |sector| == SECTOR_SIZE
    modifies state
    ensures forall before: seq<Cell> :: old(state.value) == Newest(before) ==>
      state.value == Newest(before + CellsAt(sector, 0, RECORDS_PER_SECTOR))
  {
    hide Decode, Newest, Resume;
    ghost var cells := CellsAt(sector, 0, RECORDS_PER_SECTOR);
    ghost var start := state.value;
    ResumeNothing(start);
    for index := 0 to RECORDS_PER_SECTOR
      invariant state.value == Resume(start, cells[..index])
    {
      var ok, candidate := RecordDecode(sector[RECORD_SIZE * index..RECORD_SIZE * index + RECORD_SIZE]);
      ResumeOne(start, cells, index);
      if ok && (!state.value.found || Newer(candidate.sequence, state.value.sequence)) {
        state.value := candidate;
      }
    }
    assert cells[..RECORDS_PER_SECTOR] == cells;
    forall before: seq<Cell> | start == Newest(before)
      ensures state.value == Newest(before + cells)
    {
      ResumeNewest(before, cells);
    }
  }

  /** boot_state_scan: the newest state of two sector images. */
  method Scan(sectorA: seq<byte>, sectorB: seq<byte>) returns (state: StateVar)
    requires |sectorA| == |sectorB| == SECTOR_SIZE
    ensures fresh(state)
    ensures state.value == Newest(CellsAt(sectorA, 0, RECORDS_PER_SECTOR) + CellsAt(sectorB, 0, RECORDS_PER_SECTOR))
  {
    state := new StateVar();
    assert state.value == Newest([]);
    ScanSector(sectorA, state);
    assert [] + CellsAt(sectorA, 0, RECORDS_PER_SECTOR) == CellsAt(sectorA, 0, RECORDS_PER_SECTOR);
    ScanSector(sectorB, state);
  }

  /** boot_state_find_append_offset: the byte offset of the first blank place. */
  method FindAppendOffset(sector: seq<byte>) returns (offset: nat)
    requires |sector| == SECTOR_SIZE
    ensures offset == RECORD_SIZE * FirstBlank(CellsAt(sector, 0, RECORDS_PER_SECTOR))
  {
    ghost var cells := CellsAt(sector, 0, RECORDS_PER_SECTOR);
    for index := 0 to RECORDS_PER_SECTOR
      invariant forall i :: 0 <= i < index ==> !cells[i].Blank?
    {
      offset := index * RECORD_SIZE;
      var erased := BytesAreErased(sector[offset..offset + RECORD_SIZE]);
      assert cells[index] == Classify(sector[0 + RECORD_SIZE * index..0 + RECORD_SIZE * index + RECORD_SIZE]);
      if erased { return; }
    }
    offset := SECTOR_SIZE;
  }
}
