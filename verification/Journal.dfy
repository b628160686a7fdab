/** boot_journal.c: the two-sector append log that makes the A/B state durable. */
module Journal {
  import opened Words
  import opened BootState
  import opened Nor

  datatype Status = Ok | BackendError | InvalidState | StaleSequence | VerifyFailed

  /** boot_journal_location_t */
  datatype Location = Location(sector: nat, offset: nat, found: bool)

  /** The location names journal place k. */
  predicate Locates(location: Location, k: nat) {
    && location.sector < SECTOR_COUNT && location.offset < SECTOR_SIZE
    && RECORDS_PER_SECTOR * location.sector + location.offset / RECORD_SIZE == k
    && location.offset % RECORD_SIZE == 0
  }

  const SECTOR_COUNT: nat := 2
  const METADATA_ADDRESS: nat := XIP_BASE + METADATA_OFFSET

  function RecordAddress(sector: nat, offset: nat): nat {
    METADATA_ADDRESS + sector * SECTOR_SIZE + offset
  }

  // ---- Specification over the 256 places ----

  predicate StateEqual(a: State, b: State) { a.(found := true) == b.(found := true) }

  function Stored(s: State): Cell { Record(s.(found := true)) }

  /** Place of the record the scan settles on. */
  function NewestPlace(cells: seq<Cell>): (k: nat)
    ensures Newest(cells).found ==> k < |cells| && cells[k].Record? && cells[k].state == Newest(cells)
  {
    if cells == [] then 0
    else
      var rest, last := cells[..|cells| - 1], cells[|cells| - 1];
      if Pick(Newest(rest), last) == Newest(rest) && Newest(rest).found then NewestPlace(rest) else |cells| - 1
  }

  function Sector(cells: seq<Cell>, sector: nat): (s: seq<Cell>)
    requires |cells| == PLACES && sector < SECTOR_COUNT
    ensures |s| == RECORDS_PER_SECTOR
  {
    cells[RECORDS_PER_SECTOR * sector..RECORDS_PER_SECTOR * (sector + 1)]
  }

  /** Every record a scan can meet carries a state the journal may hold. */
  ghost predicate Proper(cells: seq<Cell>) {
    forall i :: 0 <= i < |cells| && cells[i].Record? ==> cells[i].state.found && Storable(cells[i].state)
  }

  function ActiveSector(cells: seq<Cell>): (a: nat)
    requires |cells| == PLACES
    ensures a < SECTOR_COUNT
  {
    if Newest(cells).found then NewestPlace(cells) / RECORDS_PER_SECTOR else 0
  }

  /** A sector an interrupted erase went over. */
  ghost predicate Worn(before: seq<Cell>, after: seq<Cell>) {
    && |after| == |before|
    && forall i :: 0 <= i < |before| ==> after[i] == before[i] || !after[i].Record?
  }

  function FreshSector(first: Cell): (s: seq<Cell>)
    ensures |s| == RECORDS_PER_SECTOR
  {
    [first] + seq(RECORDS_PER_SECTOR - 1, i => Blank)
  }

  ghost predicate Appended(cells: seq<Cell>, state: State, after: seq<Cell>, status: Status)
    requires |cells| == PLACES
  {
    var a := ActiveSector(cells);
    var first := FirstBlank(Sector(cells, a));
    && first < RECORDS_PER_SECTOR
    && var k := RECORDS_PER_SECTOR * a + first;
    exists c: Cell :: Fills(cells, k, c, state, after, status)
  }

  /** A program attempt at place k left c there. */
  ghost predicate Fills(cells: seq<Cell>, k: nat, c: Cell, state: State, after: seq<Cell>, status: Status) {
    && k < |cells| && after == cells[k := c]
    && (c.Record? ==> c == Stored(state))
    && (status == Ok ==> c == Stored(state))
  }

  ghost predicate Rotated(cells: seq<Cell>, state: State, after: seq<Cell>, status: Status)
    requires |cells| == PLACES
  {
    var a := ActiveSector(cells);
    var t := 1 - a;
    && FirstBlank(Sector(cells, a)) == RECORDS_PER_SECTOR
    && |after| == PLACES
    && if status == Ok then
         && Sector(after, t) == FreshSector(Stored(state))
         && Worn(Sector(cells, a), Sector(after, a))
       else
         && Sector(after, a) == Sector(cells, a)
         && (Worn(Sector(cells, t), Sector(after, t))
             || exists c: Cell :: Sector(after, t) == FreshSector(c) && (c.Record? ==> c == Stored(state)))
  }

  /** Everything one boot_journal_store may do to the log, whatever fails. */
  ghost predicate StoreEffect(cells: seq<Cell>, state: State, after: seq<Cell>, status: Status)
    requires |cells| == PLACES
  {
    var current := Newest(cells);
    if !Storable(state) then status == InvalidState && after == cells
    else if status == BackendError && after == cells then true
    else if current.found && StateEqual(state, current) then status == Ok && after == cells
    else if current.found && !Newer(state.sequence, current.sequence) then status == StaleSequence && after == cells
    else
      && status != InvalidState && status != StaleSequence
      && (Appended(cells, state, after, status) || Rotated(cells, state, after, status))
  }

  // ---- From bytes to places ----

  lemma CellsAreProper(mem: Bytes)
    requires |mem| == FLASH_SIZE
    ensures Proper(Cells(mem))
  {
    hide Storable, Sealed, Framed;
    forall i | 0 <= i < PLACES && Cells(mem)[i].Record?
      ensures Cells(mem)[i].state.found && Storable(Cells(mem)[i].state)
    {
      assert Cells(mem)[i] == Classify(mem[PlaceOffset(i)..PlaceOffset(i) + RECORD_SIZE]);
    }
  }

  lemma CellOf(mem: Bytes, k: nat)
    requires |mem| == FLASH_SIZE && k < PLACES
    ensures Cells(mem)[k] == Classify(mem[PlaceOffset(k)..PlaceOffset(k) + RECORD_SIZE])
  {}

  lemma CellUntouched(before: Bytes, after: Bytes, at: nat, n: nat, k: nat)
    requires |before| == FLASH_SIZE && SameOutside(before, after, at, n) && k < PLACES
    requires PlaceOffset(k) + RECORD_SIZE <= at || at + n <= PlaceOffset(k)
    ensures Cells(after)[k] == Cells(before)[k]
  {
    hide Cells, Classify;
    var p := PlaceOffset(k);
    CellOf(before, k);
    CellOf(after, k);
    SameSlice(before, after, p, p + RECORD_SIZE);
  }

  /** A change that stays out of the journal leaves every place alone. */
  lemma JournalUntouched(before: Bytes, after: Bytes, at: nat, n: nat)
    requires |before| == FLASH_SIZE && SameOutside(before, after, at, n)
    requires METADATA_OFFSET + JOURNAL_SIZE <= at || at + n <= METADATA_OFFSET
    ensures Cells(after) == Cells(before)
  {
    forall k | 0 <= k < PLACES
      ensures Cells(after)[k] == Cells(before)[k]
    {
      CellUntouched(before, after, at, n, k);
    }
  }

  lemma ErasedAnd(before: Bytes, data: Bytes)
    requires |before| == |data| && Erased(before)
    ensures NorAnd(before, data) == data
  {
    forall i | 0 <= i < |data|
      ensures before[i] & data[i] == data[i]
    {
      AllOnes(data[i]);
    }
  }

  lemma AllOnes(d: byte)
    ensures 0xFF & d == d
  {}

  lemma RecordAfterProgram(before: Bytes, after: Bytes, state: State, ok: bool)
    requires |before| == |after| == RECORD_SIZE && Erased(before) && Storable(state)
    requires ok ==> after == NorAnd(before, Encode(state))
    requires !ok ==> after == before || after == NorAnd(before, Encode(state)) || Decode(after) == None
    ensures ok ==> after == Encode(state)
    ensures after == Encode(state) ==> Classify(after) == Stored(state)
    ensures Classify(after).Record? ==> Classify(after) == Stored(state)
  {
    hide Encode, Framed, Sealed, Fields, NorAnd;
    ErasedAnd(before, Encode(state));
    RoundTripCell(state);
    ErasedIsNotARecord(before);
  }

  /** Programming a blank place changes that place and no other. */
  lemma ProgramPlace(before: Bytes, after: Bytes, k: nat, state: State, ok: bool)
    requires |before| == FLASH_SIZE && k < PLACES && Storable(state)
    requires Cells(before)[k].Blank?
    requires ProgramEffect(before, after, PlaceOffset(k), Encode(state), ok)
    ensures Cells(after) == Cells(before)[k := Cells(after)[k]]
    ensures ok ==> after[PlaceOffset(k)..PlaceOffset(k) + RECORD_SIZE] == Encode(state)
    ensures after[PlaceOffset(k)..PlaceOffset(k) + RECORD_SIZE] == Encode(state) ==> Cells(after)[k] == Stored(state)
    ensures Cells(after)[k].Record? ==> Cells(after)[k] == Stored(state)
  {
    hide Encode, Classify, Between, NorAnd, Storable, Decode;
    var p := PlaceOffset(k);
    CellOf(before, k);
    CellOf(after, k);
    assert IsPlace(p, RECORD_SIZE);
    RecordAfterProgram(before[p..p + RECORD_SIZE], after[p..p + RECORD_SIZE], state, ok);
    forall i | 0 <= i < PLACES && i != k
      ensures Cells(after)[i] == Cells(before)[i]
    {
      CellUntouched(before, after, p, RECORD_SIZE, i);
    }
  }

  lemma RoundTripCell(state: State)
    requires Storable(state)
    ensures Classify(Encode(state)) == Stored(state)
  {
    RoundTrip(state);
  }

  lemma ErasePlaces(before: Bytes, after: Bytes, sector: nat, ok: bool)
    requires |before| == FLASH_SIZE && sector < SECTOR_COUNT
    requires EraseEffect(before, after, METADATA_OFFSET + sector * SECTOR_SIZE, SECTOR_SIZE, ok)
    ensures Sector(Cells(after), 1 - sector) == Sector(Cells(before), 1 - sector)
    ensures Worn(Sector(Cells(before), sector), Sector(Cells(after), sector))
    ensures ok ==> Sector(Cells(after), sector) == FreshSector(Blank)
  {
    hide Classify;
    var at := METADATA_OFFSET + sector * SECTOR_SIZE;
    var other := 1 - sector;
    var left, kept := Sector(Cells(before), other), Sector(Cells(after), other);
    forall i | 0 <= i < RECORDS_PER_SECTOR
      ensures kept[i] == left[i]
    {
      CellUntouched(before, after, at, SECTOR_SIZE, RECORDS_PER_SECTOR * other + i);
    }
    var was, now := Sector(Cells(before), sector), Sector(Cells(after), sector);
    forall i | 0 <= i < RECORDS_PER_SECTOR
      ensures now[i] == was[i] || !now[i].Record?
      ensures ok ==> now[i] == Blank
    {
      ErasedPlace(before, after, sector, i, ok);
    }
  }

  lemma ErasedInside(mem: Bytes, at: nat, n: nat, i: nat, j: nat)
    requires i <= j <= n && at + n <= |mem| && Erased(mem[at..at + n])
    ensures Erased(mem[at + i..at + j])
  {
    SliceOfSlice(mem, at, n, i, j);
  }

  lemma ErasedPlace(before: Bytes, after: Bytes, sector: nat, i: nat, ok: bool)
    requires |before| == FLASH_SIZE && sector < SECTOR_COUNT && i < RECORDS_PER_SECTOR
    requires EraseEffect(before, after, METADATA_OFFSET + sector * SECTOR_SIZE, SECTOR_SIZE, ok)
    ensures var k := RECORDS_PER_SECTOR * sector + i;
      && (Cells(after)[k] == Cells(before)[k] || !Cells(after)[k].Record?)
      && (ok ==> Cells(after)[k] == Blank)
  {
    hide Decode;
    var at := METADATA_OFFSET + sector * SECTOR_SIZE;
    var k := RECORDS_PER_SECTOR * sector + i;
    var place := after[PlaceOffset(k)..PlaceOffset(k) + RECORD_SIZE];
    CellOf(after, k);
    PlaceAt(sector, i);
    if ok { ErasedInside(after, at, SECTOR_SIZE, RECORD_SIZE * i, RECORD_SIZE * i + RECORD_SIZE); }
  }

  // ---- The driver ----

  /** read_record */
  method ReadRecord(nor: Flash, sector: nat, offset: nat) returns (status: Status, record: Bytes)
    requires nor.Valid() && sector < SECTOR_COUNT && offset < SECTOR_SIZE && offset % RECORD_SIZE == 0
    modifies nor`powered
    ensures nor.Failed(status == Ok, true)
    ensures status == Ok || status == BackendError
    ensures status == Ok ==>
      var at := METADATA_OFFSET + sector * SECTOR_SIZE + offset;
      |record| == RECORD_SIZE && record == nor.mem[at..at + RECORD_SIZE]
  {
    var ok, data := nor.Read(RecordAddress(sector, offset), RECORD_SIZE);
    if !ok { return BackendError, []; }
    return Ok, data;
  }

  lemma SectorCell(mem: Bytes, sector: nat, i: nat)
    requires |mem| == FLASH_SIZE && sector < SECTOR_COUNT && i < RECORDS_PER_SECTOR
    ensures var at := METADATA_OFFSET + sector * SECTOR_SIZE + RECORD_SIZE * i;
      Sector(Cells(mem), sector)[i] == Classify(mem[at..at + RECORD_SIZE])
  {
    hide Classify, Cells;
    var k := RECORDS_PER_SECTOR * sector + i;
    CellOf(mem, k);
    PlaceAt(sector, i);
    assert Sector(Cells(mem), sector)[i] == Cells(mem)[k];
  }

  lemma PlaceAt(sector: nat, i: nat)
    ensures PlaceOffset(RECORDS_PER_SECTOR * sector + i) == METADATA_OFFSET + sector * SECTOR_SIZE + RECORD_SIZE * i
  {}

  /** find_append_offset: byte offset of the first blank record of a sector. */
  method FindAppendOffset(nor: Flash, sector: nat) returns (status: Status, appendOffset: nat)
    requires nor.Valid() && sector < SECTOR_COUNT
    modifies nor`powered
    ensures nor.Failed(status == Ok, true)
    ensures status == Ok || status == BackendError
    ensures status == Ok ==> appendOffset == RECORD_SIZE * FirstBlank(Sector(Cells(nor.mem), sector))
  {
    hide Classify, CellsAt, Cells, FirstBlank;
    appendOffset := 0;
    ghost var cells := Sector(Cells(nor.mem), sector);
    ghost var i := 0;
    while appendOffset < SECTOR_SIZE
      invariant appendOffset == RECORD_SIZE * i && i <= RECORDS_PER_SECTOR
      invariant forall j :: 0 <= j < i ==> !cells[j].Blank?
      invariant nor.Failed(nor.powered, true)
      invariant i > 0 ==> nor.powered
    {
      var record;
      status, record := ReadRecord(nor, sector, appendOffset);
      if status != Ok { return; }
      var erased := BytesAreErased(record);
      SectorCell(nor.mem, sector, i);
      if erased { return; }
      appendOffset := appendOffset + RECORD_SIZE;
      i := i + 1;
    }
    status := Ok;
  }

  /** boot_journal_load: one record at a time over both sectors. */
  method Load(nor: Flash) returns (status: Status, state: State, location: Location)
    requires nor.Valid()
    modifies nor`powered
    ensures nor.Failed(status == Ok, true)
    ensures status == Ok || status == BackendError
    ensures status == Ok ==>
      && state == Newest(Cells(nor.mem))
      && location.found == state.found
      && (location.found ==> Locates(location, NewestPlace(Cells(nor.mem))))
  {
    hide Decode, Classify;
    ghost var cells := Cells(nor.mem);
    CellsAreProper(nor.mem);
    var newest := DEFAULT;
    var newestLocation := Location(0, 0, false);
    var sector := 0;
    ghost var n := 0;
    while sector < SECTOR_COUNT
      invariant sector <= SECTOR_COUNT && n == RECORDS_PER_SECTOR * sector
      invariant nor.Failed(nor.powered, true)
      invariant n > 0 ==> nor.powered
      invariant Scanned(cells, n, newest, newestLocation)
    {
      var offset := 0;
      while offset < SECTOR_SIZE
        invariant offset <= SECTOR_SIZE && offset % RECORD_SIZE == 0
        invariant n == RECORDS_PER_SECTOR * sector + offset / RECORD_SIZE
        invariant nor.Failed(nor.powered, true)
        invariant n > 0 ==> nor.powered
        invariant Scanned(cells, n, newest, newestLocation)
      {
        var record;
        status, record := ReadRecord(nor, sector, offset);
        if status != Ok { return status, DEFAULT, newestLocation; }
        var ok, candidate := RecordDecode(record);
        CellOf(nor.mem, n);
        ScanOne(cells, n, newest, newestLocation, sector, offset);
        if ok && (!newestLocation.found || Newer(candidate.sequence, newest.sequence)) {
          newest := candidate;
          newestLocation := Location(sector, offset, true);
        }
        offset := offset + RECORD_SIZE;
        n := n + 1;
      }
      sector := sector + 1;
    }
    assert cells[..PLACES] == cells;
    return Ok, newest, newestLocation;
  }

  ghost predicate Scanned(cells: seq<Cell>, n: nat, newest: State, location: Location) {
    && n <= |cells|
    && newest == Newest(cells[..n])
    && location.found == newest.found
    && (location.found ==> Locates(location, NewestPlace(cells[..n])))
  }

  lemma ScanOne(cells: seq<Cell>, n: nat, newest: State, location: Location, sector: nat, offset: nat)
    requires Proper(cells) && n < |cells| && Scanned(cells, n, newest, location)
    requires sector < SECTOR_COUNT && offset < SECTOR_SIZE && offset % RECORD_SIZE == 0
    requires n == RECORDS_PER_SECTOR * sector + offset / RECORD_SIZE
    ensures
      if cells[n].Record? && (!newest.found || Newer(cells[n].state.sequence, newest.sequence))
      then Scanned(cells, n + 1, cells[n].state, Location(sector, offset, true))
      else Scanned(cells, n + 1, newest, location)
  {
    assert cells[..n + 1][..n] == cells[..n];
  }

  /** verify_record */
  method VerifyRecord(nor: Flash, sector: nat, offset: nat, expected: Bytes) returns (status: Status)
    requires nor.Valid() && sector < SECTOR_COUNT && offset < SECTOR_SIZE && offset % RECORD_SIZE == 0
    requires |expected| == RECORD_SIZE
    modifies nor`powered
    ensures nor.Failed(status != BackendError, true)
    ensures status == Ok || status == BackendError || status == VerifyFailed
    ensures var at := METADATA_OFFSET + sector * SECTOR_SIZE + offset;
      status != BackendError ==>
        (status == Ok <==> nor.mem[at..at + RECORD_SIZE] == expected && Decode(expected).Some?)
  {
    hide Framed, Sealed;
    var actual;
    status, actual := ReadRecord(nor, sector, offset);
    if status != Ok { return; }
    var equal := BytesEqual(actual, expected);
    var ok, _ := RecordDecode(actual);
    if !equal || !ok { return VerifyFailed; }
    return Ok;
  }

  /** program_record: programming counts as done only when it reads back. */
  method ProgramRecord(nor: Flash, sector: nat, offset: nat, ghost state: State, record: Bytes) returns (status: Status)
    requires nor.Valid() && sector < SECTOR_COUNT && offset < SECTOR_SIZE && offset % RECORD_SIZE == 0
    requires Storable(state) && record == Encode(state)
    requires Cells(nor.mem)[RECORDS_PER_SECTOR * sector + offset / RECORD_SIZE].Blank?
    modifies nor
    ensures nor.Valid() && nor.Failed(status == Ok, true)
    ensures status == Ok || status == BackendError || status == VerifyFailed
    ensures SameOutside(old(nor.mem), nor.mem, METADATA_OFFSET + sector * SECTOR_SIZE + offset, RECORD_SIZE)
    ensures var k := RECORDS_PER_SECTOR * sector + offset / RECORD_SIZE;
      && Cells(nor.mem) == Cells(old(nor.mem))[k := Cells(nor.mem)[k]]
      && (Cells(nor.mem)[k].Record? ==> Cells(nor.mem)[k] == Stored(state))
      && (status == Ok ==> Cells(nor.mem)[k] == Stored(state))
      && nor.log == old(nor.log) + if old(nor.powered) then [ProgramOp(PlaceOffset(k), record, true)] else []
  {
    hide Decode, Encode, Classify, Storable, CellsAt, Cells, ProgramEffect;
    var k := RECORDS_PER_SECTOR * sector + offset / RECORD_SIZE;
    ghost var before := nor.mem;
    CellOf(before, k);
    var programmed := nor.Program(RecordAddress(sector, offset), record);
    if old(nor.powered) {
      ProgramPlace(before, nor.mem, k, state, programmed);
    }
    RoundTrip(state);
    var verified := VerifyRecord(nor, sector, offset, record);
    if verified == Ok { return Ok; }
    if !programmed { return BackendError; }
    return verified;
  }

  predicate InJournal(at: nat, n: nat) { METADATA_OFFSET <= at && at + n <= METADATA_OFFSET + JOURNAL_SIZE }

  /** The calls a store issues stay in the journal and program blank places only. */
  predicate Disciplined(ops: seq<Op>) {
    forall i :: 0 <= i < |ops| ==>
      match ops[i]
      case EraseOp(at, n) => InJournal(at, n)
      case ProgramOp(at, data, blank) => blank && InJournal(at, |data|)
  }

  function Erases(ops: seq<Op>): nat {
    if ops == [] then 0 else Erases(ops[..|ops| - 1]) + if ops[|ops| - 1].EraseOp? then 1 else 0
  }

  function Programs(ops: seq<Op>): nat {
    if ops == [] then 0 else Programs(ops[..|ops| - 1]) + if ops[|ops| - 1].ProgramOp? then 1 else 0
  }

  /** The log after a store that met no fault. */
  function CleanStore(cells: seq<Cell>, state: State): (after: seq<Cell>)
    requires |cells| == PLACES
    ensures |after| == PLACES
  {
    var a := ActiveSector(cells);
    var first := FirstBlank(Sector(cells, a));
    if first < RECORDS_PER_SECTOR then cells[RECORDS_PER_SECTOR * a + first := Stored(state)]
    else if a == 0 then FreshSector(Blank) + FreshSector(Stored(state))
    else FreshSector(Stored(state)) + FreshSector(Blank)
  }

  /** A state the log does not already end with and is not too old for. */
  predicate Advances(cells: seq<Cell>, state: State)
    requires |cells| == PLACES
  {
    var current := Newest(cells);
    Storable(state) && (current.found ==> !StateEqual(state, current) && Newer(state.sequence, current.sequence))
  }

  /** Calls of a fault-free store that changes the state. */
  function StoreErases(cells: seq<Cell>): nat
    requires |cells| == PLACES
  {
    if FirstBlank(Sector(cells, ActiveSector(cells))) < RECORDS_PER_SECTOR then 0 else 2
  }

  ghost predicate StoreCalls(cells: seq<Cell>, state: State, ops: seq<Op>, reliable: bool)
    requires |cells| == PLACES
  {
    && Disciplined(ops)
    && (!Advances(cells, state) ==> ops == [])
    && (reliable && Advances(cells, state) ==> Programs(ops) == 1 && Erases(ops) == StoreErases(cells))
  }

  lemma ActiveSectorOf(cells: seq<Cell>, sector: nat, location: Location)
    requires |cells| == PLACES && location.found == Newest(cells).found
    requires location.found ==> Locates(location, NewestPlace(cells))
    requires sector == if location.found then location.sector else 0
    ensures ActiveSector(cells) == sector
  {}

  /** The rotation of boot_journal_store: erase the other sector, start it with
      the new record, and only then clean the full one. */
  method Rotate(nor: Flash, activeSector: nat, state: State, encoded: Bytes) returns (status: Status)
    requires nor.Valid() && nor.powered
    requires Storable(state) && encoded == Encode(state)
    requires activeSector == ActiveSector(Cells(nor.mem))
    requires FirstBlank(Sector(Cells(nor.mem), activeSector)) == RECORDS_PER_SECTOR
    modifies nor
    ensures nor.Valid()
    ensures Rotated(Cells(old(nor.mem)), state, Cells(nor.mem), status)
    ensures SameOutside(old(nor.mem), nor.mem, METADATA_OFFSET, JOURNAL_SIZE)
    ensures status == Ok || status == BackendError || status == VerifyFailed
    ensures status != Ok && nor.powered ==> nor.faults == Errors
    ensures nor.faults == Reliable ==> nor.powered
    ensures old(nor.log) <= nor.log && Disciplined(nor.log[|old(nor.log)|..])
    ensures nor.faults == Reliable ==>
      && Programs(nor.log[|old(nor.log)|..]) == 1
      && Erases(nor.log[|old(nor.log)|..]) == StoreErases(Cells(old(nor.mem)))
      && status == Ok && Cells(nor.mem) == CleanStore(Cells(old(nor.mem)), state)
  {
    hide Decode, Encode, Classify, Storable, Newest, NewestPlace, FirstBlank;
    var targetSector := 1 - activeSector;
    var targetAddress := METADATA_ADDRESS + targetSector * SECTOR_SIZE;
    var oldAddress := METADATA_ADDRESS + activeSector * SECTOR_SIZE;
    ghost var mem0, log0 := nor.mem, nor.log;
    var erased := nor.Erase(targetAddress, SECTOR_SIZE);
    ErasePlaces(mem0, nor.mem, targetSector, erased);
    ghost var op1 := EraseOp(METADATA_OFFSET + targetSector * SECTOR_SIZE, SECTOR_SIZE);
    assert nor.log[|log0|..] == [op1];
    if !erased { return BackendError; }

    ghost var mem1 := nor.mem;
    assert Cells(mem1)[RECORDS_PER_SECTOR * targetSector] == Sector(Cells(mem1), targetSector)[0];
    status := ProgramRecord(nor, targetSector, 0, state, encoded);
    ghost var mem2 := nor.mem;
    ghost var op2 := ProgramOp(PlaceOffset(RECORDS_PER_SECTOR * targetSector), encoded, true);
    assert nor.log[|log0|..] == [op1, op2];
    ghost var c := Cells(mem2)[RECORDS_PER_SECTOR * targetSector];
    assert Sector(Cells(mem2), targetSector) == FreshSector(c);
    assert Sector(Cells(mem2), activeSector) == Sector(Cells(mem0), activeSector);
    if status != Ok { return; }

    var cleaned := nor.Erase(oldAddress, SECTOR_SIZE);
    ErasePlaces(mem2, nor.mem, activeSector, cleaned);
    ghost var op3 := EraseOp(METADATA_OFFSET + activeSector * SECTOR_SIZE, SECTOR_SIZE);
    assert nor.log[|log0|..] == [op1, op2, op3];
    CountThree(op1, op2, op3);
    if cleaned { TwoSectors(Cells(nor.mem), targetSector, Stored(state)); }
    return Ok;
  }

  lemma TwoSectors(cells: seq<Cell>, t: nat, c: Cell)
    requires |cells| == PLACES && t < SECTOR_COUNT
    requires Sector(cells, t) == FreshSector(c) && Sector(cells, 1 - t) == FreshSector(Blank)
    ensures cells == if t == 0 then FreshSector(c) + FreshSector(Blank) else FreshSector(Blank) + FreshSector(c)
  {
    assert cells == Sector(cells, 0) + Sector(cells, 1);
  }

  lemma CountThree(op1: Op, op2: Op, op3: Op)
    requires op1.EraseOp? && op2.ProgramOp? && op3.EraseOp?
    ensures Programs([op1, op2, op3]) == 1 && Erases([op1, op2, op3]) == 2
  {
    assert [op1][..0] == [];
    assert Programs([op1]) == 0 && Erases([op1]) == 1;
    assert [op1, op2][..1] == [op1];
    assert Programs([op1, op2]) == 1 && Erases([op1, op2]) == 1;
    assert [op1, op2, op3][..2] == [op1, op2];
  }

  /** The part of boot_journal_store after its checks. */
  method Advance(nor: Flash, activeSector: nat, state: State, encoded: Bytes) returns (status: Status)
    requires nor.Valid() && nor.powered
    requires Storable(state) && encoded == Encode(state)
    requires activeSector == ActiveSector(Cells(nor.mem))
    modifies nor
    ensures nor.Valid()
    ensures status == Ok || status == BackendError || status == VerifyFailed
    ensures
      || (status == BackendError && nor.mem == old(nor.mem))
      || Appended(Cells(old(nor.mem)), state, Cells(nor.mem), status)
      || Rotated(Cells(old(nor.mem)), state, Cells(nor.mem), status)
    ensures SameOutside(old(nor.mem), nor.mem, METADATA_OFFSET, JOURNAL_SIZE)
    ensures status != Ok && nor.powered ==> nor.faults == Errors
    ensures old(nor.log) <= nor.log && Disciplined(nor.log[|old(nor.log)|..])
    ensures nor.faults == Reliable ==>
      && nor.powered && status == Ok
      && Programs(nor.log[|old(nor.log)|..]) == 1
      && Erases(nor.log[|old(nor.log)|..]) == StoreErases(Cells(old(nor.mem)))
      && Cells(nor.mem) == CleanStore(Cells(old(nor.mem)), state)
  {
    hide Decode, Encode, Classify, Storable, Newest, ActiveSector, FirstBlank, Appended, Rotated, CleanStore, StoreErases, Disciplined, Sector;
    ghost var cells, log0 := Cells(nor.mem), nor.log;
    assert log0[|log0|..] == [];
    NoCalls();
    var appendOffset;
    status, appendOffset := FindAppendOffset(nor, activeSector);
    if status != Ok { return; }
    if appendOffset < SECTOR_SIZE {
      PlaceIsBlank(cells, activeSector, appendOffset);
      status := ProgramRecord(nor, activeSector, appendOffset, state, encoded);
      ghost var k := RECORDS_PER_SECTOR * activeSector + appendOffset / RECORD_SIZE;
      assert nor.log[|log0|..] == [ProgramOp(PlaceOffset(k), encoded, true)];
      OneProgram(k, encoded);
      IsAppended(cells, state, Cells(nor.mem), status, k, Cells(nor.mem)[k]);
      return;
    }
    status := Rotate(nor, activeSector, state, encoded);
  }

  /** boot_journal_store */
  method Store(nor: Flash, state: State) returns (status: Status)
    requires nor.Valid()
    modifies nor
    ensures nor.Valid()
    ensures StoreEffect(Cells(old(nor.mem)), state, Cells(nor.mem), status)
    ensures SameOutside(old(nor.mem), nor.mem, METADATA_OFFSET, JOURNAL_SIZE)
    ensures !old(nor.powered) ==> !nor.powered && nor.mem == old(nor.mem)
    ensures (status == BackendError || status == VerifyFailed) && nor.powered ==> nor.faults == Errors
    ensures nor.faults == Reliable ==> nor.powered == old(nor.powered)
    ensures old(nor.log) <= nor.log
    ensures StoreCalls(Cells(old(nor.mem)), state, nor.log[|old(nor.log)|..], nor.faults == Reliable && old(nor.powered))
    ensures nor.faults == Reliable && old(nor.powered) && Advances(Cells(old(nor.mem)), state) ==>
      status == Ok && Cells(nor.mem) == CleanStore(Cells(old(nor.mem)), state)
  {
    hide Decode, Encode, Classify, Storable, Newest, ActiveSector, FirstBlank, Appended, Rotated, CleanStore, StoreErases, Disciplined, Sector, Newer;
    ghost var cells, log0 := Cells(nor.mem), nor.log;
    NoCalls();
    assert log0[|log0|..] == [];
    var encoded := RecordEncode(state);
    var valid, validated := RecordDecode(encoded);
    RoundTrip(state);
    if !valid || !StateEqual(state, validated) { return InvalidState; }

    var current, location;
    status, current, location := Load(nor);
    if status != Ok { return; }
    var activeSector := 0;
    if location.found {
      if StateEqual(state, current) { return Ok; }
      if !Newer(state.sequence, current.sequence) { return StaleSequence; }
      activeSector := location.sector;
    }
    ActiveSectorOf(cells, activeSector, location);
    status := Advance(nor, activeSector, state, encoded);
  }

  lemma NoCalls()
    ensures Disciplined([]) && Programs([]) == 0 && Erases([]) == 0
  {}

  lemma PlaceIsBlank(cells: seq<Cell>, sector: nat, offset: nat)
    requires |cells| == PLACES && sector < SECTOR_COUNT && offset < SECTOR_SIZE
    requires offset == RECORD_SIZE * FirstBlank(Sector(cells, sector))
    ensures cells[RECORDS_PER_SECTOR * sector + offset / RECORD_SIZE].Blank?
  {
    assert Sector(cells, sector)[offset / RECORD_SIZE].Blank?;
  }

  lemma OneProgram(k: nat, record: Bytes)
    requires k < PLACES && |record| == RECORD_SIZE
    ensures var ops := [ProgramOp(PlaceOffset(k), record, true)];
      Disciplined(ops) && Programs(ops) == 1 && Erases(ops) == 0
  {
    var ops := [ProgramOp(PlaceOffset(k), record, true)];
    assert ops[..0] == [];
  }

  lemma IsAppended(cells: seq<Cell>, state: State, after: seq<Cell>, status: Status, k: nat, c: Cell)
    requires |cells| == PLACES
    requires FirstBlank(Sector(cells, ActiveSector(cells))) < RECORDS_PER_SECTOR
    requires k == RECORDS_PER_SECTOR * ActiveSector(cells) + FirstBlank(Sector(cells, ActiveSector(cells))) < PLACES
    requires after == cells[k := c]
    requires c.Record? ==> c == Stored(state)
    requires status == Ok ==> c == Stored(state)
    ensures Appended(cells, state, after, status)
    ensures status == Ok ==> after == CleanStore(cells, state)
    ensures StoreErases(cells) == 0
  {
    var a := ActiveSector(cells);
    var first := FirstBlank(Sector(cells, a));
    assert Fills(cells, RECORDS_PER_SECTOR * a + first, c, state, after, status);
  }
}
