/** What the journal guarantees over any run of stores, however they are cut off. */
module JournalProofs {
  import opened Words
  import opened BootState
  import opened Nor
  import opened Journal

  // ---- The order of sequence numbers ----

  lemma DistanceAdds(x: uint32, y: uint32, z: uint32)
    requires Distance(x, y) + Distance(y, z) < WORD
    ensures Distance(x, z) == Distance(x, y) + Distance(y, z)
  {}

  lemma NewerIsOneWay(earlier: uint32, later: uint32)
    requires 1 <= Distance(earlier, later) < 0x8000_0000
    ensures Newer(later, earlier) && !Newer(earlier, later)
  {}

  /** A record that is newer than every other one is what the scan returns,
      wherever in the log it stands. */
  lemma {:induction false} DominantIsNewest(cells: seq<Cell>, k: nat)
    requires Proper(cells) && k < |cells| && cells[k].Record?
    requires forall i :: 0 <= i < |cells| && i != k && cells[i].Record? ==>
      Newer(cells[k].state.sequence, cells[i].state.sequence)
      && !Newer(cells[i].state.sequence, cells[k].state.sequence)
    ensures Newest(cells) == cells[k].state && NewestPlace(cells) == k
  {
    var n := |cells| - 1;
    var rest := cells[..n];
    assert forall i :: 0 <= i < n ==> rest[i] == cells[i];
    if k < n {
      DominantIsNewest(rest, k);
    } else {
      if Newest(rest).found { assert cells[NewestPlace(rest)].state == Newest(rest); }
    }
  }

  /** Journal read theorem: with distinct sequences inside one half-range window
      above some base, the scan returns the record farthest above the base. */
  lemma NewestIsWindowMaximum(cells: seq<Cell>, base: uint32, k: nat)
    requires Proper(cells) && k < |cells| && cells[k].Record?
    requires forall i :: 0 <= i < |cells| && cells[i].Record? ==> Distance(base, cells[i].state.sequence) < 0x8000_0000
    requires forall i :: 0 <= i < |cells| && i != k && cells[i].Record? ==>
      cells[i].state.sequence != cells[k].state.sequence
    requires forall i :: 0 <= i < |cells| && cells[i].Record? ==>
      Distance(base, cells[i].state.sequence) <= Distance(base, cells[k].state.sequence)
    ensures Newest(cells) == cells[k].state && NewestPlace(cells) == k
  {
    forall i | 0 <= i < |cells| && i != k && cells[i].Record?
      ensures Newer(cells[k].state.sequence, cells[i].state.sequence)
      ensures !Newer(cells[i].state.sequence, cells[k].state.sequence)
    {
      DistanceSplits(base, cells[i].state.sequence, cells[k].state.sequence);
      NewerIsOneWay(cells[i].state.sequence, cells[k].state.sequence);
    }
    DominantIsNewest(cells, k);
  }

  lemma DistanceSplits(base: uint32, x: uint32, y: uint32)
    requires Distance(base, x) <= Distance(base, y) && x != y
    ensures Distance(x, y) == Distance(base, y) - Distance(base, x) > 0
  {}

  lemma {:induction false} NothingFound(cells: seq<Cell>)
    requires forall i :: 0 <= i < |cells| ==> !cells[i].Record?
    ensures Newest(cells) == DEFAULT
  {
    if cells != [] {
      assert forall i :: 0 <= i < |cells| - 1 ==> cells[..|cells| - 1][i] == cells[i];
      NothingFound(cells[..|cells| - 1]);
    }
  }

  // ---- The invariant of the log ----

  /** The longest sequence step a caller may take. 255 such steps, the most two
      sectors can hold behind the newest record, stay inside a half range. */
  const MAX_STEP: nat := 8_421_504

  ghost predicate Behind(cell: Cell, top: State, bound: nat) {
    cell.Record? ==> 1 <= Distance(cell.state.sequence, top.sequence) <= bound
  }

  /** The newest record is number q of sector a; older ones trail it by place. */
  ghost predicate Placed(cells: seq<Cell>, a: nat, q: nat)
    requires |cells| == PLACES
  {
    && a < SECTOR_COUNT && q < RECORDS_PER_SECTOR
    && var live, stale := Sector(cells, a), Sector(cells, 1 - a);
    && live[q].Record?
    && (forall p :: 0 <= p < q ==> !live[p].Blank? && Behind(live[p], live[q].state, MAX_STEP * (q - p)))
    && (forall p :: q < p < RECORDS_PER_SECTOR ==> !live[p].Record?)
    && (forall p :: 0 <= p < RECORDS_PER_SECTOR ==>
          Behind(stale[p], live[q].state, MAX_STEP * (q + RECORDS_PER_SECTOR - p)))
  }

  ghost predicate Empty(cells: seq<Cell>) { forall i :: 0 <= i < |cells| ==> !cells[i].Record? }

  ghost predicate Intact(cells: seq<Cell>) {
    && |cells| == PLACES
    && Proper(cells)
    && (Empty(cells) || exists a, q :: Placed(cells, a, q))
  }

  lemma PlacedIsNewest(cells: seq<Cell>, a: nat, q: nat)
    requires |cells| == PLACES && Proper(cells) && Placed(cells, a, q)
    ensures Newest(cells) == Sector(cells, a)[q].state
    ensures NewestPlace(cells) == RECORDS_PER_SECTOR * a + q
    ensures ActiveSector(cells) == a
    ensures Newest(cells).found
  {
    var k := RECORDS_PER_SECTOR * a + q;
    assert Sector(cells, a)[q] == cells[k];
    forall i | 0 <= i < |cells| && i != k && cells[i].Record?
      ensures Newer(cells[k].state.sequence, cells[i].state.sequence)
      ensures !Newer(cells[i].state.sequence, cells[k].state.sequence)
    {
      PlacedTrails(cells, a, q, i);
    }
    hide Newest, NewestPlace, Placed, Sector, Newer;
    DominantIsNewest(cells, k);
  }

  lemma PlacedTrails(cells: seq<Cell>, a: nat, q: nat, i: nat)
    requires |cells| == PLACES && Placed(cells, a, q)
    requires i < PLACES && i != RECORDS_PER_SECTOR * a + q && cells[i].Record?
    ensures var top := Sector(cells, a)[q].state.sequence;
      Newer(top, cells[i].state.sequence) && !Newer(cells[i].state.sequence, top)
  {
    var top := Sector(cells, a)[q].state.sequence;
    if i / RECORDS_PER_SECTOR == a {
      assert Sector(cells, a)[i - RECORDS_PER_SECTOR * a] == cells[i];
    } else {
      assert Sector(cells, 1 - a)[i - RECORDS_PER_SECTOR * (1 - a)] == cells[i];
    }
    NewerIsOneWay(cells[i].state.sequence, top);
  }

  // ---- One store ----

  /** The step a caller must take for the order to stay usable. */
  ghost predicate StepOk(cells: seq<Cell>, state: State)
    requires |cells| == PLACES
  {
    var current := Newest(cells);
    Advances(cells, state) && current.found ==> Distance(current.sequence, state.sequence) <= MAX_STEP
  }

  lemma Trails(cell: Cell, top: State, next: State, bound: nat)
    requires Behind(cell, top, bound) && bound + MAX_STEP < WORD
    requires 1 <= Distance(top.sequence, next.sequence) <= MAX_STEP
    ensures Behind(cell, next, bound + MAX_STEP)
  {
    if cell.Record? { DistanceAdds(cell.state.sequence, top.sequence, next.sequence); }
  }

  /** Appending after the newest record. */
  lemma AppendPlaced(cells: seq<Cell>, a: nat, q: nat, f: nat, state: State, after: seq<Cell>)
    requires |cells| == |after| == PLACES && Proper(cells) && Placed(cells, a, q)
    requires f == FirstBlank(Sector(cells, a)) < RECORDS_PER_SECTOR
    requires after == cells[RECORDS_PER_SECTOR * a + f := Stored(state)] && Storable(state)
    requires 1 <= Distance(Sector(cells, a)[q].state.sequence, state.sequence) <= MAX_STEP
    ensures Placed(after, a, f)
    ensures Sector(after, a)[f].state == state.(found := true)
  {
    var live, stale := Sector(cells, a), Sector(cells, 1 - a);
    var live', stale' := Sector(after, a), Sector(after, 1 - a);
    var top, next := live[q].state, state.(found := true);
    assert f > q;
    assert stale' == stale;
    assert live' == live[f := Stored(state)];
    forall p | 0 <= p < f
      ensures !live'[p].Blank? && Behind(live'[p], next, MAX_STEP * (f - p))
    {
      if p < q { Trails(live[p], top, next, MAX_STEP * (q - p)); }
    }
    forall p | 0 <= p < RECORDS_PER_SECTOR
      ensures Behind(stale'[p], next, MAX_STEP * (f + RECORDS_PER_SECTOR - p))
    {
      Trails(stale[p], top, next, MAX_STEP * (q + RECORDS_PER_SECTOR - p));
    }
  }

  /** Starting the other sector with the newest record. */
  lemma RotatePlaced(cells: seq<Cell>, a: nat, q: nat, state: State, after: seq<Cell>)
    requires |cells| == |after| == PLACES && Proper(cells) && Placed(cells, a, q)
    requires Sector(after, 1 - a) == FreshSector(Stored(state)) && Storable(state)
    requires Worn(Sector(cells, a), Sector(after, a))
    requires 1 <= Distance(Sector(cells, a)[q].state.sequence, state.sequence) <= MAX_STEP
    ensures Placed(after, 1 - a, 0)
    ensures Sector(after, 1 - a)[0].state == state.(found := true)
  {
    var live, live' := Sector(cells, a), Sector(after, a);
    var top, next := live[q].state, state.(found := true);
    var other := 1 - a;
    assert Sector(after, 1 - other) == live';
    forall p | 0 <= p < RECORDS_PER_SECTOR
      ensures Behind(live'[p], next, MAX_STEP * (RECORDS_PER_SECTOR - p))
    {
      if live'[p] == live[p] && live[p].Record? && p < q {
        Trails(live[p], top, next, MAX_STEP * (q - p));
      }
    }
  }

  /** A failed attempt that left the newest record alone. */
  lemma StalePlaced(cells: seq<Cell>, a: nat, q: nat, after: seq<Cell>)
    requires |cells| == |after| == PLACES && Placed(cells, a, q)
    requires Sector(after, a) == Sector(cells, a)
    requires Worn(Sector(cells, 1 - a), Sector(after, 1 - a))
    ensures Placed(after, a, q)
  {
    var stale, stale' := Sector(cells, 1 - a), Sector(after, 1 - a);
    assert forall p :: 0 <= p < RECORDS_PER_SECTOR && stale'[p].Record? ==> stale'[p] == stale[p];
  }

  lemma DamagedAppendPlaced(cells: seq<Cell>, a: nat, q: nat, f: nat, c: Cell, after: seq<Cell>)
    requires |cells| == |after| == PLACES && Placed(cells, a, q)
    requires f == FirstBlank(Sector(cells, a)) < RECORDS_PER_SECTOR
    requires after == cells[RECORDS_PER_SECTOR * a + f := c] && !c.Record?
    ensures Placed(after, a, q)
  {
    assert f > q;
    assert Sector(after, 1 - a) == Sector(cells, 1 - a);
    assert Sector(after, a) == Sector(cells, a)[f := c];
  }

  lemma EmptyAppend(cells: seq<Cell>, f: nat, c: Cell, after: seq<Cell>)
    requires |cells| == |after| == PLACES && Empty(cells)
    requires f == FirstBlank(Sector(cells, 0)) < RECORDS_PER_SECTOR && after == cells[f := c]
    ensures if c.Record? then Placed(after, 0, f) && Sector(after, 0)[f] == c else Empty(after)
  {
    assert Sector(after, 0) == Sector(cells, 0)[f := c];
    assert Sector(after, 1 - 0) == Sector(cells, 1);
  }

  lemma EmptyRotate(cells: seq<Cell>, c: Cell, after: seq<Cell>)
    requires |cells| == |after| == PLACES && Empty(cells)
    requires Sector(after, 1) == FreshSector(c) && Worn(Sector(cells, 0), Sector(after, 0))
    ensures if c.Record? then Placed(after, 1, 0) && Sector(after, 1)[0] == c else Empty(after)
  {
    var live, stale := Sector(after, 1), Sector(after, 0);
    assert forall p :: 0 <= p < RECORDS_PER_SECTOR ==> !stale[p].Record?;
    forall i | 0 <= i < PLACES
      ensures after[i] == if i < RECORDS_PER_SECTOR then stale[i] else live[i - RECORDS_PER_SECTOR]
    {}
    assert Sector(after, 1 - 1) == stale;
  }

  lemma NotRecordsInSectors(cells: seq<Cell>)
    requires |cells| == PLACES
    requires forall p :: 0 <= p < RECORDS_PER_SECTOR ==> !Sector(cells, 0)[p].Record?
    requires forall p :: 0 <= p < RECORDS_PER_SECTOR ==> !Sector(cells, 1)[p].Record?
    ensures Empty(cells)
  {
    forall i | 0 <= i < PLACES ensures !cells[i].Record? {
      if i < RECORDS_PER_SECTOR {
        assert !Sector(cells, 0)[i].Record?;
      } else {
        assert !Sector(cells, 1)[i - RECORDS_PER_SECTOR].Record?;
      }
    }
  }

  ghost predicate Atomic(cells: seq<Cell>, state: State, after: seq<Cell>, status: Status) {
    && Intact(after)
    && (Newest(after) == Newest(cells) || Newest(after) == state.(found := true))
    && (status == Ok ==> Newest(after) == state.(found := true))
    && (Newest(cells).found ==> Newest(after).found)
  }

  lemma EmptyStore(cells: seq<Cell>, state: State, after: seq<Cell>, status: Status)
    requires |cells| == |after| == PLACES && Proper(cells) && Proper(after) && Empty(cells) && Storable(state)
    requires Appended(cells, state, after, status) || Rotated(cells, state, after, status)
    ensures Atomic(cells, state, after, status)
  {
    hide Newest, FirstBlank, NewestPlace, Storable, Placed;
    NothingFound(cells);
    var a := ActiveSector(cells);
    assert a == 0;
    if Appended(cells, state, after, status) {
      var f := FirstBlank(Sector(cells, a));
      var c: Cell :| Fills(cells, RECORDS_PER_SECTOR * a + f, c, state, after, status);
      EmptyAppend(cells, f, c, after);
      if c.Record? { PlacedIsNewest(after, 0, f); } else { NothingFound(after); }
    } else if status == Ok {
      EmptyRotate(cells, Stored(state), after);
      PlacedIsNewest(after, 1, 0);
    } else if Worn(Sector(cells, 1), Sector(after, 1)) {
      NotRecordsInSectors(after);
      NothingFound(after);
    } else {
      var c: Cell :| Sector(after, 1) == FreshSector(c) && (c.Record? ==> c == Stored(state));
      EmptyRotate(cells, c, after);
      if c.Record? { PlacedIsNewest(after, 1, 0); } else { NothingFound(after); }
    }
  }

  lemma PlacedBounds(cells: seq<Cell>, a: nat, q: nat)
    requires |cells| == PLACES && Placed(cells, a, q)
    ensures a <= 1 && q < RECORDS_PER_SECTOR
  {}

  lemma PlacedAppend(cells: seq<Cell>, a: nat, q: nat, state: State, after: seq<Cell>, status: Status)
    requires |cells| == |after| == PLACES && Proper(cells) && Proper(after) && Placed(cells, a, q) && Storable(state)
    requires 1 <= Distance(Newest(cells).sequence, state.sequence) <= MAX_STEP
    requires Appended(cells, state, after, status)
    ensures Atomic(cells, state, after, status)
  {
    hide Newest, FirstBlank, NewestPlace, Storable, Placed, ActiveSector, Distance, Sector;
    PlacedBounds(cells, a, q);
    PlacedIsNewest(cells, a, q);
    var f := FirstBlank(Sector(cells, a));
    var c: Cell :| Fills(cells, RECORDS_PER_SECTOR * a + f, c, state, after, status);
    if c.Record? {
      AppendPlaced(cells, a, q, f, state, after);
      PlacedIsNewest(after, a, f);
    } else {
      DamagedAppendPlaced(cells, a, q, f, c, after);
      PlacedIsNewest(after, a, q);
      SameTop(cells, a, q, f, c, after);
    }
  }

  lemma SameTop(cells: seq<Cell>, a: nat, q: nat, f: nat, c: Cell, after: seq<Cell>)
    requires |cells| == |after| == PLACES && Placed(cells, a, q) && Placed(after, a, q)
    requires f < RECORDS_PER_SECTOR && !c.Record? && after == cells[RECORDS_PER_SECTOR * a + f := c]
    ensures Sector(after, a)[q] == Sector(cells, a)[q]
  {
    assert after[RECORDS_PER_SECTOR * a + q] == Sector(after, a)[q];
    assert cells[RECORDS_PER_SECTOR * a + q] == Sector(cells, a)[q];
  }

  lemma PlacedRotate(cells: seq<Cell>, a: nat, q: nat, state: State, after: seq<Cell>, status: Status)
    requires |cells| == |after| == PLACES && Proper(cells) && Proper(after) && Placed(cells, a, q) && Storable(state)
    requires 1 <= Distance(Newest(cells).sequence, state.sequence) <= MAX_STEP
    requires Rotated(cells, state, after, status)
    ensures Atomic(cells, state, after, status)
  {
    hide Newest, FirstBlank, NewestPlace, Storable, Placed, ActiveSector, Distance, Worn, FreshSector, Proper, Sector;
    PlacedBounds(cells, a, q);
    PlacedIsNewest(cells, a, q);
    var t := 1 - a;
    if status == Ok {
      Started(cells, a, q, state, after);
    } else if !Worn(Sector(cells, t), Sector(after, t)) {
      var c: Cell :| Sector(after, t) == FreshSector(c) && (c.Record? ==> c == Stored(state));
      if c.Record? {
        SameIsWorn(Sector(cells, a));
        Started(cells, a, q, state, after);
      } else {
        FreshIsWorn(Sector(cells, t), c);
      }
    }
    if Worn(Sector(cells, t), Sector(after, t)) && status != Ok {
      StalePlaced(cells, a, q, after);
      PlacedIsNewest(after, a, q);
    }
  }

  lemma SameIsWorn(sector: seq<Cell>)
    ensures Worn(sector, sector)
  {}

  lemma FreshIsWorn(sector: seq<Cell>, c: Cell)
    requires |sector| == RECORDS_PER_SECTOR && !c.Record?
    ensures Worn(sector, FreshSector(c))
  {}

  lemma Started(cells: seq<Cell>, a: nat, q: nat, state: State, after: seq<Cell>)
    requires |cells| == |after| == PLACES && Proper(cells) && Proper(after) && Placed(cells, a, q)
    requires Sector(after, 1 - a) == FreshSector(Stored(state)) && Storable(state)
    requires Worn(Sector(cells, a), Sector(after, a))
    requires 1 <= Distance(Sector(cells, a)[q].state.sequence, state.sequence) <= MAX_STEP
    ensures Intact(after) && Newest(after) == state.(found := true)
  {
    RotatePlaced(cells, a, q, state, after);
    PlacedIsNewest(after, 1 - a, 0);
  }

  /** Crash atomicity of one store: whatever fails and wherever it is cut off,
      the next load finds exactly the old state or the new one, the new one if
      the store reported success, and the log is fit for the next store. */
  lemma StoreIsAtomic(cells: seq<Cell>, state: State, after: seq<Cell>, status: Status)
    requires |cells| == |after| == PLACES && Intact(cells) && Proper(after)
    requires StepOk(cells, state) && StoreEffect(cells, state, after, status)
    ensures Intact(after)
    ensures Newest(after) == Newest(cells) || Newest(after) == state.(found := true)
    ensures status == Ok ==> Newest(after) == state.(found := true)
    ensures Newest(cells).found ==> Newest(after).found
  {
    hide Storable, FirstBlank, NewestPlace, ActiveSector, Placed, Sector, Appended, Rotated, Newest;
    if Empty(cells) {
      NothingFound(cells);
      if Storable(state) && !(status == BackendError && after == cells) {
        EmptyStore(cells, state, after, status);
      }
    } else {
      var a, q :| Placed(cells, a, q);
      PlacedIsNewest(cells, a, q);
      if Advances(cells, state) && !(status == BackendError && after == cells) {
        assert 1 <= Distance(Newest(cells).sequence, state.sequence) <= MAX_STEP;
        if Appended(cells, state, after, status) {
          PlacedAppend(cells, a, q, state, after, status);
        } else {
          PlacedRotate(cells, a, q, state, after, status);
        }
      }
    }
  }

  // ---- Unbounded runs ----

  datatype Attempt = Attempt(state: State, status: Status)

  /** A history of flash images, one store attempt between each two, each with
      any fault or none. */
  ghost predicate Run(images: seq<Bytes>, attempts: seq<Attempt>) {
    && |images| == |attempts| + 1
    && (forall i :: 0 <= i < |images| ==> |images[i]| == FLASH_SIZE)
    && forall i :: 0 <= i < |attempts| ==> RunStep(images[i], attempts[i], images[i + 1])
  }

  ghost predicate RunStep(before: Bytes, attempt: Attempt, after: Bytes)
    requires |before| == |after| == FLASH_SIZE
  {
    && StepOk(Cells(before), attempt.state)
    && StoreEffect(Cells(before), attempt.state, Cells(after), attempt.status)
  }

  /** What a load returns at the end of a run if exactly the attempts in
      `durable` took effect. */
  function LastDurable(start: State, attempts: seq<Attempt>, durable: seq<bool>): State
    requires |attempts| == |durable|
  {
    if attempts == [] then start
    else if durable[|durable| - 1] then attempts[|attempts| - 1].state.(found := true)
    else LastDurable(start, attempts[..|attempts| - 1], durable[..|durable| - 1])
  }

  /** Over any run of stores and faults the log stays intact and always loads as
      the last store that took effect; every store that reported success did. */
  lemma {:induction false} RunIsLinear(images: seq<Bytes>, attempts: seq<Attempt>) returns (durable: seq<bool>)
    requires Run(images, attempts) && Intact(Cells(images[0]))
    ensures |durable| == |attempts|
    ensures forall i :: 0 <= i < |attempts| && attempts[i].status == Ok ==> durable[i]
    ensures Intact(Cells(images[|attempts|]))
    ensures Newest(Cells(images[|attempts|])) == LastDurable(Newest(Cells(images[0])), attempts, durable)
  {
    hide Intact, StoreEffect, StepOk, Newest;
    var n := |attempts| - 1;
    if n < 0 {
      durable := [];
    } else {
      var rest := attempts[..n];
      var before := images[..n + 1];
      assert Run(before, rest);
      var earlier := RunIsLinear(before, rest);
      assert RunStep(images[n], attempts[n], images[n + 1]);
      CellsAreProper(images[n + 1]);
      StoreIsAtomic(Cells(images[n]), attempts[n].state, Cells(images[n + 1]), attempts[n].status);
      var took := Newest(Cells(images[n + 1])) == attempts[n].state.(found := true);
      durable := earlier + [took];
      assert durable[..n] == earlier;
    }
  }

  // ---- The two readers agree ----

  /** The record-at-a-time load and the one-pass scan of two sector images read
      the same log. */
  lemma ScanReadsTheSameLog(mem: Bytes)
    requires |mem| == FLASH_SIZE
    ensures
      var sectorA := mem[METADATA_OFFSET..METADATA_OFFSET + SECTOR_SIZE];
      var sectorB := mem[METADATA_OFFSET + SECTOR_SIZE..METADATA_OFFSET + 2 * SECTOR_SIZE];
      CellsAt(sectorA, 0, RECORDS_PER_SECTOR) + CellsAt(sectorB, 0, RECORDS_PER_SECTOR) == Cells(mem)
  {
    hide CellsAt, Cells;
    var sectorA := mem[METADATA_OFFSET..METADATA_OFFSET + SECTOR_SIZE];
    var sectorB := mem[METADATA_OFFSET + SECTOR_SIZE..METADATA_OFFSET + 2 * SECTOR_SIZE];
    var both := CellsAt(sectorA, 0, RECORDS_PER_SECTOR) + CellsAt(sectorB, 0, RECORDS_PER_SECTOR);
    forall k | 0 <= k < PLACES
      ensures both[k] == Cells(mem)[k]
    {
      if k < RECORDS_PER_SECTOR { ScannedCell(mem, 0, k); } else { ScannedCell(mem, 1, k - RECORDS_PER_SECTOR); }
    }
  }

  /** A record of a sector image is the record at its place in the flash. */
  lemma ScannedCell(mem: Bytes, sector: nat, i: nat)
    requires |mem| == FLASH_SIZE && sector <= 1 && i < RECORDS_PER_SECTOR
    ensures var at := METADATA_OFFSET + sector * SECTOR_SIZE;
      CellsAt(mem[at..at + SECTOR_SIZE], 0, RECORDS_PER_SECTOR)[i] == Cells(mem)[RECORDS_PER_SECTOR * sector + i]
  {
    hide Classify, Cells;
    var at := METADATA_OFFSET + sector * SECTOR_SIZE;
    CellOf(mem, RECORDS_PER_SECTOR * sector + i);
    PlaceAt(sector, i);
    SliceOfSlice(mem, at, SECTOR_SIZE, 0 + RECORD_SIZE * i, 0 + RECORD_SIZE * i + RECORD_SIZE);
  }

  // ---- A step that is accepted but too long ----

  lemma {:induction false} NewestOfPrefix(cells: seq<Cell>, k: nat)
    requires k <= |cells|
    requires forall i :: k <= i < |cells| ==> !cells[i].Record?
    ensures Newest(cells) == Newest(cells[..k])
  {
    if k < |cells| {
      NewestOfPrefix(cells[..|cells| - 1], k);
      assert cells[..|cells| - 1][..k] == cells[..k];
    } else {
      assert cells[..k] == cells;
    }
  }

  lemma PickLast(cells: seq<Cell>, k: nat)
    requires k < |cells|
    requires forall i :: k < i < |cells| ==> !cells[i].Record?
    ensures Newest(cells) == Pick(Newest(cells[..k]), cells[k])
  {
    NewestOfPrefix(cells, k + 1);
    assert cells[..k + 1][..k] == cells[..k];
  }

  const STALE: State := State(0, SLOT_A, SLOT_NONE, 0, 3, 0, true)
  const TOP: State := State(2, SLOT_A, SLOT_NONE, 0, 3, 0, true)
  const LEAP: State := State(0x8000_0001, SLOT_A, SLOT_NONE, 0, 3, 0, true)

  function StaleLog(): (cells: seq<Cell>)
    ensures |cells| == PLACES
  {
    [Record(TOP)] + seq(127, i => Blank) + [Record(STALE)] + seq(127, i => Blank)
  }

  /** The guard of a store lets steps up to 2^31 - 1 through, but the order is
      only usable for steps up to MAX_STEP: here an accepted store reports
      success and the next load returns a record from the sector before. */
  lemma LongStepLosesTheStore()
    ensures
      var cells := StaleLog();
      var after := cells[1 := Record(LEAP)];
      && Intact(cells)
      && Newest(cells) == TOP
      && Advances(cells, LEAP)
      && StoreEffect(cells, LEAP, after, Ok)
      && Newest(after) == STALE
  {
    var cells := StaleLog();
    var after := cells[1 := Record(LEAP)];
    var live, stale := Sector(cells, 0), Sector(cells, 1);
    assert live[0] == Record(TOP) && stale[0] == Record(STALE);
    assert forall p :: 0 < p < RECORDS_PER_SECTOR ==> live[p] == Blank && stale[p] == Blank;
    assert Distance(STALE.sequence, TOP.sequence) == 2;
    LongStepPlaced(cells);
    PlacedIsNewest(cells, 0, 0);
    hide Newest, NewestPlace;
    assert FirstBlank(live) == 1;
    var a := ActiveSector(cells);
    var first := FirstBlank(Sector(cells, a));
    var k := RECORDS_PER_SECTOR * a + first;
    assert Stored(LEAP) == Record(LEAP);
    assert Fills(cells, k, Record(LEAP), LEAP, after, Ok);
    assert Appended(cells, LEAP, after, Ok);
    PickLast(after, RECORDS_PER_SECTOR);
    var half := after[..RECORDS_PER_SECTOR];
    PickLast(half, 1);
    assert half[..1] == [Record(TOP)];
    NewestOfOne(Record(TOP));
    assert Newer(LEAP.sequence, TOP.sequence);
    assert Newer(STALE.sequence, LEAP.sequence);
  }

  lemma NewestOfOne(c: Cell)
    ensures Newest([c]) == Pick(DEFAULT, c)
  {
    assert [c][..0] == [];
  }

  lemma LongStepPlaced(cells: seq<Cell>)
    requires cells == StaleLog()
    ensures Placed(cells, 0, 0) && Proper(cells)
  {
    assert forall i :: 0 <= i < |cells| && cells[i].Record? ==> cells[i] == Record(TOP) || cells[i] == Record(STALE);
  }

  // ---- Wear ----

  /** A log written without a fault since it was blank. */
  ghost predicate Clean(cells: seq<Cell>, a: nat, q: nat)
    requires |cells| == PLACES
  {
    && Tidy(cells, a, q)
    && Newest(cells) == Sector(cells, a)[q].state
    && ActiveSector(cells) == a
    && Newest(cells).found
  }

  ghost predicate Tidy(cells: seq<Cell>, a: nat, q: nat)
    requires |cells| == PLACES
  {
    && a < SECTOR_COUNT && q < RECORDS_PER_SECTOR
    && var live := Sector(cells, a);
    && (forall p :: 0 <= p <= q ==> live[p].Record?)
    && (forall p :: q < p < RECORDS_PER_SECTOR ==> live[p].Blank?)
    && Sector(cells, 1 - a) == FreshSector(Blank)
  }

  function BlankLog(): (cells: seq<Cell>)
    ensures |cells| == PLACES
  {
    seq(PLACES, i => Blank)
  }

  /** The log after a series of fault-free stores on a blank chip. */
  function CleanRun(states: seq<State>): (cells: seq<Cell>)
    ensures |cells| == PLACES
  {
    if states == [] then BlankLog() else CleanStore(CleanRun(states[..|states| - 1]), states[|states| - 1])
  }

  function CleanErases(states: seq<State>): nat {
    if states == [] then 0
    else CleanErases(states[..|states| - 1]) + StoreErases(CleanRun(states[..|states| - 1]))
  }

  ghost predicate EachAdvances(states: seq<State>) {
    && (forall i :: 0 <= i < |states| ==> Storable(states[i]))
    && forall i :: 0 < i < |states| ==> Newer(states[i].sequence, states[i - 1].sequence)
  }

  lemma BlankLogNewest()
    ensures Newest(BlankLog()) == DEFAULT && ActiveSector(BlankLog()) == 0
  {
    NothingFound(BlankLog());
  }

  lemma FirstOfClean(live: seq<Cell>, q: nat)
    requires |live| == RECORDS_PER_SECTOR && q < RECORDS_PER_SECTOR
    requires forall p :: 0 <= p <= q ==> live[p].Record?
    requires forall p :: q < p < RECORDS_PER_SECTOR ==> live[p].Blank?
    ensures FirstBlank(live) == q + 1
  {
    assert q + 1 < RECORDS_PER_SECTOR ==> live[q + 1].Blank?;
  }

  lemma CleanFirst(state: State)
    requires Storable(state)
    ensures Clean(CleanStore(BlankLog(), state), 0, 0)
    ensures Newest(CleanStore(BlankLog(), state)) == state.(found := true)
    ensures StoreErases(BlankLog()) == 0
  {
    BlankLogNewest();
    var after := CleanStore(BlankLog(), state);
    assert Sector(BlankLog(), 0)[0].Blank?;
    assert FirstBlank(Sector(BlankLog(), 0)) == 0;
    assert after == BlankLog()[0 := Stored(state)];
    PickLast(after, 0);
    OneRecord(after, 0);
    assert Sector(after, 1) == FreshSector(Blank);
    assert Sector(after, 0)[0] == Stored(state);
    assert forall p :: 0 < p < RECORDS_PER_SECTOR ==> Sector(after, 0)[p] == Blank;
  }

  /** A log with a single record. */
  lemma OneRecord(cells: seq<Cell>, k: nat)
    requires |cells| == PLACES && k < PLACES && cells[k].Record? && cells[k].state.found
    requires Storable(cells[k].state)
    requires forall i :: 0 <= i < PLACES && i != k ==> !cells[i].Record?
    ensures Newest(cells) == cells[k].state && ActiveSector(cells) == k / RECORDS_PER_SECTOR
  {
    hide Newest, NewestPlace;
    DominantIsNewest(cells, k);
  }

  lemma TidyAppend(cells: seq<Cell>, a: nat, q: nat, state: State, after: seq<Cell>)
    requires |cells| == PLACES && Tidy(cells, a, q) && q + 1 < RECORDS_PER_SECTOR
    requires after == cells[RECORDS_PER_SECTOR * a + q + 1 := Stored(state)]
    ensures Tidy(after, a, q + 1) && Sector(after, a)[q + 1] == Stored(state)
  {
    assert Sector(after, a) == Sector(cells, a)[q + 1 := Stored(state)];
    assert Sector(after, 1 - a) == Sector(cells, 1 - a);
  }

  /** Appending a newer record after the last one makes it the newest. */
  lemma NewestAppend(cells: seq<Cell>, k: nat, state: State, after: seq<Cell>)
    requires |cells| == PLACES && k < PLACES && after == cells[k := Stored(state)]
    requires forall i :: k <= i < PLACES ==> !cells[i].Record?
    requires Newest(cells).found && Newer(state.sequence, Newest(cells).sequence)
    ensures Newest(after) == state.(found := true)
    ensures ActiveSector(after) == k / RECORDS_PER_SECTOR
  {
    hide Stored;
    NewestOfPrefix(cells, k);
    assert after[..k] == cells[..k];
    assert Stored(state) == Record(state.(found := true)) by { StoredIs(state); }
    PickLast(after, k);
    CleanPlace(after, k);
  }

  lemma StoredIs(state: State)
    ensures Stored(state) == Record(state.(found := true))
  {}

  lemma CleanAppend(cells: seq<Cell>, a: nat, q: nat, state: State)
    requires |cells| == PLACES && Clean(cells, a, q) && q + 1 < RECORDS_PER_SECTOR
    requires Storable(state) && Newer(state.sequence, Newest(cells).sequence)
    ensures Clean(CleanStore(cells, state), a, q + 1)
    ensures Newest(CleanStore(cells, state)) == state.(found := true)
    ensures StoreErases(cells) == 0
  {
    FirstOfClean(Sector(cells, a), q);
    var k := RECORDS_PER_SECTOR * a + q + 1;
    var after := CleanStore(cells, state);
    hide ActiveSector, FirstBlank, Newest, Newer, Storable, Sector;
    assert after == cells[k := Stored(state)];
    hide CleanStore;
    CleanTail(cells, a, q);
    TidyAppend(cells, a, q, state, after);
    hide Tidy;
    NewestAppend(cells, k, state, after);
  }

  lemma CleanTail(cells: seq<Cell>, a: nat, q: nat)
    requires |cells| == PLACES && Tidy(cells, a, q)
    ensures forall i :: RECORDS_PER_SECTOR * a + q < i < PLACES ==> !cells[i].Record?
  {
    forall i | RECORDS_PER_SECTOR * a + q < i < PLACES
      ensures !cells[i].Record?
    {
      if i < RECORDS_PER_SECTOR * (a + 1) {
        assert Sector(cells, a)[i - RECORDS_PER_SECTOR * a] == cells[i];
      } else {
        assert Sector(cells, 1 - a)[i - RECORDS_PER_SECTOR] == cells[i];
      }
    }
  }

  /** The last record of a log, if it is the newest, is where the scan ends. */
  lemma CleanPlace(cells: seq<Cell>, k: nat)
    requires |cells| == PLACES && k < PLACES && cells[k].Record?
    requires forall i :: k < i < PLACES ==> !cells[i].Record?
    requires Newest(cells[..k]).found ==> Newer(cells[k].state.sequence, Newest(cells[..k]).sequence)
    ensures ActiveSector(cells) == k / RECORDS_PER_SECTOR || !Newest(cells).found
  {
    PlaceOfPrefix(cells, k + 1);
    assert cells[..k + 1][..k] == cells[..k];
  }

  lemma {:induction false} PlaceOfPrefix(cells: seq<Cell>, k: nat)
    requires k <= |cells|
    requires forall i :: k <= i < |cells| ==> !cells[i].Record?
    ensures Newest(cells) == Newest(cells[..k])
    ensures Newest(cells).found ==> NewestPlace(cells) == NewestPlace(cells[..k])
  {
    if k < |cells| {
      PlaceOfPrefix(cells[..|cells| - 1], k);
      assert cells[..|cells| - 1][..k] == cells[..k];
    } else {
      assert cells[..k] == cells;
    }
  }

  lemma FreshLog(a: nat, state: State)
    requires a < SECTOR_COUNT && Storable(state)
    ensures var after := if a == 0 then FreshSector(Stored(state)) + FreshSector(Blank) else FreshSector(Blank) + FreshSector(Stored(state));
      && Clean(after, a, 0)
      && Newest(after) == state.(found := true)
  {
    hide Newest, ActiveSector, Storable;
    var after := if a == 0 then FreshSector(Stored(state)) + FreshSector(Blank) else FreshSector(Blank) + FreshSector(Stored(state));
    var k := RECORDS_PER_SECTOR * a;
    assert after[k] == Stored(state);
    assert forall i :: 0 <= i < PLACES && i != k ==> !after[i].Record?;
    StoredStates(state);
    OneRecord(after, k);
    assert Sector(after, a) == FreshSector(Stored(state));
    assert Sector(after, 1 - a) == FreshSector(Blank);
  }

  lemma StoredStates(state: State)
    requires Storable(state)
    ensures Storable(Stored(state).state) && Stored(state).state.found
  {}

  lemma CleanRotate(cells: seq<Cell>, a: nat, state: State)
    requires |cells| == PLACES && Clean(cells, a, RECORDS_PER_SECTOR - 1) && Storable(state)
    ensures Clean(CleanStore(cells, state), 1 - a, 0)
    ensures Newest(CleanStore(cells, state)) == state.(found := true)
    ensures StoreErases(cells) == 2
  {
    FirstOfClean(Sector(cells, a), RECORDS_PER_SECTOR - 1);
    hide ActiveSector, FirstBlank, Newest, Storable, Sector;
    FreshLog(1 - a, state);
  }

  /** What n state-changing stores have come to. */
  ghost predicate WornTo(states: seq<State>) {
    states != [] ==>
      var n := |states| - 1;
      && CleanErases(states) == 2 * (n / RECORDS_PER_SECTOR)
      && Clean(CleanRun(states), (n / RECORDS_PER_SECTOR) % SECTOR_COUNT, n % RECORDS_PER_SECTOR)
      && Newest(CleanRun(states)) == states[n].(found := true)
  }

  /** Wear theorem on the log: n state-changing stores on a blank chip cost
      2*((n-1)/128) sector erases. JournalWear counts them on the chip. */
  lemma {:induction false} WearBound(states: seq<State>)
    requires EachAdvances(states)
    ensures states == [] ==> CleanErases(states) == 0
    ensures WornTo(states)
  {
    if states == [] {
      EmptyRunIsBlank();
    } else {
      hide WornTo, EachAdvances;
      AdvancesPrefix(states);
      WearBound(states[..|states| - 1]);
      WearNext(states);
    }
  }

  lemma WearNext(states: seq<State>)
    requires states != [] && EachAdvances(states) && WornTo(states[..|states| - 1])
    ensures WornTo(states)
  {
    hide Clean, CleanStore, Newest, Storable, StoreErases, CleanErases, CleanRun, EachAdvances, Newer;
    var n := |states| - 1;
    AdvancesPrefix(states);
    CleanRunUnfolds(states);
    if n == 0 {
      assert states[..n] == [];
      EmptyRunIsBlank();
      CleanFirst(states[0]);
    } else {
      WearStep(CleanRun(states[..n]), n - 1, states[n]);
    }
  }

  lemma AdvancesPrefix(states: seq<State>)
    requires EachAdvances(states) && states != []
    ensures var n := |states| - 1;
      && EachAdvances(states[..n]) && Storable(states[n])
      && (n > 0 ==> Newer(states[n].sequence, states[..n][n - 1].(found := true).sequence))
  {}

  lemma CleanRunUnfolds(states: seq<State>)
    requires states != []
    ensures var n := |states| - 1;
      && CleanRun(states) == CleanStore(CleanRun(states[..n]), states[n])
      && CleanErases(states) == CleanErases(states[..n]) + StoreErases(CleanRun(states[..n]))
  {
    hide CleanStore, StoreErases;
  }

  lemma WearStep(cells: seq<Cell>, n: nat, state: State)
    requires |cells| == PLACES && Storable(state) && Newer(state.sequence, Newest(cells).sequence)
    requires Clean(cells, (n / RECORDS_PER_SECTOR) % SECTOR_COUNT, n % RECORDS_PER_SECTOR)
    ensures
      var m := n + 1;
      && 2 * (n / RECORDS_PER_SECTOR) + StoreErases(cells) == 2 * (m / RECORDS_PER_SECTOR)
      && Clean(CleanStore(cells, state), (m / RECORDS_PER_SECTOR) % SECTOR_COUNT, m % RECORDS_PER_SECTOR)
      && Newest(CleanStore(cells, state)) == state.(found := true)
  {
    hide Clean, CleanStore, Newest, Storable, StoreErases, Newer;
    var a, q := (n / RECORDS_PER_SECTOR) % SECTOR_COUNT, n % RECORDS_PER_SECTOR;
    if q + 1 < RECORDS_PER_SECTOR {
      CleanAppend(cells, a, q, state);
    } else {
      CleanRotate(cells, a, state);
    }
  }

  lemma EmptyRunIsBlank()
    ensures CleanRun([]) == BlankLog() && CleanErases([]) == 0
  {}
}
