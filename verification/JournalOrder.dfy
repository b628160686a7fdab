/** Which stores the log can order: the exact set, what a uniform step must keep
    to, and runs of stores whose steps are as long as that set allows. */
module JournalOrder {
  import opened Words
  import opened BootState
  import opened Nor
  import opened Journal
  import opened JournalProofs

  // ---- When one record is what loads ----

  /** Record k of any log is where a scan settles exactly when it is newer than
      the choice made before it and no record after it is newer than it. */
  lemma {:induction false} SettlesIff(cells: seq<Cell>, k: nat)
    requires Proper(cells) && k < |cells| && cells[k].Record?
    ensures Settles(cells, k) <==>
      && (Newest(cells[..k]).found ==> Newer(cells[k].state.sequence, Newest(cells[..k]).sequence))
      && forall i :: k < i < |cells| && cells[i].Record? ==> !Newer(cells[i].state.sequence, cells[k].state.sequence)
  {
    var n := |cells| - 1;
    var rest := cells[..n];
    assert forall i :: 0 <= i < n ==> rest[i] == cells[i];
    if k < n {
      SettlesIff(rest, k);
      assert rest[..k] == cells[..k];
      NoReturn(cells, k);
    }
  }

  ghost predicate Settles(cells: seq<Cell>, k: nat) {
    Newest(cells).found && NewestPlace(cells) == k
  }

  lemma NoReturn(cells: seq<Cell>, k: nat)
    requires Proper(cells) && k < |cells| - 1
    ensures Settles(cells, k) ==> Settles(cells[..|cells| - 1], k)
    ensures Settles(cells, k) <==>
      && Settles(cells[..|cells| - 1], k)
      && (cells[|cells| - 1].Record? ==> !Newer(cells[|cells| - 1].state.sequence, cells[k].state.sequence))
  {}

  // ---- Logs whose newest record leads all others ----

  /** The newest record is number q of sector a, and every other record is
      older than it. */
  ghost predicate Led(cells: seq<Cell>, a: nat, q: nat)
    requires |cells| == PLACES
  {
    && a < SECTOR_COUNT && q < RECORDS_PER_SECTOR
    && var k := RECORDS_PER_SECTOR * a + q;
    && cells[k].Record?
    && (forall p :: 0 <= p < q ==> !Sector(cells, a)[p].Blank?)
    && (forall p :: q < p < RECORDS_PER_SECTOR ==> !Sector(cells, a)[p].Record?)
    && forall i :: 0 <= i < PLACES && i != k && cells[i].Record? ==> Newer(cells[k].state.sequence, cells[i].state.sequence)
  }

  ghost predicate Ordered(cells: seq<Cell>) {
    && |cells| == PLACES
    && Proper(cells)
    && (Empty(cells) || exists a, q :: Led(cells, a, q))
  }

  lemma IntactIsOrdered(cells: seq<Cell>)
    requires Intact(cells)
    ensures Ordered(cells)
  {
    if !Empty(cells) {
      var a, q :| Placed(cells, a, q);
      PlacedIsLed(cells, a, q);
    }
  }

  lemma PlacedIsLed(cells: seq<Cell>, a: nat, q: nat)
    requires |cells| == PLACES && Placed(cells, a, q)
    ensures Led(cells, a, q)
  {
    var k := RECORDS_PER_SECTOR * a + q;
    assert cells[k] == Sector(cells, a)[q];
    forall i | 0 <= i < PLACES && i != k && cells[i].Record?
      ensures Newer(cells[k].state.sequence, cells[i].state.sequence)
    {
      PlacedTrails(cells, a, q, i);
    }
  }

  lemma NewerIsStrict(x: uint32, y: uint32)
    requires Newer(x, y)
    ensures !Newer(y, x) && x != y
  {}

  lemma LedIsNewest(cells: seq<Cell>, a: nat, q: nat)
    requires |cells| == PLACES && Proper(cells) && Led(cells, a, q)
    ensures Newest(cells) == cells[RECORDS_PER_SECTOR * a + q].state && Newest(cells).found
    ensures NewestPlace(cells) == RECORDS_PER_SECTOR * a + q && ActiveSector(cells) == a
    ensures FirstBlank(Sector(cells, a)) > q
  {
    var k := RECORDS_PER_SECTOR * a + q;
    forall i | 0 <= i < PLACES && i != k && cells[i].Record?
      ensures !Newer(cells[i].state.sequence, cells[k].state.sequence)
    {
      NewerIsStrict(cells[k].state.sequence, cells[i].state.sequence);
    }
    assert Sector(cells, a)[q] == cells[k];
    hide Newest, NewestPlace, Newer;
    DominantIsNewest(cells, k);
  }

  // ---- The states a log can take ----

  /** What a caller can read off the log before the call: the state is newer
      than every record the store may leave to be scanned before its own place,
      and no record it may leave to be scanned after that place is newer than
      the state. */
  ghost predicate Orders(cells: seq<Cell>, state: State)
    requires |cells| == PLACES
  {
    var a := ActiveSector(cells);
    var live, other := Sector(cells, a), Sector(cells, 1 - a);
    if FirstBlank(live) < RECORDS_PER_SECTOR then
      a == 1 || forall p :: 0 <= p < RECORDS_PER_SECTOR && other[p].Record? ==> !Newer(other[p].state.sequence, state.sequence)
    else if a == 0 then
      forall p :: 0 <= p < RECORDS_PER_SECTOR && live[p].Record? ==> Newer(state.sequence, live[p].state.sequence)
    else
      forall p :: 0 <= p < RECORDS_PER_SECTOR && live[p].Record? ==> !Newer(live[p].state.sequence, state.sequence)
  }

  /** The next load finds the old state or the new one, whatever failed, and the
      new one if the store reported success. */
  ghost predicate Takes(cells: seq<Cell>, state: State, after: seq<Cell>, status: Status) {
    && (Newest(after) == Newest(cells) || Newest(after) == state.(found := true))
    && (status == Ok ==> Newest(after) == state.(found := true))
  }

  /** Appending, with the record complete. */
  lemma AppendLoadsIff(cells: seq<Cell>, a: nat, q: nat, state: State, after: seq<Cell>)
    requires |cells| == PLACES && Proper(cells) && Led(cells, a, q) && Storable(state)
    requires Newer(state.sequence, Newest(cells).sequence)
    requires FirstBlank(Sector(cells, a)) < RECORDS_PER_SECTOR
    requires after == cells[RECORDS_PER_SECTOR * a + FirstBlank(Sector(cells, a)) := Stored(state)]
    ensures Newest(after) == state.(found := true) <==> Orders(cells, state)
  {
    LedIsNewest(cells, a, q);
    var f := FirstBlank(Sector(cells, a));
    var k := RECORDS_PER_SECTOR * a + f;
    hide Newest, NewestPlace, FirstBlank, Newer, Storable;
    assert after[..k] == cells[..k];
    LedPrefix(cells, a, q, k);
    LedTail(cells, a, q, f);
    StoredProper(cells, state, after, k);
    SettlesIff(after, k);
    NoneEqual(cells, a, q, state, after, k);
    hide Led;
    assert forall i :: k < i < PLACES ==> after[i] == cells[i];
  }

  /** What a scan meets after the first blank place of the active sector. */
  lemma LedTail(cells: seq<Cell>, a: nat, q: nat, f: nat)
    requires |cells| == PLACES && Led(cells, a, q) && q < f < RECORDS_PER_SECTOR
    ensures forall i :: RECORDS_PER_SECTOR * a + f < i < PLACES && cells[i].Record? ==>
      a == 0 && i >= RECORDS_PER_SECTOR && Sector(cells, 1)[i - RECORDS_PER_SECTOR] == cells[i]
    ensures a == 0 ==> forall p :: 0 <= p < RECORDS_PER_SECTOR ==> cells[RECORDS_PER_SECTOR + p] == Sector(cells, 1)[p]
  {
    forall i | RECORDS_PER_SECTOR * a + f < i < RECORDS_PER_SECTOR * (a + 1)
      ensures !cells[i].Record?
    {
      assert Sector(cells, a)[i - RECORDS_PER_SECTOR * a] == cells[i];
    }
  }

  /** Before place k the leading record is still what a scan has chosen. */
  lemma LedPrefix(cells: seq<Cell>, a: nat, q: nat, k: nat)
    requires |cells| == PLACES && Proper(cells) && Led(cells, a, q)
    requires RECORDS_PER_SECTOR * a + q < k <= PLACES
    ensures Newest(cells[..k]) == cells[RECORDS_PER_SECTOR * a + q].state
  {
    var top := RECORDS_PER_SECTOR * a + q;
    var prefix := cells[..k];
    forall i | 0 <= i < k && i != top && prefix[i].Record?
      ensures !Newer(prefix[i].state.sequence, prefix[top].state.sequence)
    {
      NewerIsStrict(cells[top].state.sequence, cells[i].state.sequence);
    }
    hide Newest, NewestPlace, Newer;
    DominantIsNewest(prefix, top);
  }

  /** No record of the log has the new sequence, so the new state loads only
      from its own place. */
  lemma NoneEqual(cells: seq<Cell>, a: nat, q: nat, state: State, after: seq<Cell>, k: nat)
    requires |cells| == |after| == PLACES && Led(cells, a, q) && k < PLACES
    requires Newer(state.sequence, cells[RECORDS_PER_SECTOR * a + q].state.sequence)
    requires after[k] == Stored(state)
    requires forall i :: 0 <= i < PLACES && i != k && after[i].Record? ==> after[i] == cells[i]
    ensures Newest(after) == state.(found := true) <==> Settles(after, k)
  {
    var top := RECORDS_PER_SECTOR * a + q;
    if Newest(after).found {
      var i := NewestPlace(after);
      if i != k {
        if i != top { NewerIsStrict(cells[top].state.sequence, cells[i].state.sequence); }
        assert after[i].state.sequence != state.sequence;
      }
    }
  }

  /** Rotating, with whatever the last erase leaves of the full sector. */
  lemma RotateLoadsIff(cells: seq<Cell>, a: nat, q: nat, state: State, after: seq<Cell>)
    requires |cells| == |after| == PLACES && Proper(cells) && Led(cells, a, q) && Storable(state)
    requires Newer(state.sequence, Newest(cells).sequence)
    requires Sector(after, 1 - a) == FreshSector(Stored(state))
    requires Worn(Sector(cells, a), Sector(after, a))
    ensures var left := Sector(after, a);
      Newest(after) == state.(found := true) <==>
        if a == 0 then Newest(left).found ==> Newer(state.sequence, Newest(left).sequence)
        else forall p :: 0 <= p < RECORDS_PER_SECTOR && left[p].Record? ==> !Newer(left[p].state.sequence, state.sequence)
  {
    LedIsNewest(cells, a, q);
    var left, k := Sector(after, a), RECORDS_PER_SECTOR * (1 - a);
    hide Newest, NewestPlace, Newer, Storable, FirstBlank;
    RotatedCells(cells, a, state, after);
    StoredProper(cells, state, after, k);
    SettlesIff(after, k);
    NoneEqual(cells, a, q, state, after, k);
    if a == 0 {
      assert after[..k] == left;
    } else {
      assert after[..k] == [];
      NothingFound([]);
      forall p | 0 <= p < RECORDS_PER_SECTOR && left[p].Record?
        ensures after[RECORDS_PER_SECTOR + p] == left[p]
      {}
    }
  }

  lemma SectorAt(cells: seq<Cell>, sector: nat, p: nat)
    requires |cells| == PLACES && sector < SECTOR_COUNT && p < RECORDS_PER_SECTOR
    ensures Sector(cells, sector)[p] == cells[RECORDS_PER_SECTOR * sector + p]
  {}

  lemma InSector(cells: seq<Cell>, i: nat)
    requires |cells| == PLACES && i < PLACES
    ensures i / RECORDS_PER_SECTOR < SECTOR_COUNT
    ensures Sector(cells, i / RECORDS_PER_SECTOR)[i % RECORDS_PER_SECTOR] == cells[i]
  {}

  lemma RotatedCells(cells: seq<Cell>, a: nat, state: State, after: seq<Cell>)
    requires |cells| == |after| == PLACES && a < SECTOR_COUNT
    requires Sector(after, 1 - a) == FreshSector(Stored(state))
    requires Worn(Sector(cells, a), Sector(after, a))
    ensures var k := RECORDS_PER_SECTOR * (1 - a);
      && after[k] == Stored(state)
      && forall i :: 0 <= i < PLACES && i != k && after[i].Record? ==>
           after[i] == cells[i] && i / RECORDS_PER_SECTOR == a && Sector(after, a)[i % RECORDS_PER_SECTOR] == after[i]
  {
    var k := RECORDS_PER_SECTOR * (1 - a);
    assert after[k] == Sector(after, 1 - a)[0];
    forall i | 0 <= i < PLACES && i != k && after[i].Record?
      ensures after[i] == cells[i] && i / RECORDS_PER_SECTOR == a && Sector(after, a)[i % RECORDS_PER_SECTOR] == after[i]
    {
      InSector(after, i);
      InSector(cells, i);
      assert i % RECORDS_PER_SECTOR != 0 ==> FreshSector(Stored(state))[i % RECORDS_PER_SECTOR].Blank?;
    }
  }

  lemma StoredProper(cells: seq<Cell>, state: State, after: seq<Cell>, k: nat)
    requires |cells| == |after| == PLACES && Proper(cells) && Storable(state)
    requires k < PLACES && after[k] == Stored(state)
    requires forall i :: 0 <= i < PLACES && i != k && after[i].Record? ==> after[i] == cells[i]
    ensures Proper(after)
  {}

  // ---- The theorem ----

  /** Whatever the fault, a state the log orders is the next one to load or has
      changed nothing. */
  lemma OrderedStoreTakes(cells: seq<Cell>, a: nat, q: nat, state: State, after: seq<Cell>, status: Status)
    requires |cells| == |after| == PLACES && Proper(cells) && Led(cells, a, q)
    requires Storable(state) && Newer(state.sequence, Newest(cells).sequence) && Orders(cells, state)
    requires Appended(cells, state, after, status) || Rotated(cells, state, after, status)
    ensures Takes(cells, state, after, status)
  {
    LedIsNewest(cells, a, q);
    hide Newest, NewestPlace, FirstBlank, Newer, Storable, Orders, Led, ActiveSector, Sector;
    if Appended(cells, state, after, status) {
      var f := FirstBlank(Sector(cells, a));
      var c: Cell :| Fills(cells, RECORDS_PER_SECTOR * a + f, c, state, after, status);
      if c.Record? {
        AppendLoadsIff(cells, a, q, state, after);
      } else {
        DamageKeepsNewest(cells, a, q, after) by { FilledCells(cells, a, q, f, c, after); }
      }
    } else {
      RotationTakes(cells, a, q, state, after, status);
    }
  }

  lemma FilledCells(cells: seq<Cell>, a: nat, q: nat, f: nat, c: Cell, after: seq<Cell>)
    requires |cells| == PLACES && a < SECTOR_COUNT && q < f < RECORDS_PER_SECTOR && !c.Record?
    requires after == cells[RECORDS_PER_SECTOR * a + f := c]
    ensures |after| == PLACES && after[RECORDS_PER_SECTOR * a + q] == cells[RECORDS_PER_SECTOR * a + q]
    ensures forall i :: 0 <= i < PLACES && after[i].Record? ==> after[i] == cells[i]
  {}

  /** Damage that leaves the leading record leaves the scan's choice. */
  lemma DamageKeepsNewest(cells: seq<Cell>, a: nat, q: nat, after: seq<Cell>)
    requires |cells| == |after| == PLACES && Proper(cells) && Led(cells, a, q)
    requires after[RECORDS_PER_SECTOR * a + q] == cells[RECORDS_PER_SECTOR * a + q]
    requires forall i :: 0 <= i < PLACES && after[i].Record? ==> after[i] == cells[i]
    ensures Newest(after) == Newest(cells)
  {
    var k := RECORDS_PER_SECTOR * a + q;
    forall i | 0 <= i < PLACES && i != k && after[i].Record?
      ensures !Newer(after[i].state.sequence, after[k].state.sequence)
    {
      NewerIsStrict(cells[k].state.sequence, cells[i].state.sequence);
    }
    LedIsNewest(cells, a, q);
    hide Newest, NewestPlace, Newer;
    DominantIsNewest(after, k);
  }

  lemma RotationTakes(cells: seq<Cell>, a: nat, q: nat, state: State, after: seq<Cell>, status: Status)
    requires |cells| == |after| == PLACES && Proper(cells) && Led(cells, a, q)
    requires Storable(state) && Newer(state.sequence, Newest(cells).sequence) && Orders(cells, state)
    requires Rotated(cells, state, after, status)
    ensures Takes(cells, state, after, status)
  {
    LedIsNewest(cells, a, q);
    hide Newest, NewestPlace, FirstBlank, Newer, Storable, Led, ActiveSector, Orders, Sector, Worn, FreshSector;
    var t := 1 - a;
    if status == Ok {
      RotationLoads(cells, a, q, state, after);
    } else {
      var c: Cell := if Sector(after, t) == FreshSector(Stored(state)) then Stored(state) else Blank;
      if c.Record? {
        SameIsWorn(Sector(cells, a));
        RotationLoads(cells, a, q, state, after);
      } else {
        RotationDamage(cells, a, q, state, after);
        DamageKeepsNewest(cells, a, q, after);
      }
    }
  }

  lemma RotationDamage(cells: seq<Cell>, a: nat, q: nat, state: State, after: seq<Cell>)
    requires |cells| == |after| == PLACES && a < SECTOR_COUNT && q < RECORDS_PER_SECTOR
    requires Sector(after, a) == Sector(cells, a) && Sector(after, 1 - a) != FreshSector(Stored(state))
    requires Worn(Sector(cells, 1 - a), Sector(after, 1 - a))
      || exists c: Cell :: Sector(after, 1 - a) == FreshSector(c) && (c.Record? ==> c == Stored(state))
    ensures after[RECORDS_PER_SECTOR * a + q] == cells[RECORDS_PER_SECTOR * a + q]
    ensures forall i :: 0 <= i < PLACES && after[i].Record? ==> after[i] == cells[i]
  {
    hide Sector, FreshSector;
    var t := 1 - a;
    SectorAt(after, a, q);
    SectorAt(cells, a, q);
    if !Worn(Sector(cells, t), Sector(after, t)) {
      var c: Cell :| Sector(after, t) == FreshSector(c) && (c.Record? ==> c == Stored(state));
      FreshIsWorn(Sector(cells, t), c);
    }
    forall i | 0 <= i < PLACES && after[i].Record?
      ensures after[i] == cells[i]
    {
      InSector(after, i);
      InSector(cells, i);
    }
  }

  lemma RotationLoads(cells: seq<Cell>, a: nat, q: nat, state: State, after: seq<Cell>)
    requires |cells| == |after| == PLACES && Proper(cells) && Led(cells, a, q) && Storable(state)
    requires Newer(state.sequence, Newest(cells).sequence) && Orders(cells, state)
    requires FirstBlank(Sector(cells, a)) == RECORDS_PER_SECTOR
    requires Sector(after, 1 - a) == FreshSector(Stored(state)) && Worn(Sector(cells, a), Sector(after, a))
    ensures Newest(after) == state.(found := true)
  {
    LedIsNewest(cells, a, q);
    RotateLoadsIff(cells, a, q, state, after);
    hide Newest, Newer, Led, FreshSector, ActiveSector;
    var left := Sector(after, a);
    if a == 0 && Newest(left).found {
      var p := NewestPlace(left);
      assert left[p] == Sector(cells, a)[p];
    }
  }

  /** What one record kept by the last erase does to the scan. */
  function Remnant(live: seq<Cell>, p: nat): (s: seq<Cell>)
    requires |live| == RECORDS_PER_SECTOR && p < RECORDS_PER_SECTOR
    ensures |s| == RECORDS_PER_SECTOR
  {
    seq(RECORDS_PER_SECTOR, i requires 0 <= i < RECORDS_PER_SECTOR => if i == p then live[p] else Blank)
  }

  lemma RemnantIs(live: seq<Cell>, p: nat)
    requires |live| == RECORDS_PER_SECTOR && p < RECORDS_PER_SECTOR && live[p].Record?
    requires live[p].state.found
    ensures Worn(live, Remnant(live, p)) && Remnant(live, p)[p] == live[p]
    ensures Newest(Remnant(live, p)) == live[p].state
  {
    var left := Remnant(live, p);
    NothingFound(left[..p]);
    PickLast(left, p);
  }

  /** A state the log cannot order is lost by a store that reports success. */
  lemma UnorderedStoreIsLost(cells: seq<Cell>, a: nat, q: nat, state: State) returns (after: seq<Cell>)
    requires |cells| == PLACES && Proper(cells) && Led(cells, a, q)
    requires Storable(state) && Newer(state.sequence, Newest(cells).sequence) && !Orders(cells, state)
    ensures |after| == PLACES && Proper(after)
    ensures Appended(cells, state, after, Ok) || Rotated(cells, state, after, Ok)
    ensures Newest(after) != state.(found := true)
  {
    LedIsNewest(cells, a, q);
    var live, f := Sector(cells, a), FirstBlank(Sector(cells, a));
    if f < RECORDS_PER_SECTOR {
      var k := RECORDS_PER_SECTOR * a + f;
      after := cells[k := Stored(state)];
      AppendLoadsIff(cells, a, q, state, after);
      assert Fills(cells, k, Stored(state), state, after, Ok);
    } else {
      hide Newest, NewestPlace, Newer, Storable, Led, Orders, Proper;
      after := LostRotation(cells, a, q, state);
      assert Rotated(cells, state, after, Ok);
    }
  }

  /** The last erase of a rotation keeps one record, and that one prevails. */
  lemma LostRotation(cells: seq<Cell>, a: nat, q: nat, state: State) returns (after: seq<Cell>)
    requires |cells| == PLACES && Proper(cells) && Led(cells, a, q) && a == ActiveSector(cells)
    requires Storable(state) && Newer(state.sequence, Newest(cells).sequence) && !Orders(cells, state)
    requires FirstBlank(Sector(cells, a)) == RECORDS_PER_SECTOR
    ensures |after| == PLACES && Proper(after)
    ensures Sector(after, 1 - a) == FreshSector(Stored(state)) && Worn(Sector(cells, a), Sector(after, a))
    ensures Newest(after) != state.(found := true)
  {
    var p := Offender(cells, a, state);
    var live := Sector(cells, a);
    SectorAt(cells, a, p);
    hide Newest, NewestPlace, FirstBlank, Newer, Storable, Led, Remnant, FreshSector, ActiveSector, Orders, Sector, Worn;
    RemnantIs(live, p);
    after := Beside(a, Remnant(live, p), FreshSector(Stored(state)));
    RotateLoadsIff(cells, a, q, state, after);
    RotatedCells(cells, a, state, after);
    StoredProper(cells, state, after, RECORDS_PER_SECTOR * (1 - a));
  }

  lemma Beside(a: nat, sector: seq<Cell>, other: seq<Cell>) returns (cells: seq<Cell>)
    requires a < SECTOR_COUNT && |sector| == |other| == RECORDS_PER_SECTOR
    ensures |cells| == PLACES && Sector(cells, a) == sector && Sector(cells, 1 - a) == other
  {
    cells := if a == 0 then sector + other else other + sector;
  }

  lemma Offender(cells: seq<Cell>, a: nat, state: State) returns (p: nat)
    requires |cells| == PLACES && a == ActiveSector(cells)
    requires FirstBlank(Sector(cells, a)) == RECORDS_PER_SECTOR && !Orders(cells, state)
    ensures p < RECORDS_PER_SECTOR && Sector(cells, a)[p].Record?
    ensures if a == 0 then !Newer(state.sequence, Sector(cells, a)[p].state.sequence)
            else Newer(Sector(cells, a)[p].state.sequence, state.sequence)
  {
    hide Newer;
    var live := Sector(cells, a);
    p :| 0 <= p < RECORDS_PER_SECTOR && live[p].Record?
      && if a == 0 then !Newer(state.sequence, live[p].state.sequence) else Newer(live[p].state.sequence, state.sequence);
  }

  /** Crash atomicity, exactly: over every fault a store can meet, the next load
      finds the old state or the new one, and the new one after a success, if
      and only if the log orders the state. */
  lemma StoreIsAtomicIff(cells: seq<Cell>, state: State)
    requires Ordered(cells) && Advances(cells, state)
    ensures Orders(cells, state) <==>
      forall after, status | |after| == PLACES && Proper(after) && StoreEffect(cells, state, after, status) ::
        Takes(cells, state, after, status)
  {
    hide Newest, FirstBlank, NewestPlace, Storable, Orders, ActiveSector, Appended, Rotated, Newer, Takes, Proper;
    if Empty(cells) {
      EmptyOrders(cells, state);
      forall after, status | |after| == PLACES && Proper(after) && StoreEffect(cells, state, after, status)
        ensures Takes(cells, state, after, status)
      {
        NothingFound(cells);
        EmptyTakes(cells, state, after, status);
      }
    } else {
      var a, q :| Led(cells, a, q);
      LedIsNewest(cells, a, q);
      if Orders(cells, state) {
        forall after, status | |after| == PLACES && Proper(after) && StoreEffect(cells, state, after, status)
          ensures Takes(cells, state, after, status)
        {
          if status == BackendError && after == cells { NothingTaken(cells, state, status); }
          else { OrderedStoreTakes(cells, a, q, state, after, status); }
        }
      } else {
        var after := UnorderedStoreIsLost(cells, a, q, state);
        assert StoreEffect(cells, state, after, Ok);
        assert !Takes(cells, state, after, Ok) by { NotTaken(cells, state, after); }
      }
    }
  }

  lemma NothingTaken(cells: seq<Cell>, state: State, status: Status)
    requires status != Ok
    ensures Takes(cells, state, cells, status)
  {}

  lemma NotTaken(cells: seq<Cell>, state: State, after: seq<Cell>)
    requires Newest(after) != state.(found := true)
    ensures !Takes(cells, state, after, Ok)
  {}

  lemma EmptyOrders(cells: seq<Cell>, state: State)
    requires |cells| == PLACES && Empty(cells)
    ensures Orders(cells, state)
  {
    hide Newest, Newer, FirstBlank;
    var a := ActiveSector(cells);
    forall p | 0 <= p < RECORDS_PER_SECTOR
      ensures !Sector(cells, a)[p].Record? && !Sector(cells, 1 - a)[p].Record?
    {}
  }

  lemma EmptyTakes(cells: seq<Cell>, state: State, after: seq<Cell>, status: Status)
    requires |cells| == |after| == PLACES && Empty(cells) && Proper(after) && Storable(state)
    requires Newest(cells) == DEFAULT && StoreEffect(cells, state, after, status)
    ensures Takes(cells, state, after, status)
  {
    hide Newest, FirstBlank, NewestPlace, Storable, Orders, ActiveSector, Appended, Rotated, Newer;
    if !(status == BackendError && after == cells) { EmptyStore(cells, state, after, status); }
  }

  // ---- Unbounded runs ----

  /** The state is newer than every record the store leaves to the next one. */
  ghost predicate Tops(cells: seq<Cell>, state: State)
    requires |cells| == PLACES
  {
    var live := Sector(cells, ActiveSector(cells));
    if FirstBlank(live) < RECORDS_PER_SECTOR then
      forall i :: 0 <= i < PLACES && cells[i].Record? ==> Newer(state.sequence, cells[i].state.sequence)
    else
      forall p :: 0 <= p < RECORDS_PER_SECTOR && live[p].Record? ==> Newer(state.sequence, live[p].state.sequence)
  }

  lemma ToppingIsOrdered(cells: seq<Cell>, state: State)
    requires |cells| == PLACES && Tops(cells, state)
    ensures Orders(cells, state)
  {
    hide Newest, FirstBlank, Newer, ActiveSector, Sector;
    var a := ActiveSector(cells);
    var live, other := Sector(cells, a), Sector(cells, 1 - a);
    if FirstBlank(live) < RECORDS_PER_SECTOR {
      forall p | 0 <= p < RECORDS_PER_SECTOR && other[p].Record?
        ensures !Newer(other[p].state.sequence, state.sequence)
      {
        SectorAt(cells, 1 - a, p);
        NewerIsStrict(state.sequence, other[p].state.sequence);
      }
    } else {
      forall p | 0 <= p < RECORDS_PER_SECTOR && live[p].Record?
        ensures !Newer(live[p].state.sequence, state.sequence)
      {
        NewerIsStrict(state.sequence, live[p].state.sequence);
      }
    }
  }

  /** A complete append leads the log. */
  lemma AppendLeads(cells: seq<Cell>, a: nat, q: nat, state: State, after: seq<Cell>)
    requires |cells| == PLACES && Led(cells, a, q) && a == ActiveSector(cells) && Tops(cells, state)
    requires q < FirstBlank(Sector(cells, a)) < RECORDS_PER_SECTOR
    requires after == cells[RECORDS_PER_SECTOR * a + FirstBlank(Sector(cells, a)) := Stored(state)]
    ensures Led(after, a, FirstBlank(Sector(cells, a)))
  {
    hide Newest, Newer, ActiveSector;
    var f := FirstBlank(Sector(cells, a));
    assert Sector(after, a) == Sector(cells, a)[f := Stored(state)];
  }

  lemma RotationLeads(cells: seq<Cell>, a: nat, state: State, after: seq<Cell>)
    requires |cells| == |after| == PLACES && a == ActiveSector(cells) && Tops(cells, state)
    requires FirstBlank(Sector(cells, a)) == RECORDS_PER_SECTOR
    requires Sector(after, 1 - a) == FreshSector(Stored(state)) && Worn(Sector(cells, a), Sector(after, a))
    ensures Led(after, 1 - a, 0)
  {
    hide Newest, Newer, ActiveSector, FirstBlank;
    RotatedCells(cells, a, state, after);
    var k := RECORDS_PER_SECTOR * (1 - a);
    forall i | 0 <= i < PLACES && i != k && after[i].Record?
      ensures Newer(state.sequence, after[i].state.sequence)
    {
      InSector(cells, i);
    }
  }

  lemma DamageKeepsLed(cells: seq<Cell>, a: nat, q: nat, after: seq<Cell>)
    requires |cells| == |after| == PLACES && Led(cells, a, q)
    requires Sector(after, a)[..q + 1] == Sector(cells, a)[..q + 1]
    requires forall i :: 0 <= i < PLACES && after[i].Record? ==> after[i] == cells[i]
    ensures Led(after, a, q)
  {
    hide Newer;
    var live, live' := Sector(cells, a), Sector(after, a);
    forall p | 0 <= p < RECORDS_PER_SECTOR
      ensures p <= q ==> live'[p] == live[p]
      ensures live'[p].Record? ==> live'[p] == live[p]
    {
      if p <= q { assert live'[..q + 1][p] == live[..q + 1][p]; }
      assert live'[p] == after[RECORDS_PER_SECTOR * a + p] && live[p] == cells[RECORDS_PER_SECTOR * a + p];
    }
    assert live'[q] == after[RECORDS_PER_SECTOR * a + q] && live[q] == cells[RECORDS_PER_SECTOR * a + q];
  }

  lemma ToppingKeepsOrder(cells: seq<Cell>, a: nat, q: nat, state: State, after: seq<Cell>, status: Status)
    requires |cells| == |after| == PLACES && Proper(cells) && Proper(after) && Led(cells, a, q) && Tops(cells, state)
    requires Appended(cells, state, after, status) || Rotated(cells, state, after, status)
    ensures Ordered(after)
  {
    LedIsNewest(cells, a, q);
    hide Newest, NewestPlace, FirstBlank, Newer, Proper, Led, ActiveSector, Tops, Worn, FreshSector, Sector, Appended;
    var t := 1 - a;
    if Appended(cells, state, after, status) {
      AppendKeepsOrder(cells, a, q, state, after, status);
    } else if status == Ok {
      RotationLeads(cells, a, state, after);
    } else if Sector(after, t) == FreshSector(Stored(state)) {
      SameIsWorn(Sector(cells, a));
      RotationLeads(cells, a, state, after);
    } else {
      RotationDamage(cells, a, q, state, after);
      DamageKeepsLed(cells, a, q, after);
    }
  }

  lemma AppendKeepsOrder(cells: seq<Cell>, a: nat, q: nat, state: State, after: seq<Cell>, status: Status)
    requires |cells| == |after| == PLACES && Proper(after) && Led(cells, a, q) && Tops(cells, state)
    requires a == ActiveSector(cells) && q < FirstBlank(Sector(cells, a))
    requires Appended(cells, state, after, status)
    ensures Ordered(after)
  {
    hide Newest, FirstBlank, Newer, Proper, Led, ActiveSector, Tops, Sector;
    var f := FirstBlank(Sector(cells, a));
    var c: Cell :| Fills(cells, RECORDS_PER_SECTOR * a + f, c, state, after, status);
    if c.Record? {
      AppendLeads(cells, a, q, state, after);
    } else {
      FilledCells(cells, a, q, f, c, after);
      FilledPrefix(cells, a, q, f, c, after);
      DamageKeepsLed(cells, a, q, after);
    }
  }

  lemma FilledPrefix(cells: seq<Cell>, a: nat, q: nat, f: nat, c: Cell, after: seq<Cell>)
    requires |cells| == PLACES && a < SECTOR_COUNT && q < f < RECORDS_PER_SECTOR
    requires after == cells[RECORDS_PER_SECTOR * a + f := c]
    ensures |after| == PLACES && Sector(after, a)[..q + 1] == Sector(cells, a)[..q + 1]
  {}

  lemma EmptyKeepsOrder(cells: seq<Cell>, state: State, after: seq<Cell>, status: Status)
    requires |cells| == |after| == PLACES && Empty(cells) && Proper(after) && Proper(cells) && Storable(state)
    requires Appended(cells, state, after, status) || Rotated(cells, state, after, status)
    ensures Ordered(after)
  {
    EmptyStore(cells, state, after, status);
    IntactIsOrdered(after);
  }

  /** One attempt at a state that tops the log, whatever becomes of it. */
  lemma ToppingStore(cells: seq<Cell>, state: State, after: seq<Cell>, status: Status)
    requires |after| == PLACES && Ordered(cells) && Proper(after)
    requires Advances(cells, state) ==> Tops(cells, state)
    requires StoreEffect(cells, state, after, status)
    ensures Ordered(after) && Takes(cells, state, after, status)
  {
    hide Newest, FirstBlank, NewestPlace, Storable, Orders, ActiveSector, Appended, Rotated, Newer, Proper, Tops, Led;
    if Advances(cells, state) {
      ToppingIsOrdered(cells, state);
      StoreIsAtomicIff(cells, state);
      if !(status == BackendError && after == cells) {
        NothingFoundIfEmpty(cells);
        if Empty(cells) {
          EmptyKeepsOrder(cells, state, after, status);
        } else {
          var a: nat, q: nat :| Led(cells, a, q);
          LedIsNewest(cells, a, q);
          ToppingKeepsOrder(cells, a, q, state, after, status);
        }
      }
    } else {
      NoAdvance(cells, state, after, status);
    }
  }

  lemma NothingFoundIfEmpty(cells: seq<Cell>)
    ensures Empty(cells) ==> Newest(cells) == DEFAULT
  {
    if Empty(cells) { NothingFound(cells); }
  }

  lemma NoAdvance(cells: seq<Cell>, state: State, after: seq<Cell>, status: Status)
    requires |cells| == PLACES && Proper(cells) && !Advances(cells, state) && StoreEffect(cells, state, after, status)
    ensures after == cells && Takes(cells, state, after, status)
  {}

  ghost predicate OrderedRun(images: seq<Bytes>, attempts: seq<Attempt>) {
    && |images| == |attempts| + 1
    && (forall i :: 0 <= i < |images| ==> |images[i]| == FLASH_SIZE)
    && forall i :: 0 <= i < |attempts| ==> OrderedStep(images[i], attempts[i], images[i + 1])
  }

  ghost predicate OrderedStep(before: Bytes, attempt: Attempt, after: Bytes)
    requires |before| == |after| == FLASH_SIZE
  {
    && (Advances(Cells(before), attempt.state) ==> Tops(Cells(before), attempt.state))
    && StoreEffect(Cells(before), attempt.state, Cells(after), attempt.status)
  }

  /** Over any run of stores and faults whose states top the log they meet, the
      log loads as the last store that took effect, and every store that
      reported success did. */
  lemma {:induction false} RunIsLinear(images: seq<Bytes>, attempts: seq<Attempt>) returns (durable: seq<bool>)
    requires OrderedRun(images, attempts) && Ordered(Cells(images[0]))
    ensures |durable| == |attempts|
    ensures forall i :: 0 <= i < |attempts| && attempts[i].status == Ok ==> durable[i]
    ensures Ordered(Cells(images[|attempts|]))
    ensures Newest(Cells(images[|attempts|])) == LastDurable(Newest(Cells(images[0])), attempts, durable)
  {
    hide Ordered, StoreEffect, Newest, Tops, Advances;
    var n := |attempts| - 1;
    if n < 0 {
      durable := [];
    } else {
      var rest := attempts[..n];
      var before := images[..n + 1];
      assert OrderedRun(before, rest);
      var earlier := RunIsLinear(before, rest);
      assert OrderedStep(images[n], attempts[n], images[n + 1]);
      CellsAreProper(images[n + 1]);
      ToppingStore(Cells(images[n]), attempts[n].state, Cells(images[n + 1]), attempts[n].status);
      var took := Newest(Cells(images[n + 1])) == attempts[n].state.(found := true);
      durable := earlier + [took];
      assert durable[..n] == earlier;
    }
  }

  // ---- Short steps ----

  /** Steps within MAX_STEP top every log such steps have written, so the log
      orders them. */
  lemma ShortStepsTop(cells: seq<Cell>, state: State)
    requires Intact(cells) && StepOk(cells, state) && Advances(cells, state)
    ensures Tops(cells, state) && Orders(cells, state)
  {
    hide Newest, NewestPlace, FirstBlank, ActiveSector, Placed, Sector;
    if Empty(cells) {
      EmptySector(cells, ActiveSector(cells));
    } else {
      var a: nat, q: nat :| Placed(cells, a, q);
      PlacedIsNewest(cells, a, q);
      FirstAfterTop(cells, a, q);
      var live := Sector(cells, a);
      forall p | 0 <= p < RECORDS_PER_SECTOR && live[p].Record?
        ensures Newer(state.sequence, live[p].state.sequence)
      {
        ShortOfLive(cells, a, q, p, state);
      }
      if FirstBlank(live) < RECORDS_PER_SECTOR {
        forall i | 0 <= i < PLACES && cells[i].Record?
          ensures Newer(state.sequence, cells[i].state.sequence)
        {
          ShortOfAny(cells, a, q, i, state);
        }
      }
    }
    ToppingIsOrdered(cells, state);
  }

  lemma EmptySector(cells: seq<Cell>, a: nat)
    requires |cells| == PLACES && Empty(cells) && a < SECTOR_COUNT
    ensures forall p :: 0 <= p < RECORDS_PER_SECTOR ==> !Sector(cells, a)[p].Record?
  {}

  lemma FirstAfterTop(cells: seq<Cell>, a: nat, q: nat)
    requires |cells| == PLACES && Placed(cells, a, q)
    ensures a < SECTOR_COUNT && FirstBlank(Sector(cells, a)) > q
    ensures Sector(cells, a)[q].Record?
  {}

  lemma ShortOfStale(cells: seq<Cell>, a: nat, q: nat, p: nat, state: State)
    requires |cells| == PLACES && Placed(cells, a, q) && q + 1 < RECORDS_PER_SECTOR
    requires 1 <= Distance(Sector(cells, a)[q].state.sequence, state.sequence) <= MAX_STEP
    requires p < RECORDS_PER_SECTOR && Sector(cells, 1 - a)[p].Record?
    ensures Newer(state.sequence, Sector(cells, 1 - a)[p].state.sequence)
  {
    Trails(Sector(cells, 1 - a)[p], Sector(cells, a)[q].state, state, MAX_STEP * (q + RECORDS_PER_SECTOR - p));
  }

  lemma ShortOfLive(cells: seq<Cell>, a: nat, q: nat, p: nat, state: State)
    requires |cells| == PLACES && Placed(cells, a, q)
    requires 1 <= Distance(Sector(cells, a)[q].state.sequence, state.sequence) <= MAX_STEP
    requires p < RECORDS_PER_SECTOR && Sector(cells, a)[p].Record?
    ensures Newer(state.sequence, Sector(cells, a)[p].state.sequence)
  {
    if p < q { Trails(Sector(cells, a)[p], Sector(cells, a)[q].state, state, MAX_STEP * (q - p)); }
  }

  lemma SectorBound(cells: seq<Cell>, a: nat, q: nat)
    requires |cells| == PLACES && Placed(cells, a, q)
    ensures a < SECTOR_COUNT && q < RECORDS_PER_SECTOR
  {}

  lemma ShortOfAny(cells: seq<Cell>, a: nat, q: nat, i: nat, state: State)
    requires |cells| == PLACES && Placed(cells, a, q) && q + 1 < RECORDS_PER_SECTOR
    requires 1 <= Distance(Sector(cells, a)[q].state.sequence, state.sequence) <= MAX_STEP
    requires i < PLACES && cells[i].Record?
    ensures Newer(state.sequence, cells[i].state.sequence)
  {
    hide Newer, Placed, Sector;
    var sector, p := i / RECORDS_PER_SECTOR, i % RECORDS_PER_SECTOR;
    InSector(cells, i);
    SectorBound(cells, a, q);
    if sector == a { ShortOfLive(cells, a, q, p, state); } else { ShortOfStale(cells, a, q, p, state); }
  }

  // ---- The bound on a uniform step is tight ----

  const LONG_STEP: nat := MAX_STEP + 1
  const LAST: nat := 3 * RECORDS_PER_SECTOR - 1

  /** The n-th state of a history that steps by LONG_STEP. */
  function Numbered(n: nat): State
    requires n <= LAST
  {
    State(LONG_STEP * n, SLOT_A, SLOT_NONE, 0, 3, 0, true)
  }

  /** Sector of the log after the first n stores of that history, the second
      rotation having lost power in its last erase. */
  function LingeringSector(n: nat, sector: nat): (s: seq<Cell>)
    requires 1 <= n <= LAST
    ensures |s| == RECORDS_PER_SECTOR
  {
    seq(RECORDS_PER_SECTOR, p requires 0 <= p < RECORDS_PER_SECTOR => Lingers(n, sector, p))
  }

  function Batch(n: nat): nat
    requires 1 <= n <= LAST
  {
    if n <= RECORDS_PER_SECTOR then 0 else if n <= 2 * RECORDS_PER_SECTOR then 1 else 2
  }

  function Lingers(n: nat, sector: nat, place: nat): Cell
    requires 1 <= n <= LAST && place < RECORDS_PER_SECTOR
  {
    var first := RECORDS_PER_SECTOR * Batch(n);
    if sector == Batch(n) % SECTOR_COUNT then
      if first + place < n then Record(Numbered(first + place)) else Blank
    else if Batch(n) == 2 then Record(Numbered(RECORDS_PER_SECTOR + place))
    else Blank
  }

  function Lingering(n: nat): (cells: seq<Cell>)
    requires 1 <= n <= LAST
    ensures |cells| == PLACES
    ensures Sector(cells, 0) == LingeringSector(n, 0) && Sector(cells, 1) == LingeringSector(n, 1)
  {
    LingeringSector(n, 0) + LingeringSector(n, 1)
  }

  /** The place of the last of them. */
  function LastPlace(n: nat): (q: nat)
    requires 1 <= n <= LAST
    ensures q < RECORDS_PER_SECTOR
  {
    n - 1 - RECORDS_PER_SECTOR * Batch(n)
  }

  lemma LingeringRecord(n: nat, i: nat) returns (m: nat)
    requires 1 <= n <= LAST && i < PLACES && Lingering(n)[i].Record?
    ensures m < n < m + 2 * RECORDS_PER_SECTOR && Lingering(n)[i] == Record(Numbered(m))
    ensures m == n - 1 ==> i == RECORDS_PER_SECTOR * (Batch(n) % SECTOR_COUNT) + LastPlace(n)
  {
    var sector, p := i / RECORDS_PER_SECTOR, i % RECORDS_PER_SECTOR;
    assert Lingering(n)[i] == Sector(Lingering(n), sector)[p] == Lingers(n, sector, p);
    m := if sector == Batch(n) % SECTOR_COUNT then RECORDS_PER_SECTOR * Batch(n) + p else RECORDS_PER_SECTOR + p;
  }

  lemma LingeringLive(n: nat)
    requires 1 <= n <= LAST
    ensures var a, q := Batch(n) % SECTOR_COUNT, LastPlace(n);
      && Lingering(n)[RECORDS_PER_SECTOR * a + q] == Record(Numbered(n - 1))
      && forall p :: 0 <= p < RECORDS_PER_SECTOR ==>
           if p <= q then Sector(Lingering(n), a)[p].Record? else Sector(Lingering(n), a)[p].Blank?
  {
    var a, q := Batch(n) % SECTOR_COUNT, LastPlace(n);
    var live := LingeringSector(n, a);
    assert Sector(Lingering(n), a) == live;
    assert live[q] == Lingers(n, a, q) == Record(Numbered(n - 1));
    assert Sector(Lingering(n), a)[q] == Lingering(n)[RECORDS_PER_SECTOR * a + q];
  }

  lemma LingeringOrder(n: nat, i: nat)
    requires 1 <= n <= LAST && i < PLACES && Lingering(n)[i].Record?
    ensures Lingering(n)[i].state.found && Storable(Lingering(n)[i].state)
    ensures i != RECORDS_PER_SECTOR * (Batch(n) % SECTOR_COUNT) + LastPlace(n) ==>
      Newer(Numbered(n - 1).sequence, Lingering(n)[i].state.sequence)
  {
    var m := LingeringRecord(n, i);
    hide Lingering, LastPlace, Batch;
  }

  lemma LingeringIsLed(n: nat)
    requires 1 <= n <= LAST
    ensures var a := Batch(n) % SECTOR_COUNT;
      && Proper(Lingering(n)) && Led(Lingering(n), a, LastPlace(n))
      && Newest(Lingering(n)) == Numbered(n - 1) && ActiveSector(Lingering(n)) == a
      && FirstBlank(Sector(Lingering(n), a)) == LastPlace(n) + 1
  {
    var cells, a, q := Lingering(n), Batch(n) % SECTOR_COUNT, LastPlace(n);
    hide FirstBlank, Newest, NewestPlace, Lingering, Lingers, LastPlace, Numbered, Storable, Newer, Sector, Batch;
    LingeringLive(n);
    FirstOfClean(Sector(cells, a), q);
    forall i | 0 <= i < PLACES && cells[i].Record?
      ensures cells[i].state.found && Storable(cells[i].state)
      ensures i != RECORDS_PER_SECTOR * a + q ==> Newer(Numbered(n - 1).sequence, cells[i].state.sequence)
    {
      LingeringOrder(n, i);
    }
    LedIsNewest(cells, a, q);
  }

  lemma LingeringStep(n: nat)
    requires 1 <= n < LAST
    ensures StoreEffect(Lingering(n), Numbered(n), Lingering(n + 1), Ok)
  {
    LingeringIsLed(n);
    var cells, after, state := Lingering(n), Lingering(n + 1), Numbered(n);
    var a, q := Batch(n) % SECTOR_COUNT, LastPlace(n);
    assert Newer(state.sequence, Newest(cells).sequence);
    hide Led, Newest, NewestPlace, FirstBlank, ActiveSector, Newer, Sector, Lingering;
    if q + 1 < RECORDS_PER_SECTOR {
      LingeringAppend(n);
      assert Fills(cells, RECORDS_PER_SECTOR * a + q + 1, Stored(state), state, after, Ok);
      assert Appended(cells, state, after, Ok);
    } else {
      LingeringRotate(n);
      assert Rotated(cells, state, after, Ok);
    }
  }

  lemma LingeringAppend(n: nat)
    requires 1 <= n < LAST && LastPlace(n) + 1 < RECORDS_PER_SECTOR
    ensures var k := RECORDS_PER_SECTOR * (Batch(n) % SECTOR_COUNT) + LastPlace(n) + 1;
      Lingering(n + 1) == Lingering(n)[k := Stored(Numbered(n))]
  {
    var a, q := Batch(n) % SECTOR_COUNT, LastPlace(n);
    assert Batch(n + 1) == Batch(n);
    assert LingeringSector(n + 1, a) == LingeringSector(n, a)[q + 1 := Stored(Numbered(n))];
    assert LingeringSector(n + 1, 1 - a) == LingeringSector(n, 1 - a);
  }

  lemma LingeringRotate(n: nat)
    requires 1 <= n < LAST && LastPlace(n) + 1 == RECORDS_PER_SECTOR
    ensures var a := Batch(n) % SECTOR_COUNT;
      && Sector(Lingering(n + 1), 1 - a) == FreshSector(Stored(Numbered(n)))
      && Worn(Sector(Lingering(n), a), Sector(Lingering(n + 1), a))
  {
    var a := Batch(n) % SECTOR_COUNT;
    assert n == RECORDS_PER_SECTOR * Batch(n + 1) && Batch(n + 1) == Batch(n) + 1;
    assert LingeringSector(n + 1, 1 - a) == FreshSector(Stored(Numbered(n)));
    assert Worn(LingeringSector(n, a), LingeringSector(n + 1, a));
  }

  /** From a blank log, 383 stores that step by one more than MAX_STEP all report
      success and load next; the one after them need not. So MAX_STEP is the
      longest step that is safe whatever the history. */
  lemma StepBoundIsTight()
    ensures StoreEffect(BlankLog(), Numbered(0), Lingering(1), Ok)
    ensures forall n :: 1 <= n < LAST ==> StoreEffect(Lingering(n), Numbered(n), Lingering(n + 1), Ok)
    ensures forall n :: 1 <= n <= LAST ==> Newest(Lingering(n)) == Numbered(n - 1)
    ensures Ordered(Lingering(LAST)) && Advances(Lingering(LAST), Numbered(LAST))
    ensures !Orders(Lingering(LAST), Numbered(LAST))
  {
    hide Newest, StoreEffect, Lingering, Ordered, Advances, Orders, Led, Proper, ActiveSector;
    LingeringStart();
    forall n | 1 <= n < LAST ensures StoreEffect(Lingering(n), Numbered(n), Lingering(n + 1), Ok) { LingeringStep(n); }
    forall n | 1 <= n <= LAST ensures Newest(Lingering(n)) == Numbered(n - 1) { LingeringIsLed(n); }
    LingeringEnds();
  }

  lemma LingeringEnds()
    ensures Ordered(Lingering(LAST)) && Advances(Lingering(LAST), Numbered(LAST))
    ensures !Orders(Lingering(LAST), Numbered(LAST))
  {
    LingeringIsLed(LAST);
    var cells := Lingering(LAST);
    assert Sector(cells, 1)[0] == Lingers(LAST, 1, 0) == Record(Numbered(RECORDS_PER_SECTOR));
    hide Newest, NewestPlace, FirstBlank, ActiveSector, Lingering, Lingers, Led, Proper;
    assert Newer(Numbered(RECORDS_PER_SECTOR).sequence, Numbered(LAST).sequence);
  }

  lemma LingeringStart()
    ensures StoreEffect(BlankLog(), Numbered(0), Lingering(1), Ok)
  {
    BlankLogNewest();
    var cells, after, state := BlankLog(), Lingering(1), Numbered(0);
    hide Newest, NewestPlace;
    assert Sector(cells, 0)[0].Blank?;
    assert FirstBlank(Sector(cells, 0)) == 0;
    assert after == cells[0 := Stored(state)];
    assert Fills(cells, 0, Stored(state), state, after, Ok);
    assert Appended(cells, state, after, Ok);
  }
}
