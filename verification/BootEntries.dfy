/** The states recovery is entered with: which of them the engine can take the
    next step from, and what each protects. */
module BootEntries {
  import opened Words
  import opened BootState
  import opened Nor
  import opened Journal
  import opened JournalProofs
  import opened Trial
  import opened Image
  import opened EngineSpec
  import opened RecoveryEngine
  import opened EngineProofs
  import opened BootMachine
  import opened BootProofs
  import opened BootFaults
  import opened Devices
  import opened Sessions
  import Package

  /** The record an engine would store next is a short step on. */
  ghost predicate StepsOn(e: Engine, mem: Bytes)
    requires |mem| == FLASH_SIZE
  {
    StepOk(Cells(mem), Begun(e.bootState, OtherSlot(Current(mem).confirmed)))
  }

  /** Sequences from which the first record of the default state, number 1, is
      accepted although it is a long step on. */
  predicate Late(s: State) { s.found && 0x8000_0002 <= s.sequence <= WORD - MAX_STEP }

  lemma DefaultStepsIff(mem: Bytes)
    requires |mem| == FLASH_SIZE && Current(mem).confirmed == SLOT_A
    ensures StepOk(Cells(mem), Begun(DEFAULT, SLOT_B)) <==> !Late(Current(mem))
  {
    hide Newest, Cells;
    CurrentIsStorable(mem);
    var s := Begun(DEFAULT, SLOT_B);
    assert s == State(1, SLOT_A, SLOT_B, 0, DEFAULT_MAX_TRIALS, 0, false);
  }

  lemma FewSteps(cells: seq<Cell>, state: State, n: nat)
    requires |cells| == PLACES && n <= 2 && state.sequence == Wrap32(Newest(cells).sequence + n)
    ensures StepOk(cells, state)
  {
    assert Distance(Newest(cells).sequence, state.sequence) == n;
  }

  /** A stage's own record, stored or not, is at most one step from the journal. */
  lemma StageSteps(current: State, state: State, mem: Bytes, e: Engine)
    requires |mem| == FLASH_SIZE && Storable(current) && current.found
    requires current.pending != SLOT_NONE && e.bootState == state
    requires state == Confirmed(current) || state == RolledBack(current)
      || (current.trials < current.maxTrials && state == Tried(current))
    requires Current(mem) == current || Current(mem) == state.(found := true)
    ensures StepsOn(e, mem)
  {
    hide Newest, Cells, StepOk;
    var next := Begun(state, OtherSlot(Current(mem).confirmed));
    var n := if Current(mem) == current then (if next == state then 1 else 2) else (if next == state then 0 else 1);
    FewSteps(Cells(mem), next, n);
  }

  lemma CurrentSteps(e: Engine, mem: Bytes)
    requires |mem| == FLASH_SIZE && e.bootState == Current(mem)
    ensures StepsOn(e, mem)
  {
    hide Newest, StepOk;
    CurrentIsNear(e, mem);
  }

  /** A journal and a confirmed slot in order, and an engine just started. */
  ghost predicate Entered(v: World) {
    && |v.mem| == FLASH_SIZE && Intact(Cells(v.mem)) && Bootable(v.mem, Current(v.mem).confirmed)
    && v.mode.Recovery? && IsEntry(v.mode.engine, v.mode.engine.bootState) && Storable(v.mode.engine.bootState)
  }

  lemma ReadEntry(w: World, v: World, state: State)
    requires Safe(w) && Recovers(w, v, state) && (state == DEFAULT || state == Current(w.mem))
    ensures Entered(v) && v.mem == w.mem && v.mode.engine.bootState == state
    ensures state == Current(w.mem) ==> StepsOn(v.mode.engine, v.mem)
  {
    hide Intact, Bootable, Newest, StepsOn;
    CurrentIsStorable(w.mem);
    if state == Current(w.mem) { CurrentSteps(v.mode.engine, v.mem); }
  }

  /** Whatever failed, a boot enters recovery with the default state or with one
      the engine can step on from. */
  lemma EveryEntrySteps(w: World, l: Label, v: World)
    requires Moves(w, l, v) && Safe(w) && !w.mode.Recovery? && v.mode.Recovery?
    ensures Entered(v)
    ensures v.mode.engine.bootState == DEFAULT || StepsOn(v.mode.engine, v.mem)
  {
    hide Intact, Bootable, Newest, StepOk, Stores, StepsOn, Recovers, Entered;
    match l
    case Force(loaded) => ReadEntry(w, v, if loaded then Current(w.mem) else DEFAULT);
    case Confirm(o) => ConfirmEntrySteps(w, o, v);
    case Prepare(o) => PrepareEntrySteps(w, o, v);
    case TryFirst(loads, o) => FirstEntrySteps(w, loads, o, v);
    case TrySecond(loads) => ReadEntry(w, v, w.mode.state);
    case _ =>
  }

  lemma StageEntrySteps(w: World, state: State, next: Mode, note: seq<Event>, v: World)
    requires Safe(w) && Current(w.mem).pending != SLOT_NONE && Bootable(w.mem, state.confirmed)
    requires StoreStage(w, state, StoreFailed, next, note, v)
    requires var current := Current(w.mem);
      || state == Confirmed(current) || state == RolledBack(current)
      || (current.trials < current.maxTrials && state == Tried(current))
    ensures Entered(v) && StepsOn(v.mode.engine, v.mem)
  {
    hide Intact, Bootable, Newest, StepOk, Stores, StepsOn;
    CurrentIsStorable(w.mem);
    OneStep(Cells(w.mem), state);
    StoreStageKeeps(w, state, StoreFailed, next, note, v);
    StageSteps(Current(w.mem), state, v.mem, v.mode.engine);
  }

  lemma ConfirmEntrySteps(w: World, o: Outcome, v: World)
    requires Moves(w, Confirm(o), v) && Safe(w) && v.mode.Recovery?
    ensures Entered(v)
    ensures v.mode.engine.bootState == DEFAULT || StepsOn(v.mode.engine, v.mem)
  {
    hide Intact, Bootable, Newest, StepOk, Stores, StepsOn, StoreStage, Recovers, Entered;
    var current := Current(w.mem);
    if w.mode.confirmation.Some? {
      var t := w.mode.confirmation.value;
      if o == ReadFailed {
        if Recovers(w, v, DEFAULT) { ReadEntry(w, v, DEFAULT); } else { ReadEntry(w, v, current); }
      } else if current.pending == t.slot && current.sequence == t.sequence {
        BootableIsValid(w.mem, t.slot);
        StageOutcome(w, Confirmed(current), o, Preparing(Confirmed(current)), [Confirms(t)], v);
        StageEntrySteps(w, Confirmed(current), Preparing(Confirmed(current)), [Confirms(t)], v);
      }
    }
  }

  lemma StageOutcome(w: World, state: State, o: Outcome, next: Mode, note: seq<Event>, v: World)
    requires |w.mem| == FLASH_SIZE && StoreStage(w, state, o, next, note, v) && v.mode.Recovery? && !next.Recovery?
    ensures o == StoreFailed
  {
    hide Stores, Newest;
  }

  lemma PrepareEntrySteps(w: World, o: Outcome, v: World)
    requires Moves(w, Prepare(o), v) && Safe(w) && v.mode.Recovery?
    ensures Entered(v)
    ensures v.mode.engine.bootState == DEFAULT || StepsOn(v.mode.engine, v.mem)
  {
    hide Intact, Bootable, Newest, StepOk, Stores, StepsOn, StoreStage, Recovers, Entered;
    var current := Current(w.mem);
    if o == ReadFailed {
      ReadEntry(w, v, w.mode.state);
    } else if current.trials >= current.maxTrials {
      StageOutcome(w, RolledBack(current), o, First(RolledBack(current), current.confirmed), [], v);
      StageEntrySteps(w, RolledBack(current), First(RolledBack(current), current.confirmed), [], v);
    } else {
      StageOutcome(w, Tried(current), o, First(Tried(current), current.pending), [], v);
      StageEntrySteps(w, Tried(current), First(Tried(current), current.pending), [], v);
    }
  }

  lemma FirstEntrySteps(w: World, loads: bool, o: Outcome, v: World)
    requires Moves(w, TryFirst(loads, o), v) && Safe(w) && v.mode.Recovery?
    ensures Entered(v) && StepsOn(v.mode.engine, v.mem)
  {
    hide Intact, Bootable, Newest, StepOk, Stores, StepsOn, StoreStage, Recovers, Entered;
    var current := Current(w.mem);
    if o == ReadFailed || current.pending == SLOT_NONE {
      ReadEntry(w, v, current);
    } else {
      StageOutcome(w, RolledBack(current), o, Second(RolledBack(current), current.confirmed), [], v);
      StageEntrySteps(w, RolledBack(current), Second(RolledBack(current), current.confirmed), [], v);
    }
  }

  /** What a boot's entry into recovery protects, after any fault on the way in:
      the confirmed slot stays bootable through any reports and backend faults
      if and only if the state handed over confirms the same slot as the
      journal. Left aside is the default state beside a journal that is late in
      its sequence; LateDefault shows such an entry that agrees and protects
      nothing. */
  lemma BootEntryProtectsIff(w: World, l: Label, v: World)
    requires Moves(w, l, v) && Safe(w) && !w.mode.Recovery? && v.mode.Recovery?
    requires v.mode.engine.bootState == DEFAULT && |v.mem| == FLASH_SIZE ==> !Late(Current(v.mem))
    ensures |v.mem| == FLASH_SIZE
    ensures Protects(v.mode.engine, v.mem) <==> v.mode.engine.bootState.confirmed == Current(v.mem).confirmed
  {
    hide Moves, Safe, Intact, Bootable, Newest, StepOk, Protects, Storable, IsEntry;
    EveryEntrySteps(w, l, v);
    if v.mode.engine.bootState == DEFAULT && Current(v.mem).confirmed == SLOT_A { DefaultStepsIff(v.mem); }
    EntryProtectsIffConfirmedAgrees(v.mode.engine, v.mem);
  }

  // ---- A late journal ----

  const LATE: State := State(0x8000_0002, SLOT_A, SLOT_NONE, 0, 3, 0, true)
  const OLDER: State := State(0x8000_0000, SLOT_B, SLOT_NONE, 0, 3, 0, true)
  const RESTART: State := State(1, SLOT_A, SLOT_B, 0, 3, 0, false)

  function LateLog(): (cells: seq<Cell>)
    ensures |cells| == PLACES
  {
    seq(PLACES, i => if i == 0 then Record(LATE) else if i == RECORDS_PER_SECTOR then Record(OLDER) else Blank)
  }

  /** The log, what a default entry stores in it, and what loads next. */
  lemma LateLogSurfaces()
    ensures Intact(LateLog()) && Newest(LateLog()) == LATE
    ensures Begun(DEFAULT, SLOT_B) == RESTART
    ensures StoreEffect(LateLog(), RESTART, LateLog()[1 := Stored(RESTART)], Journal.Ok)
    ensures Newest(LateLog()[1 := Stored(RESTART)]) == OLDER
  {
    LateLogPlaced();
    var cells := LateLog();
    var after := cells[1 := Stored(RESTART)];
    hide NewestPlace, Placed, Proper;
    PlacedIsNewest(cells, 0, 0);
    var live := Sector(cells, 0);
    assert live[0] == Record(LATE) && live[1] == Blank;
    assert FirstBlank(live) == 1;
    hide Newest, ActiveSector;
    assert Fills(cells, 1, Stored(RESTART), RESTART, after, Journal.Ok);
    assert Appended(cells, RESTART, after, Journal.Ok);
    PickLast(after, RECORDS_PER_SECTOR);
    var half := after[..RECORDS_PER_SECTOR];
    PickLast(half, 1);
    assert half[..1] == [Record(LATE)];
    NewestOfOne(Record(LATE));
  }

  lemma LateAreStorable()
    ensures Storable(LATE) && Storable(OLDER) && Storable(RESTART)
  {}

  lemma LateLogPlaced()
    ensures Placed(LateLog(), 0, 0) && Proper(LateLog())
  {
    var cells := LateLog();
    var live, stale := Sector(cells, 0), Sector(cells, 1);
    assert live[0] == Record(LATE) && stale[0] == Record(OLDER);
    assert forall p :: 0 < p < RECORDS_PER_SECTOR ==> live[p] == Blank && stale[p] == Blank;
    assert Distance(OLDER.sequence, LATE.sequence) == 2;
  }

  /** Flash with that log and an image that boots in slot A. */
  lemma LateDevice() returns (mem: Bytes)
    ensures |mem| == FLASH_SIZE && Cells(mem) == LateLog() && Bootable(mem, SLOT_A)
  {
    hide Cells, Bootable, WithRecord, FlashWith, Empty, SmallestImage, SameOutside, Storable;
    LateAreStorable();
    var mem0 := SmallestDevice(SLOT_A);
    var mem1 := WithRecord(mem0, 0, LATE);
    WithRecordIs(mem0, 0, LATE);
    mem := WithRecord(mem1, RECORDS_PER_SECTOR, OLDER);
    WithRecordIs(mem1, RECORDS_PER_SECTOR, OLDER);
    assert Cells(mem) == LateLog();
  }

  lemma SmallestIsComplete()
    ensures Complete(SmallestImage())
  {
    hide ImageValid, Package.BuildSlotImage, Package.Vectors8;
    forall slot: Bytes | |slot| == SLOT_SIZE && SmallestImage() <= slot
      ensures ImageValid(slot) && MANIFEST_SIZE + ImageSize(Manifest(slot)) <= |SmallestImage()|
    {
      Package.SmallestImageIsValid(slot);
      Package.PackedSize(Package.Vectors8(), 0, 0, slot);
    }
  }

  /** An entry that agrees with its journal and still protects nothing: after a
      failed journal read, one complete update of slot B over a backend that
      works makes an older record surface, which confirms slot B; the engine
      goes on taking slot A for confirmed and erases slot B when told to. */
  lemma LateDefault() returns (e: Engine, mem: Bytes)
    ensures |mem| == FLASH_SIZE && Intact(Cells(mem)) && IsEntry(e, DEFAULT) && e.bootState == DEFAULT
    ensures Current(mem).confirmed == DEFAULT.confirmed && Bootable(mem, Current(mem).confirmed)
    ensures Late(Current(mem)) && !Protects(e, mem)
  {
    hide Cells, Bootable, Sound, Bounded, EngineStep, SameOutside, EngineRun, Running, Newest, Intact, StoreEffect, Complete, Protects;
    mem := LateDevice();
    LateLogSurfaces();
    e := Fresh(DEFAULT, SLOT_A, 1, false, false);
    EntryIsFresh(e);
    SmallestIsComplete();
    var run, inputs := LateRun(e, mem);
    assert !Protects(e, mem) by { Unprotected(e, mem, run, inputs); }
  }

  lemma Unprotected(e: Engine, mem: Bytes, run: seq<Snap>, inputs: seq<Input>)
    requires EngineRun(run, inputs) && run[0] == Snap(e, mem) && !StillBoots(run[|inputs|])
    ensures !Protects(e, mem)
  {
    hide StillBoots, EngineStep;
  }

  lemma LateRun(e: Engine, mem: Bytes) returns (run: seq<Snap>, inputs: seq<Input>)
    requires |mem| == FLASH_SIZE && Cells(mem) == LateLog() && Sound(e) && e.previous == None
    requires e.bootState == DEFAULT && e.active == SLOT_A && Complete(SmallestImage())
    ensures EngineRun(run, inputs) && run[0] == Snap(e, mem) && !StillBoots(run[|inputs|])
  {
    hide Cells, Bootable, Sound, Bounded, EngineStep, SameOutside, Running, Newest, StoreEffect, Complete, Stores, WithRecord, Protects, SmallestImage, Storable, Intact, SlotBytes;
    LateAreStorable();
    LateLogSurfaces();
    run, inputs := SessionGoesThrough(e, mem, SLOT_B, SmallestImage());
    var s := run[|inputs|];
    JournalUntouched(mem, s.mem, SlotOffset(SLOT_B), SLOT_SIZE);
    var after := WithRecord(s.mem, 1, RESTART);
    WithRecordIs(s.mem, 1, RESTART);
    StoresWith(s.mem, RESTART, after);
    var i, next := PendingGoes(s, SLOT_B, |SmallestImage()|, after);
    OneStepRun(s, i, next);
    run, inputs := JoinRuns(run, inputs, [s, next], [i]);
    var wipe, reports := UnprotectedSlotCanBeErased(next.engine, after, SLOT_B);
    run, inputs := JoinRuns(run, inputs, wipe, reports);
  }

  lemma StoresWith(mem: Bytes, state: State, after: Bytes)
    requires |mem| == FLASH_SIZE && SameOutside(mem, after, METADATA_OFFSET, JOURNAL_SIZE)
    requires StoreEffect(Cells(mem), state, Cells(after), Journal.Ok)
    ensures Stores(mem, state, true, after)
  {
    hide StoreEffect;
  }

  // ---- A device whose confirmed slot is B ----

  /** A safe world whose journal confirms slot B, in the middle of a boot. */
  lemma ADeviceOnSlotB() returns (w: World)
    ensures |w.mem| == FLASH_SIZE && Safe(w) && w.mode.Consumed? && Current(w.mem).confirmed == SLOT_B
  {
    hide Cells, Bootable, WithRecord, FlashWith, Empty, Newest, NewestPlace, SmallestImage, SameOutside, Storable;
    LateAreStorable();
    var mem0 := SmallestDevice(SLOT_B);
    var mem := WithRecord(mem0, 0, OLDER);
    WithRecordIs(mem0, 0, OLDER);
    OnlyRecord(Cells(mem), OLDER);
    CellsAreProper(mem);
    w := World(mem, Mail(0, 0, 0, 0), Consumed(None), []);
    NoToken(w.mail);
  }

  lemma OnlyRecord(cells: seq<Cell>, state: State)
    requires |cells| == PLACES && Proper(cells) && cells[0] == Record(state)
    requires forall i :: 0 < i < PLACES ==> cells[i].Blank?
    ensures Intact(cells) && Newest(cells) == state
  {
    var live, stale := Sector(cells, 0), Sector(cells, 1);
    assert live[0] == cells[0];
    assert Placed(cells, 0, 0);
    hide Placed;
    PlacedIsNewest(cells, 0, 0);
  }

  /** So one failed journal read does brick a device that was in order. */
  lemma ReadErrorBricksADevice(seed: uint32) returns (worlds: seq<World>, labels: seq<Label>)
    requires seed != 0
    ensures Path(worlds, labels) && |labels| == 3 && Safe(worlds[0])
    ensures Bootable(worlds[0].mem, Current(worlds[0].mem).confirmed)
    ensures |worlds[3].mem| == FLASH_SIZE && !Bootable(worlds[3].mem, Current(worlds[3].mem).confirmed)
  {
    hide Safe, Bootable, Newest, Moves;
    var w := ADeviceOnSlotB();
    SafeBoots(w);
    worlds, labels := ReadErrorCanBrick(w, seed);
  }
}
