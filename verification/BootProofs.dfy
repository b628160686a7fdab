/** Safety of the update system over every run of its state machine. */
module BootProofs {
  import opened Words
  import opened BootState
  import opened Nor
  import opened Journal
  import opened JournalProofs
  import opened Trial
  import opened Image
  import opened Protocol
  import opened EngineSpec
  import opened RecoveryEngine
  import opened EngineProofs
  import opened BootMachine

  lemma CurrentIsStorable(mem: Bytes)
    requires |mem| == FLASH_SIZE
    ensures Storable(Current(mem))
    ensures Current(mem).pending != SLOT_NONE ==> Current(mem).found
  {
    CellsAreProper(mem);
    NewestIsStorable(Cells(mem));
  }

  lemma NewestIsStorable(cells: seq<Cell>)
    requires Proper(cells)
    ensures Storable(Newest(cells))
    ensures Newest(cells) == DEFAULT || Newest(cells).found
  {
    if cells != [] {
      var rest := cells[..|cells| - 1];
      assert forall i :: 0 <= i < |rest| ==> rest[i] == cells[i];
      NewestIsStorable(rest);
    }
  }

  /** A store attempt between two journal states, seen from the whole flash. */
  lemma StoreKeeps(mem: Bytes, state: State, ok: bool, after: Bytes)
    requires |mem| == FLASH_SIZE && Intact(Cells(mem)) && StepOk(Cells(mem), state)
    requires Stores(mem, state, ok, after)
    ensures |after| == FLASH_SIZE && Intact(Cells(after))
    ensures Current(after) == Current(mem) || Current(after) == state.(found := true)
    ensures ok ==> Current(after) == state.(found := true)
    ensures forall slot :: Bootable(after, slot) == Bootable(mem, slot)
  {
    hide Intact, StepOk, StoreEffect, Bootable, Newest;
    var status: Journal.Status :| StoreEffect(Cells(mem), state, Cells(after), status) && ok == (status == Journal.Ok);
    CellsAreProper(after);
    StoreIsAtomic(Cells(mem), state, Cells(after), status);
    forall slot ensures Bootable(after, slot) == Bootable(mem, slot) {
      SlotsOutsideJournal(mem, after, slot);
    }
  }

  lemma SlotsOutsideJournal(mem: Bytes, after: Bytes, slot: uint8)
    requires |mem| == FLASH_SIZE && SameOutside(mem, after, METADATA_OFFSET, JOURNAL_SIZE)
    ensures |after| == FLASH_SIZE && Bootable(after, slot) == Bootable(mem, slot)
  {
    hide ImageValid;
    if SlotValid(slot) { BootableElsewhere(mem, after, METADATA_OFFSET, JOURNAL_SIZE, slot); }
  }

  /** Every lifecycle transition steps the sequence by one. */
  lemma OneStep(cells: seq<Cell>, state: State)
    requires |cells| == PLACES && state.sequence == Wrap32(Newest(cells).sequence + 1)
    ensures StepOk(cells, state)
  {
    assert Distance(Newest(cells).sequence, state.sequence) == 1;
  }

  // ---- One step at a time ----

  /** Steps out of the retained mailbox into a boot. */
  lemma ConsumeSafe(w: World, running: bool, v: World)
    requires Safe(w) && Moves(w, Consume(running), v)
    ensures Safe(v)
  {
    hide Intact, Bootable, Newest;
    ClearSilences(w.mail, v.mail, running);
    if running { NoToken(v.mail); }
  }

  lemma SilentIsBacked(m: Mail, mem: Bytes)
    requires |mem| == FLASH_SIZE && Silent(m)
    ensures Backed(Confirmation(m), mem) && Backed(Handoff(m), mem)
  {}

  /** A store stage keeps the world safe if the state it leads to is one. */
  ghost predicate Kept(w: World, state: State, ok: bool, v: World)
    requires |w.mem| == FLASH_SIZE
  {
    && |v.mem| == FLASH_SIZE && Intact(Cells(v.mem))
    && (Current(v.mem) == Current(w.mem) || Current(v.mem) == state.(found := true))
    && (ok ==> Current(v.mem) == state.(found := true))
    && forall slot :: Bootable(v.mem, slot) == Bootable(w.mem, slot)
  }

  lemma StoreStageKeeps(w: World, state: State, o: Outcome, next: Mode, note: seq<Event>, v: World)
    requires |w.mem| == FLASH_SIZE && Intact(Cells(w.mem)) && StepOk(Cells(w.mem), state)
    requires StoreStage(w, state, o, next, note, v)
    ensures Kept(w, state, o == Done, v)
    ensures v.mail == w.mail
    ensures o == Done ==> v.mode == next
    ensures o == PowerLost ==> v.mode == Off
    ensures o == StoreFailed ==> v.mode.Recovery? && IsEntry(v.mode.engine, state)
  {
    hide Intact, StepOk, Bootable, Newest;
    StoreKeeps(w.mem, state, o == Done, v.mem);
  }

  /** Safe, as far as it does not depend on the mode. */
  ghost predicate SafeCore(w: World) {
    && |w.mem| == FLASH_SIZE
    && Intact(Cells(w.mem))
    && Bootable(w.mem, Current(w.mem).confirmed)
  }

  ghost predicate EntryNear(w: World, v: World)
    requires |v.mem| == FLASH_SIZE
  {
    !w.mode.Recovery? && v.mode.Recovery? ==> Near(v.mode.engine, v.mem)
  }

  /** Entering recovery with an agreeing state is safe. */
  lemma EntrySafe(v: World, state: State)
    requires SafeCore(v) && Silent(v.mail) && v.mode.Recovery? && IsEntry(v.mode.engine, state)
    requires Near(v.mode.engine, v.mem)
    ensures Safe(v)
  {
    hide Intact, Bootable, Newest, StepOk;
    SilentIsBacked(v.mail, v.mem);
  }

  lemma SilentSafe(v: World)
    requires SafeCore(v) && Silent(v.mail)
    requires v.mode.Off? || (v.mode.Preparing? && (v.mode.state == DEFAULT || v.mode.state == Current(v.mem)))
    ensures Safe(v)
  {
    hide Intact, Bootable, Newest;
    SilentIsBacked(v.mail, v.mem);
  }

  lemma ConfirmSafe(w: World, o: Outcome, v: World)
    requires Safe(w) && Moves(w, Confirm(o), v) && EntryNear(w, v)
    ensures Safe(v)
  {
    hide Intact, Bootable, Newest, StepOk, Stores, Near, IsEntry;
    var current := Current(w.mem);
    SilentIsBacked(w.mail, w.mem);
    if w.mode.confirmation.Some? {
      var t := w.mode.confirmation.value;
      if o != ReadFailed && !(o == PowerLost && v == w.(mode := Off))
         && current.pending == t.slot && current.sequence == t.sequence {
        BootableIsValid(w.mem, t.slot);
        CurrentIsStorable(w.mem);
        OneStep(Cells(w.mem), Confirmed(current));
        StoreStageKeeps(w, Confirmed(current), o, Preparing(Confirmed(current)), [Confirms(t)], v);
        assert SafeCore(v);
        if v.mode.Recovery? { EntrySafe(v, Confirmed(current)); } else { SilentSafe(v); }
      } else if v.mode.Recovery? {
        RecoversSafe(w, v, current);
      }
    }
  }

  lemma BootableIsValid(mem: Bytes, slot: uint8)
    requires |mem| == FLASH_SIZE && Bootable(mem, slot)
    ensures SlotValid(slot) && slot != SLOT_NONE
  {
    hide ImageValid;
  }

  lemma RecoversSafe(w: World, v: World, current: State)
    requires |v.mem| == FLASH_SIZE
    requires Recovers(w, v, DEFAULT) || Recovers(w, v, current)
    requires EntryNear(w, v) && !w.mode.Recovery? && Booting(w.mode)
    requires Safe(w)
    ensures Safe(v)
  {
    hide Intact, Bootable, Newest, StepOk, Near, IsEntry;
    if Recovers(w, v, DEFAULT) { EntrySafe(v, DEFAULT); } else { EntrySafe(v, current); }
  }

  lemma PrepareSafe(w: World, o: Outcome, v: World)
    requires Safe(w) && Moves(w, Prepare(o), v) && EntryNear(w, v)
    ensures Safe(v)
  {
    hide Intact, Bootable, Newest, StepOk, Stores, Near, IsEntry;
    var current := Current(w.mem);
    CurrentIsStorable(w.mem);
    SilentIsBacked(w.mail, w.mem);
    if o == ReadFailed {
      RecoversSafe(w, v, current);
    } else if o == PowerLost && v == w.(mode := Off) {
    } else if current.pending == SLOT_NONE {
    } else if current.trials >= current.maxTrials {
      OneStep(Cells(w.mem), RolledBack(current));
      StoreStageKeeps(w, RolledBack(current), o, First(RolledBack(current), current.confirmed), [], v);
      StageSafe(w, RolledBack(current), current.confirmed, o, v);
    } else {
      OneStep(Cells(w.mem), Tried(current));
      StoreStageKeeps(w, Tried(current), o, First(Tried(current), current.pending), [], v);
      StageSafe(w, Tried(current), current.pending, o, v);
    }
  }

  /** After a trial or rollback record the confirmed slot is what it was. */
  lemma StageSafe(w: World, state: State, slot: uint8, o: Outcome, v: World)
    requires SafeCore(w) && Kept(w, state, o == Done, v) && v.mail == w.mail && Silent(w.mail)
    requires state.confirmed == Current(w.mem).confirmed && state.found
    requires slot == state.pending || (state.pending == SLOT_NONE && slot == state.confirmed)
    requires o == Done ==> (v.mode == First(state, slot) || (v.mode == Second(state, slot) && state.pending == SLOT_NONE))
    requires o == PowerLost ==> v.mode == Off
    requires o == StoreFailed ==> v.mode.Recovery? && IsEntry(v.mode.engine, state) && Near(v.mode.engine, v.mem)
    requires o != ReadFailed && o != NothingPending
    ensures Safe(v)
  {
    hide Intact, Bootable, Newest, StepOk, Near, IsEntry;
    SilentIsBacked(v.mail, v.mem);
    assert SafeCore(v);
    if o == StoreFailed { EntrySafe(v, state); }
  }

  lemma FirstSafe(w: World, loads: bool, o: Outcome, v: World)
    requires Safe(w) && Moves(w, TryFirst(loads, o), v) && EntryNear(w, v)
    ensures Safe(v)
  {
    hide Intact, Bootable, Newest, StepOk, Stores, Near, IsEntry;
    var state, slot, current := w.mode.state, w.mode.slot, Current(w.mem);
    CurrentIsStorable(w.mem);
    SilentIsBacked(w.mail, w.mem);
    if !loads && state.pending == slot {
      if o == ReadFailed {
        RecoversSafe(w, v, state);
      } else if o == PowerLost && v == w.(mode := Off) {
      } else if current.pending == SLOT_NONE {
        RecoversSafe(w, v, current);
      } else {
        OneStep(Cells(w.mem), RolledBack(current));
        StoreStageKeeps(w, RolledBack(current), o, Second(RolledBack(current), current.confirmed), [], v);
        StageSafe(w, RolledBack(current), current.confirmed, o, v);
      }
    }
  }

  lemma SecondSafe(w: World, loads: bool, v: World)
    requires Safe(w) && Moves(w, TrySecond(loads), v) && EntryNear(w, v)
    ensures Safe(v)
  {
    hide Intact, Bootable, Newest, StepOk, Near, IsEntry;
    SilentIsBacked(w.mail, w.mem);
    if !loads { RecoversSafe(w, v, w.mode.state); }
  }

  lemma HandOffSafe(w: World, running: bool, v: World)
    requires Safe(w) && Moves(w, HandOff(running), v)
    ensures Safe(v)
  {
    hide Intact, Bootable, Newest, Cut;
    var state, slot := w.mode.state, w.mode.slot;
    SilentIsBacked(w.mail, w.mem);
    BootableIsValid(w.mem, slot);
    if state.pending == slot {
      PublishIsAtomic(w.mail, slot, state.sequence, v.mail, running);
    } else {
      ClearSilences(w.mail, v.mail, running);
      if running { NoToken(v.mail); }
    }
    if Silent(v.mail) { SilentIsBacked(v.mail, v.mem); }
  }

  lemma ArmSafe(w: World, running: bool, v: World)
    requires Safe(w) && Moves(w, Arm(running), v)
    ensures Safe(v)
  {
    hide Intact, Bootable, Newest, Cut, ArmWrites;
    ArmIsAtomic(w.mail, v.mail, running);
    if Silent(v.mail) { SilentIsBacked(v.mail, v.mem); }
  }

  lemma ForceSafe(w: World, loaded: bool, v: World)
    requires Safe(w) && Moves(w, Force(loaded), v) && EntryNear(w, v)
    ensures Safe(v)
  {
    hide Intact, Bootable, Newest, StepOk, Near, IsEntry;
    RecoversSafe(w, v, Current(w.mem));
  }

  // ---- Recovery ----

  /** What one report does to the journal and to the slots. */
  lemma ReportKeepsJournal(e: Engine, mem: Bytes, request: Packet, io: Io, after: Bytes)
    requires Formed(request) && |mem| == FLASH_SIZE && Sound(e) && !e.fullEnabled
    requires Intact(Cells(mem)) && Near(e, mem)
    requires Acts(mem, Process(e, mem, request, io).action, io.ok, after)
    ensures |after| == FLASH_SIZE && Intact(Cells(after))
    ensures Current(after).confirmed == Current(mem).confirmed
    ensures Bootable(mem, Current(mem).confirmed) ==> Bootable(after, Current(after).confirmed)
    ensures Current(after) != Current(mem) ==>
      && e.phase == PHASE_FINALIZED && SlotValid(e.target) && e.target != e.bootState.confirmed
      && Current(after) == Begun(e.bootState, e.target).(found := true)
    ensures Process(e, mem, request, io).action.StoreState? && io.ok ==>
      Current(after) == Begun(e.bootState, e.target).(found := true)
  {
    hide Intact, Bootable, Newest, StepOk, Process, Vouched, EraseEffect, ProgramEffect, Stores;
    var action := Process(e, mem, request, io).action;
    SlotActionsConfined(e, mem, request, io);
    match action
    case NoAction =>
    case EraseFlash(at, n) =>
      OtherSlotUntouched(mem, after, at, n, e.target, Current(mem).confirmed) by { EraseIsLocal(mem, after, at, n, io.ok); }
    case ProgramFlash(at, data) =>
      OtherSlotUntouched(mem, after, at, |data|, e.target, Current(mem).confirmed) by { ProgramIsLocal(mem, after, at, data, io.ok); }
    case StoreState(state) =>
      OnlyOtherSlot(e.target, e.bootState.confirmed);
      StoreKeeps(mem, state, io.ok, after);
      TransitionsKeepStates(e.bootState, e.target);
  }

  lemma EraseIsLocal(mem: Bytes, after: Bytes, at: nat, n: nat, ok: bool)
    requires |mem| == FLASH_SIZE && at + n <= FLASH_SIZE && EraseEffect(mem, after, at, n, ok)
    ensures SameOutside(mem, after, at, n)
  {}

  lemma ProgramIsLocal(mem: Bytes, after: Bytes, at: nat, data: Bytes, ok: bool)
    requires |mem| == FLASH_SIZE && at + |data| <= FLASH_SIZE && ProgramEffect(mem, after, at, data, ok)
    ensures SameOutside(mem, after, at, |data|)
  {}

  lemma OnlyOtherSlot(target: uint8, confirmed: uint8)
    requires SlotValid(target) && SlotValid(confirmed) && target != confirmed
    ensures target == OtherSlot(confirmed)
  {}

  /** A change inside one slot leaves the journal and the other slot alone. */
  lemma OtherSlotUntouched(mem: Bytes, after: Bytes, at: nat, n: nat, slot: uint8, other: uint8)
    requires |mem| == FLASH_SIZE && SameOutside(mem, after, at, n)
    requires SlotValid(slot) && SlotOffset(slot) <= at && at + n <= SlotOffset(slot) + SLOT_SIZE
    requires other != slot
    ensures |after| == FLASH_SIZE && Cells(after) == Cells(mem)
    ensures Bootable(after, other) == Bootable(mem, other)
  {
    hide ImageValid;
    JournalUntouched(mem, after, at, n);
    if SlotValid(other) { BootableElsewhere(mem, after, at, n, other); }
  }

  /** How the engine's boot state moves. */
  lemma ProcessBootState(e: Engine, mem: Bytes, request: Packet, io: Io)
    requires Formed(request) && |mem| == FLASH_SIZE && Bounded(e)
    ensures var s := Process(e, mem, request, io);
      && s.engine.fullEnabled == e.fullEnabled
      && (s.engine.bootState == e.bootState
          || (s.engine.bootState == Begun(e.bootState, e.target) && s.action == StoreState(s.engine.bootState) && io.ok))
  {
    hide Dispatch, ValidateCommon, Protocol.Finalize, MakeResponse, Begun;
    if Reaches(e, request) {
      LengthFits(request);
      HandlersFormResponses(e, mem, request, io);
      DispatchBootState(e, mem, request, io);
    }
  }

  lemma DispatchBootState(e: Engine, mem: Bytes, request: Packet, io: Io)
    requires Formed(request) && request.length <= PAYLOAD_SIZE && |mem| == FLASH_SIZE && Bounded(e)
    ensures var s := Dispatch(e, mem, request, io);
      && s.engine.fullEnabled == e.fullEnabled
      && (s.engine.bootState == e.bootState
          || (s.status == OK && s.engine.bootState == Begun(e.bootState, e.target) && s.action == StoreState(s.engine.bootState) && io.ok))
  {
    hide StoredImageValid, Sha256Spec.Hash, NextSession, InfoBytes, MakeResponse, ResolveRange, Begun;
  }

  /** Agreement with the journal survives every report. */
  lemma ReportKeepsNear(e: Engine, mem: Bytes, request: Packet, io: Io, after: Bytes)
    requires Formed(request) && |mem| == FLASH_SIZE && Sound(e) && !e.fullEnabled
    requires Intact(Cells(mem)) && Near(e, mem)
    requires Acts(mem, Process(e, mem, request, io).action, io.ok, after)
    ensures |after| == FLASH_SIZE && Near(Process(e, mem, request, io).engine, after)
  {
    hide Intact, Bootable, Newest, Process, Acts;
    var current := Current(mem);
    var e' := Process(e, mem, request, io).engine;
    ReportKeepsJournal(e, mem, request, io, after);
    ProcessBootState(e, mem, request, io);
    SlotActionsConfined(e, mem, request, io);
    if Current(after) == current && e'.bootState == e.bootState {
      StepOkDependsOn(Cells(mem), Cells(after), Begun(e.bootState, OtherSlot(current.confirmed)));
    } else {
      OnlyOtherSlot(e.target, e.bootState.confirmed);
      TransitionsKeepStates(e.bootState, e.target);
      NearAfterBegin(Cells(after), e.bootState, e.target);
    }
  }

  lemma StepOkDependsOn(before: seq<Cell>, after: seq<Cell>, state: State)
    requires |before| == |after| == PLACES && Newest(before) == Newest(after) && StepOk(before, state)
    ensures StepOk(after, state)
  {}

  /** Once the pending record is durable, storing it again changes nothing and
      the next one is one step on. */
  lemma NearAfterBegin(cells: seq<Cell>, state: State, target: uint8)
    requires |cells| == PLACES && Storable(state) && SlotValid(target) && target != state.confirmed
    requires Newest(cells) == Begun(state, target).(found := true)
    ensures StepOk(cells, Begun(state, target))
    ensures StepOk(cells, Begun(Begun(state, target), target))
  {
    hide Newest;
    assert StateEqual(Begun(state, target), Newest(cells));
    OneStep(cells, Begun(Begun(state, target), target));
  }

  lemma ReportSafe(w: World, input: Input, v: World)
    requires Safe(w) && Moves(w, Report(input), v)
    ensures Safe(v)
  {
    hide Intact, Bootable, Newest, Process, Acts, Vouched, Near, Sound, Bounded;
    var e, e' := w.mode.engine, v.mode.engine;
    var request, io := input.request, input.io;
    SilentIsBacked(w.mail, v.mem);
    ProcessIsSound(e, w.mem, request, io);
    VouchedIsKept(e, w.mem, request, io, v.mem);
    SoundIsBounded(e);
    ProcessBootState(e, w.mem, request, io);
    ReportKeepsJournal(e, w.mem, request, io, v.mem);
    ReportKeepsNear(e, w.mem, request, io, v.mem);
  }

  // ---- Every run ----

  lemma ResetSafe(w: World, v: World)
    requires Safe(w) && Moves(w, Reset, v)
    ensures Safe(v)
  {
    hide Intact, Bootable, Newest;
  }

  lemma ForgetSafe(w: World, v: World)
    requires Safe(w) && Moves(w, Forget, v)
    ensures Safe(v)
  {
    hide Intact, Bootable, Newest;
    SilentIsBacked(v.mail, v.mem);
  }

  lemma StepSafe(w: World, l: Label, v: World)
    requires |v.mem| == FLASH_SIZE
    requires Moves(w, l, v)
    requires EntryNear(w, v)
    requires Safe(w)
    ensures Safe(v)
  {
    hide Safe, Moves, EntryNear;
    match l
    case Reset => ResetSafe(w, v);
    case Forget => ForgetSafe(w, v);
    case Consume(running) => ConsumeSafe(w, running, v);
    case Force(loaded) => ForceSafe(w, loaded, v);
    case Confirm(o) => ConfirmSafe(w, o, v);
    case Prepare(o) => PrepareSafe(w, o, v);
    case TryFirst(loads, o) => FirstSafe(w, loads, o, v);
    case TrySecond(loads) => SecondSafe(w, loads, v);
    case HandOff(running) => HandOffSafe(w, running, v);
    case Arm(running) => ArmSafe(w, running, v);
    case Report(input) => ReportSafe(w, input, v);
  }

  /** Every time recovery was entered, its state agreed with the journal. */
  ghost predicate EntriesAgree(worlds: seq<World>) {
    && (forall k :: 0 <= k < |worlds| ==> |worlds[k].mem| == FLASH_SIZE)
    && forall k :: 0 <= k < |worlds| - 1 ==> EntryNear(worlds[k], worlds[k + 1])
  }

  /** Never bricked: from a world whose confirmed slot boots, after any run of
      boots, trials, confirmations, recovery sessions with any packets, resets
      and failures at any flash call, the confirmed slot still boots. */
  lemma {:induction false} NeverBricked(worlds: seq<World>, labels: seq<Label>)
    requires Path(worlds, labels) && EntriesAgree(worlds) && Safe(worlds[0])
    ensures forall k :: 0 <= k < |worlds| ==> Safe(worlds[k])
    ensures forall k :: 0 <= k < |worlds| ==> Bootable(worlds[k].mem, Current(worlds[k].mem).confirmed)
  {
    hide Safe, Moves, EntryNear, Bootable;
    var n := |labels|;
    if n > 0 {
      var before, earlier := worlds[..n], labels[..n - 1];
      assert Path(before, earlier);
      assert EntriesAgree(before);
      NeverBricked(before, earlier);
      assert worlds[n - 1] == before[n - 1];
      assert EntryNear(worlds[n - 1], worlds[n - 1 + 1]);
      StepSafe(worlds[n - 1], labels[n - 1], worlds[n]);
      forall k | 0 <= k < |worlds| ensures Safe(worlds[k]) {
        if k < n { assert worlds[k] == before[k]; }
      }
    }
    forall k | 0 <= k < |worlds|
      ensures Bootable(worlds[k].mem, Current(worlds[k].mem).confirmed)
    {
      SafeBoots(worlds[k]);
    }
  }

  lemma SafeBoots(w: World)
    requires Safe(w)
    ensures |w.mem| == FLASH_SIZE && Bootable(w.mem, Current(w.mem).confirmed)
  {}
}
