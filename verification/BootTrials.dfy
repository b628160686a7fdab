/** The trials of an update: how often a pending slot may be handed off, what
    ends them, and what it takes to move the confirmed slot. */
module BootTrials {
  import opened Words
  import opened BootState
  import opened Nor
  import opened Journal
  import opened JournalProofs
  import opened Trial
  import opened Image
  import opened EngineSpec
  import opened RecoveryEngine
  import opened EngineProofs
  import opened BootMachine
  import opened BootProofs
  import opened BootHistory
  import opened Devices

  /** Trial handoffs since the last update was begun. */
  function TrialCount(events: seq<Event>): nat {
    if events == [] then 0
    else
      var before := TrialCount(events[..|events| - 1]);
      match events[|events| - 1]
      case Begins(_) => 0
      case HandsOff(_, trial, _) => if trial.Some? then before + 1 else before
      case _ => before
  }

  lemma CountAppend(events: seq<Event>, e: Event)
    ensures TrialCount(events + [e]) ==
            match e
            case Begins(_) => 0
            case HandsOff(_, trial, _) => if trial.Some? then TrialCount(events) + 1 else TrialCount(events)
            case _ => TrialCount(events)
  {
    LastOf(events, e);
  }

  lemma CountNothing(events: seq<Event>)
    ensures TrialCount(events + []) == TrialCount(events)
  {
    assert events + [] == events;
  }

  /** A handoff already paid for by a durable trial record. */
  function Due(m: Mode, pending: uint8): nat {
    if (m.First? || m.Chosen?) && pending != SLOT_NONE && m.slot == pending then 1 else 0
  }

  /** The handoffs the journal has recorded, or may have. */
  function Limit(s: State): nat { if s.pending == SLOT_NONE then s.maxTrials else s.trials }

  ghost predicate WithinBudget(w: World) {
    |w.mem| == FLASH_SIZE && TrialCount(w.events) + Due(w.mode, Current(w.mem).pending) <= Limit(Current(w.mem))
  }

  ghost predicate TrialsBelowLimit(w: World, initial: uint8) {
    && |w.mem| == FLASH_SIZE && TrialCount(w.events) <= Current(w.mem).maxTrials
    && TrialCount(w.events) <= if initial < DEFAULT_MAX_TRIALS then DEFAULT_MAX_TRIALS else initial
  }

  /** Every transition of a stage leaves room for the handoff it allows. */
  lemma LimitsGrow(s: State)
    requires Storable(s)
    ensures s.pending != SLOT_NONE && s.trials < s.maxTrials ==> Limit(Tried(s)) == Limit(s) + 1
    ensures Limit(RolledBack(s)) >= Limit(s) && Limit(Confirmed(s)) >= Limit(s)
    ensures s.pending != SLOT_NONE ==> RolledBack(s).pending == SLOT_NONE == Confirmed(s).pending
    ensures Limit(s) <= s.maxTrials
  {}

  /** What a store stage may log. */
  predicate Logs(events: seq<Event>, note: seq<Event>, after: seq<Event>) {
    after == events || after == events + note
    || after == events + [EntersRecovery] || after == (events + note) + [EntersRecovery]
  }

  lemma StageLogs(w: World, state: State, o: Outcome, next: Mode, note: seq<Event>, v: World)
    requires |w.mem| == FLASH_SIZE && StoreStage(w, state, o, next, note, v)
    ensures Logs(w.events, note, v.events)
  {
    hide Bootable, Newest, Stores, IsEntry, Cells;
    var took := if Current(v.mem) == state.(found := true) then note else [];
    assert w.events + [] == w.events;
    assert v.events == w.events + took || v.events == w.events + took + [EntersRecovery];
  }

  lemma LogsCount(events: seq<Event>, note: seq<Event>, after: seq<Event>)
    requires Logs(events, note, after) && (note == [] || (|note| == 1 && note[0].Confirms?))
    ensures TrialCount(after) == TrialCount(events)
  {
    CountNothing(events);
    if note != [] {
      assert note == [note[0]];
      CountAppend(events, note[0]);
    }
    hide TrialCount;
    CountAppend(events, EntersRecovery);
    CountAppend(events + note, EntersRecovery);
  }

  lemma StageBudget(w: World, state: State, o: Outcome, next: Mode, note: seq<Event>, v: World)
    requires WithinBudget(w) && Safe(w) && StepOk(Cells(w.mem), state)
    requires StoreStage(w, state, o, next, note, v)
    requires note == [] || (|note| == 1 && note[0].Confirms?)
    requires Limit(state) >= Limit(Current(w.mem)) + Due(next, state.pending)
    ensures WithinBudget(v)
  {
    hide Intact, StepOk, Bootable, Newest, Stores, IsEntry, TrialCount, Cells;
    StoreStageKeeps(w, state, o, next, note, v);
    StageLogs(w, state, o, next, note, v);
    LogsCount(w.events, note, v.events);
    hide StoreStage;
  }

  lemma RecoversBudget(w: World, v: World, state: State)
    requires WithinBudget(w) && Recovers(w, v, state)
    ensures WithinBudget(v)
  {
    hide Newest;
    CountAppend(w.events, EntersRecovery);
  }

  lemma ConfirmBudget(w: World, o: Outcome, v: World)
    requires Safe(w) && WithinBudget(w) && Moves(w, Confirm(o), v)
    ensures WithinBudget(v)
  {
    hide Intact, Bootable, Newest, StepOk, Stores, Recovers, WithinBudget, StoreStage;
    var current := Current(w.mem);
    CurrentIsStorable(w.mem);
    if w.mode.confirmation.Some? {
      var t := w.mode.confirmation.value;
      if o == ReadFailed {
        if Recovers(w, v, DEFAULT) { RecoversBudget(w, v, DEFAULT); } else { RecoversBudget(w, v, current); }
      } else if !(o == PowerLost && v == w.(mode := Off)) && current.pending == t.slot && current.sequence == t.sequence {
        BootableIsValid(w.mem, t.slot);
        OneStep(Cells(w.mem), Confirmed(current));
        StageBudget(w, Confirmed(current), o, Preparing(Confirmed(current)), [Confirms(t)], v);
      } else { SameBudget(w, v); }
    } else { SameBudget(w, v); }
  }

  lemma SameBudget(w: World, v: World)
    requires WithinBudget(w) && v == w.(mode := v.mode) && Due(v.mode, Current(w.mem).pending) <= Due(w.mode, Current(w.mem).pending)
    ensures WithinBudget(v)
  {}

  lemma PrepareBudget(w: World, o: Outcome, v: World)
    requires Safe(w) && WithinBudget(w) && Moves(w, Prepare(o), v)
    ensures WithinBudget(v)
  {
    hide Intact, Bootable, Newest, StepOk, Stores, Recovers, WithinBudget, StoreStage;
    var current := Current(w.mem);
    CurrentIsStorable(w.mem);
    LimitsGrow(current);
    if o == ReadFailed {
      RecoversBudget(w, v, w.mode.state);
    } else if (o == PowerLost && v == w.(mode := Off)) || current.pending == SLOT_NONE {
      SameBudget(w, v);
    } else if current.trials >= current.maxTrials {
      OneStep(Cells(w.mem), RolledBack(current));
      StageBudget(w, RolledBack(current), o, First(RolledBack(current), current.confirmed), [], v);
    } else {
      OneStep(Cells(w.mem), Tried(current));
      StageBudget(w, Tried(current), o, First(Tried(current), current.pending), [], v);
    }
  }

  lemma FirstBudget(w: World, loads: bool, o: Outcome, v: World)
    requires Safe(w) && WithinBudget(w) && Moves(w, TryFirst(loads, o), v)
    ensures WithinBudget(v)
  {
    hide Intact, Bootable, Newest, StepOk, Stores, Recovers, WithinBudget, StoreStage;
    var state, slot, current := w.mode.state, w.mode.slot, Current(w.mem);
    CurrentIsStorable(w.mem);
    LimitsGrow(current);
    if loads || state.pending != slot || (o == PowerLost && v == w.(mode := Off)) {
      SameBudget(w, v);
    } else if o == ReadFailed {
      RecoversBudget(w, v, state);
    } else if current.pending == SLOT_NONE {
      RecoversBudget(w, v, current);
    } else {
      OneStep(Cells(w.mem), RolledBack(current));
      StageBudget(w, RolledBack(current), o, Second(RolledBack(current), current.confirmed), [], v);
    }
  }

  lemma HandOffLabel(w: World, running: bool, v: World)
    requires Moves(w, HandOff(running), v)
    ensures |w.mem| == FLASH_SIZE && w.mode.Chosen? && HandOffStep(w, running, v)
  {
    hide HandOffStep;
  }

  lemma SafeChosen(w: World)
    requires Safe(w) && w.mode.Chosen?
    ensures |w.mem| == FLASH_SIZE
    ensures w.mode.state == Current(w.mem) && Bootable(w.mem, w.mode.slot)
    ensures SlotValid(w.mode.slot) && w.mode.slot != SLOT_NONE
  {
    hide Intact, Newest, Backed, Silent, Vouched, Near, Sound, Bootable;
    BootableIsValid(w.mem, w.mode.slot);
  }

  /** What a handoff tells the application and the log, exactly. */
  ghost predicate Honest(mem: Bytes, slot: uint8, told: Option<Token>, event: Event) {
    && |mem| == FLASH_SIZE && Bootable(mem, slot)
    && told == (if slot == Current(mem).pending then Some(Token(slot, Current(mem).sequence)) else None)
    && event == HandsOff(slot, told, Current(mem))
  }

  /** An application is handed off as a trial exactly when its slot is the
      pending one, with the journal's own sequence, and only if it boots. */
  lemma HandOffIsHonest(w: World, running: bool, v: World)
    requires Safe(w) && Moves(w, HandOff(running), v) && v.mode.App?
    ensures v.mem == w.mem && |v.events| == |w.events| + 1
    ensures Honest(w.mem, v.mode.slot, Handoff(v.mail), v.events[|w.events|])
  {
    HandOffLabel(w, running, v);
    SafeChosen(w);
    hide Safe, Moves, Newest, Bootable, Cut, PublishWrites;
    var state, slot := w.mode.state, w.mode.slot;
    if state.pending == slot {
      PublishIsAtomic(w.mail, slot, state.sequence, v.mail, running);
    } else {
      ClearSilences(w.mail, v.mail, running);
      NoToken(v.mail);
    }
  }

  lemma HandOffBudget(w: World, running: bool, v: World)
    requires Moves(w, HandOff(running), v)
    requires Safe(w) && WithinBudget(w)
    ensures WithinBudget(v)
  {
    hide Safe, Moves, WithinBudget, HandOffStep, Newest, Bootable;
    HandOffLabel(w, running, v);
    SafeChosen(w);
    HandOffCounts(w, running, v);
  }

  lemma HandOffCounts(w: World, running: bool, v: World)
    requires |w.mem| == FLASH_SIZE && w.mode.Chosen? && w.mode.state == Current(w.mem) && w.mode.slot != SLOT_NONE
    requires HandOffStep(w, running, v) && WithinBudget(w)
    ensures WithinBudget(v)
  {
    hide Newest, Cut, PublishWrites, TrialCount, Limit;
    var state, slot := w.mode.state, w.mode.slot;
    CountAppend(w.events, HandsOff(slot, if state.pending == slot then Some(Token(slot, state.sequence)) else None, state));
  }

  lemma ReportBudget(w: World, input: Input, v: World)
    requires WithinBudget(w) && Moves(w, Report(input), v)
    ensures WithinBudget(v)
  {
    hide Newest, EngineStep;
    if Current(v.mem) != Current(w.mem) {
      CountAppend(w.events, Begins(w.mode.engine.target));
    } else {
      CountNothing(w.events);
    }
  }

  /** One more entry in the log that is no handoff and begins nothing. */
  lemma NotedBudget(w: World, e: Event, v: World)
    requires WithinBudget(w) && !e.Begins? && !e.HandsOff?
    requires v.mem == w.mem && v.events == w.events + [e] && Due(v.mode, Current(w.mem).pending) <= Due(w.mode, Current(w.mem).pending)
    ensures WithinBudget(v)
  {
    hide Newest;
    CountAppend(w.events, e);
  }

  lemma ConsumeBudget(w: World, running: bool, v: World)
    requires WithinBudget(w) && Moves(w, Consume(running), v)
    ensures WithinBudget(v)
  {
    hide Newest, Cut, WithinBudget, TrialCount;
    if running { NotedBudget(w, Consumes(Confirmation(w.mail)), v); } else { MailBudget(w, v); }
  }

  lemma MailBudget(w: World, v: World)
    requires WithinBudget(w) && v == w.(mail := v.mail, mode := v.mode)
    requires Due(v.mode, Current(w.mem).pending) <= Due(w.mode, Current(w.mem).pending)
    ensures WithinBudget(v)
  {
    hide Newest;
  }

  lemma ForceBudget(w: World, loaded: bool, v: World)
    requires WithinBudget(w) && Moves(w, Force(loaded), v)
    ensures WithinBudget(v)
  {
    hide Newest, WithinBudget, TrialCount, IsEntry;
    NotedBudget(w, EntersRecovery, v);
  }

  lemma SecondBudget(w: World, loads: bool, v: World)
    requires WithinBudget(w) && Moves(w, TrySecond(loads), v) && Safe(w)
    ensures WithinBudget(v)
  {
    hide Newest, Bootable, Intact, WithinBudget, TrialCount, IsEntry;
    if loads {
      BootableIsValid(w.mem, w.mode.slot);
      MailBudget(w, v);
    } else {
      NotedBudget(w, EntersRecovery, v);
    }
  }

  lemma ArmBudget(w: World, running: bool, v: World)
    requires WithinBudget(w) && Moves(w, Arm(running), v)
    ensures WithinBudget(v)
  {
    hide Newest, Cut, ArmWrites, WithinBudget, TrialCount;
    if Handoff(w.mail).Some? && Confirmation(v.mail) == Handoff(w.mail) {
      NotedBudget(w, Arms(Handoff(w.mail).value), v);
    } else {
      MailBudget(w, v);
    }
  }

  lemma OffBudget(w: World, l: Label, v: World)
    requires WithinBudget(w) && Moves(w, l, v) && (l == Reset || l == Forget)
    ensures WithinBudget(v)
  {
    hide Newest, WithinBudget;
    MailBudget(w, v);
  }

  lemma BudgetStep(w: World, l: Label, v: World)
    requires Moves(w, l, v)
    requires Safe(w)
    requires WithinBudget(w)
    ensures WithinBudget(v)
  {
    hide Safe, Moves, WithinBudget;
    match l
    case Confirm(o) => ConfirmBudget(w, o, v);
    case Prepare(o) => PrepareBudget(w, o, v);
    case TryFirst(loads, o) => FirstBudget(w, loads, o, v);
    case HandOff(running) => HandOffBudget(w, running, v);
    case Report(input) => ReportBudget(w, input, v);
    case Consume(running) => ConsumeBudget(w, running, v);
    case Force(loaded) => ForceBudget(w, loaded, v);
    case TrySecond(loads) => SecondBudget(w, loads, v);
    case Arm(running) => ArmBudget(w, running, v);
    case _ => OffBudget(w, l, v);
  }

  // ---- The measure that ends the trials ----

  /** Trials left plus one, while an update is pending. */
  function Remaining(s: State): nat
    requires Storable(s)
  {
    if s.pending == SLOT_NONE then 0 else s.maxTrials - s.trials + 1
  }

  function RemainingIn(mem: Bytes): nat
    requires |mem| == FLASH_SIZE
  {
    CurrentIsStorable(mem);
    Remaining(Current(mem))
  }

  lemma RemainingFalls(s: State)
    requires Storable(s) && s.pending != SLOT_NONE
    ensures s.trials < s.maxTrials ==> Remaining(Tried(s)) < Remaining(s)
    ensures Remaining(RolledBack(s)) < Remaining(s) && Remaining(Confirmed(s)) < Remaining(s)
  {}

  /** A boot that got past its journal stage with an update pending. */
  ghost predicate CompletesPrepare(w: World, l: Label) {
    |w.mem| == FLASH_SIZE && l == Prepare(Done) && Current(w.mem).pending != SLOT_NONE
  }

  ghost predicate Falls(w: World, strict: bool, v: World) {
    && |w.mem| == |v.mem| == FLASH_SIZE
    && RemainingIn(v.mem) + (if strict then 1 else 0) <= RemainingIn(w.mem)
  }

  lemma StageFalls(w: World, state: State, o: Outcome, next: Mode, note: seq<Event>, v: World)
    requires Safe(w) && StepOk(Cells(w.mem), state) && Storable(state)
    requires StoreStage(w, state, o, next, note, v)
    requires Remaining(state) < RemainingIn(w.mem)
    ensures Falls(w, o == Done, v)
  {
    hide Intact, StepOk, Bootable, Newest, Stores, IsEntry;
    StoreStageKeeps(w, state, o, next, note, v);
  }

  lemma SameFalls(w: World, v: World)
    requires |w.mem| == FLASH_SIZE && v.mem == w.mem
    ensures Falls(w, false, v)
  {
    hide Newest;
  }

  lemma ConfirmFalls(w: World, o: Outcome, v: World)
    requires Safe(w) && Moves(w, Confirm(o), v)
    ensures Falls(w, false, v)
  {
    hide Intact, Bootable, Newest, StepOk, Stores, StoreStage;
    var current := Current(w.mem);
    if v.mem == w.mem {
      SameFalls(w, v);
    } else {
      CurrentIsStorable(w.mem);
      BootableIsValid(w.mem, w.mode.confirmation.value.slot);
      TransitionsKeepStates(current, SLOT_NONE);
      RemainingFalls(current);
      OneStep(Cells(w.mem), Confirmed(current));
      StageFalls(w, Confirmed(current), o, Preparing(Confirmed(current)), [Confirms(w.mode.confirmation.value)], v);
    }
  }

  lemma PrepareFalls(w: World, o: Outcome, v: World)
    requires Safe(w) && Moves(w, Prepare(o), v)
    ensures Falls(w, CompletesPrepare(w, Prepare(o)), v)
  {
    hide Intact, Bootable, Newest, StepOk, Stores, StoreStage;
    var current := Current(w.mem);
    if v.mem == w.mem && !CompletesPrepare(w, Prepare(o)) {
      SameFalls(w, v);
    } else {
      CurrentIsStorable(w.mem);
      TransitionsKeepStates(current, SLOT_NONE);
      RemainingFalls(current);
      if current.trials >= current.maxTrials {
        OneStep(Cells(w.mem), RolledBack(current));
        StageFalls(w, RolledBack(current), o, First(RolledBack(current), current.confirmed), [], v);
      } else {
        OneStep(Cells(w.mem), Tried(current));
        StageFalls(w, Tried(current), o, First(Tried(current), current.pending), [], v);
      }
    }
  }

  lemma FirstFalls(w: World, loads: bool, o: Outcome, v: World)
    requires Safe(w) && Moves(w, TryFirst(loads, o), v)
    ensures Falls(w, false, v)
  {
    hide Intact, Bootable, Newest, StepOk, Stores, StoreStage;
    var current := Current(w.mem);
    if v.mem == w.mem {
      SameFalls(w, v);
    } else {
      CurrentIsStorable(w.mem);
      TransitionsKeepStates(current, SLOT_NONE);
      RemainingFalls(current);
      OneStep(Cells(w.mem), RolledBack(current));
      StageFalls(w, RolledBack(current), o, Second(RolledBack(current), current.confirmed), [], v);
    }
  }

  lemma QuietMem(w: World, l: Label, v: World)
    requires Moves(w, l, v) && !l.Confirm? && !l.Prepare? && !l.TryFirst? && !l.Report?
    ensures |w.mem| == FLASH_SIZE && v.mem == w.mem
  {
    hide Newest, Bootable, Cut, ArmWrites;
  }

  /** A report that begins an update: the journal's state changes. */
  ghost predicate BeginsUpdate(w: World, l: Label, v: World) {
    l.Report? && |w.mem| == |v.mem| == FLASH_SIZE && Current(v.mem) != Current(w.mem)
  }

  lemma ReportFalls(w: World, input: Input, v: World)
    requires Moves(w, Report(input), v) && !BeginsUpdate(w, Report(input), v)
    ensures Falls(w, false, v)
  {
    hide Newest, EngineStep;
  }

  lemma MeasureStep(w: World, l: Label, v: World)
    requires Moves(w, l, v) && !BeginsUpdate(w, l, v)
    requires Safe(w)
    ensures Falls(w, CompletesPrepare(w, l), v)
  {
    hide Safe, Moves, Falls, BeginsUpdate;
    match l
    case Report(input) => ReportFalls(w, input, v);
    case Confirm(o) => ConfirmFalls(w, o, v);
    case Prepare(o) => PrepareFalls(w, o, v);
    case TryFirst(loads, o) => FirstFalls(w, loads, o, v);
    case _ => QuietMem(w, l, v); SameFalls(w, v);
  }

  ghost function Prepares(worlds: seq<World>, labels: seq<Label>): nat
    requires |worlds| == |labels| + 1
    decreases |labels|
  {
    var n := |labels|;
    if n == 0 then 0
    else Prepares(worlds[..n], labels[..n - 1]) + if CompletesPrepare(worlds[n - 1], labels[n - 1]) then 1 else 0
  }

  /** The measure ends every trial: while no update is begun, each boot that gets
      past its journal stage with an update pending uses one unit of it up, and no
      reset, failure or handoff gives any back. */
  lemma {:induction false} PreparesUseTheMeasureUp(worlds: seq<World>, labels: seq<Label>)
    requires Path(worlds, labels)
    requires forall k :: 0 <= k < |labels| ==> !BeginsUpdate(worlds[k], labels[k], worlds[k + 1])
    requires forall k :: 0 <= k < |worlds| ==> Safe(worlds[k])
    ensures |worlds[0].mem| == |worlds[|labels|].mem| == FLASH_SIZE
    ensures Prepares(worlds, labels) + RemainingIn(worlds[|labels|].mem) <= RemainingIn(worlds[0].mem)
    decreases |labels|
  {
    hide Safe, Moves, RemainingIn, CompletesPrepare, BeginsUpdate;
    var n := |labels|;
    if n == 0 {
      SafeBoots(worlds[0]);
    } else {
      var before, earlier := worlds[..n], labels[..n - 1];
      assert Path(before, earlier);
      forall k | 0 <= k < |before| ensures Safe(before[k]) { assert Safe(worlds[k]); }
      forall k | 0 <= k < |earlier| ensures !BeginsUpdate(before[k], earlier[k], before[k + 1]) {
        assert !BeginsUpdate(worlds[k], labels[k], worlds[k + 1]);
      }
      PreparesUseTheMeasureUp(before, earlier);
      assert Moves(worlds[n - 1], labels[n - 1], worlds[n - 1 + 1]);
      assert Safe(worlds[n - 1]);
      assert !BeginsUpdate(worlds[n - 1], labels[n - 1], worlds[n - 1 + 1]);
      MeasureStep(worlds[n - 1], labels[n - 1], worlds[n]);
    }
  }

  // ---- What moves the confirmed slot ----

  /** The record that confirms, and where it came from. */
  ghost predicate MovedBy(w: World, t: Token, v: World) {
    && |w.mem| == |v.mem| == FLASH_SIZE
    && w.mode == Consumed(Some(t))
    && Current(w.mem).pending == t.slot && Current(w.mem).sequence == t.sequence
    && Current(v.mem) == Confirmed(Current(w.mem)).(found := true)
    && w.events + [Confirms(t)] <= v.events
  }

  lemma ConfirmMoves(w: World, o: Outcome, v: World)
    requires Safe(w) && Moves(w, Confirm(o), v)
    requires Current(v.mem).confirmed != Current(w.mem).confirmed
    ensures exists t :: MovedBy(w, t, v)
  {
    hide Intact, Bootable, Newest, StepOk, Stores, IsEntry;
    var current := Current(w.mem);
    var t := w.mode.confirmation.value;
    BootableIsValid(w.mem, t.slot);
    OneStep(Cells(w.mem), Confirmed(current));
    StoreStageKeeps(w, Confirmed(current), o, Preparing(Confirmed(current)), [Confirms(t)], v);
    assert MovedBy(w, t, v);
  }

  lemma PrepareKeepsConfirmed(w: World, o: Outcome, v: World)
    requires Safe(w) && Moves(w, Prepare(o), v)
    ensures Current(v.mem).confirmed == Current(w.mem).confirmed
    ensures Current(v.mem).maxTrials == Current(w.mem).maxTrials
  {
    hide Intact, Bootable, Newest, StepOk, Stores, StoreStage;
    var current := Current(w.mem);
    if v.mem != w.mem {
      CurrentIsStorable(w.mem);
      TransitionsKeepStates(current, SLOT_NONE);
      if current.trials >= current.maxTrials {
        OneStep(Cells(w.mem), RolledBack(current));
        StoreStageKeeps(w, RolledBack(current), o, First(RolledBack(current), current.confirmed), [], v);
      } else {
        OneStep(Cells(w.mem), Tried(current));
        StoreStageKeeps(w, Tried(current), o, First(Tried(current), current.pending), [], v);
      }
    }
  }

  lemma FirstKeepsConfirmed(w: World, loads: bool, o: Outcome, v: World)
    requires Safe(w) && Moves(w, TryFirst(loads, o), v)
    ensures Current(v.mem).confirmed == Current(w.mem).confirmed
    ensures Current(v.mem).maxTrials == Current(w.mem).maxTrials
  {
    hide Intact, Bootable, Newest, StepOk, Stores, StoreStage;
    var current := Current(w.mem);
    if v.mem != w.mem {
      CurrentIsStorable(w.mem);
      TransitionsKeepStates(current, SLOT_NONE);
      OneStep(Cells(w.mem), RolledBack(current));
      StoreStageKeeps(w, RolledBack(current), o, Second(RolledBack(current), current.confirmed), [], v);
    }
  }

  lemma ReportKeepsConfirmed(w: World, input: Input, v: World)
    requires Safe(w) && Moves(w, Report(input), v)
    ensures |w.mem| == |v.mem| == FLASH_SIZE && Current(v.mem).confirmed == Current(w.mem).confirmed
    ensures Current(v.mem).maxTrials == Current(w.mem).maxTrials || Current(v.mem).maxTrials == DEFAULT_MAX_TRIALS
  {
    hide Intact, Bootable, Newest, Process, Acts, Vouched, Near, Sound, Bounded;
    ReportKeepsJournal(w.mode.engine, w.mem, input.request, input.io, v.mem);
  }

  /** The confirmed slot moves only by a confirmation that was earned: the boot
      that moved it had read back a token whose trial handoff, at exactly the
      journal's sequence, and whose arming directly precede it in the log. */
  lemma ConfirmedMovesOnlyIfEarned(w: World, l: Label, v: World)
    requires |w.mem| == |v.mem| == FLASH_SIZE
    requires Moves(w, l, v)
    requires Current(v.mem).confirmed != Current(w.mem).confirmed
    requires Story(w)
    requires Safe(w)
    ensures exists t :: MovedBy(w, t, v) && Earned(w.events, t) && Current(v.mem).confirmed == t.slot
  {
    hide Safe, Moves, Story, Newest;
    match l
    case Confirm(o) =>
      ConfirmMoves(w, o, v);
      var t :| MovedBy(w, t, v);
      MovedToken(w, t, v);
    case Prepare(o) => PrepareKeepsConfirmed(w, o, v);
    case TryFirst(loads, o) => FirstKeepsConfirmed(w, loads, o, v);
    case Report(input) => ReportKeepsConfirmed(w, input, v);
    case _ => QuietMem(w, l, v);
  }

  lemma MovedToken(w: World, t: Token, v: World)
    requires MovedBy(w, t, v) && Story(w) && Current(v.mem).confirmed != Current(w.mem).confirmed
    ensures Earned(w.events, t) && Current(v.mem).confirmed == t.slot
  {
    hide EachEarned, Newest, Earned;
  }

  // ---- Every run ----

  /** Bounded trials: over every run, with resets and failures anywhere, the
      trial handoffs since an update was begun never exceed the trials its
      journal records, and so never exceed three, or the limit the journal
      started with. */
  lemma {:induction false} TrialsAreBounded(worlds: seq<World>, labels: seq<Label>)
    requires Path(worlds, labels) && EntriesAgree(worlds) && Safe(worlds[0]) && WithinBudget(worlds[0])
    ensures forall k :: 0 <= k < |worlds| ==> WithinBudget(worlds[k])
    ensures forall k :: 0 <= k < |worlds| ==> TrialsBelowLimit(worlds[k], Current(worlds[0].mem).maxTrials)
  {
    hide Safe, Moves, EntryNear, WithinBudget;
    NeverBricked(worlds, labels);
    BudgetOfRun(worlds, labels);
    LimitOfRun(worlds, labels);
    forall k | 0 <= k < |worlds|
      ensures TrialsBelowLimit(worlds[k], Current(worlds[0].mem).maxTrials)
    {
      BudgetIsBounded(worlds[k], Current(worlds[0].mem).maxTrials);
    }
  }

  lemma {:induction false} BudgetOfRun(worlds: seq<World>, labels: seq<Label>)
    requires Path(worlds, labels) && forall k :: 0 <= k < |worlds| ==> Safe(worlds[k])
    requires WithinBudget(worlds[0])
    ensures forall k :: 0 <= k < |worlds| ==> WithinBudget(worlds[k])
  {
    hide Safe, Moves, WithinBudget;
    var n := |labels|;
    if n > 0 {
      var before, earlier := worlds[..n], labels[..n - 1];
      assert Path(before, earlier);
      forall k | 0 <= k < |before| ensures Safe(before[k]) { assert Safe(worlds[k]); }
      BudgetOfRun(before, earlier);
      assert Moves(worlds[n - 1], labels[n - 1], worlds[n - 1 + 1]);
      assert Safe(worlds[n - 1]) && WithinBudget(before[n - 1]);
      BudgetStep(worlds[n - 1], labels[n - 1], worlds[n]);
      forall k | 0 <= k < |worlds| ensures WithinBudget(worlds[k]) {
        if k < n { assert WithinBudget(before[k]); }
      }
    }
  }

  lemma BudgetIsBounded(w: World, initial: uint8)
    requires WithinBudget(w) && LimitFrom(w, initial)
    ensures TrialsBelowLimit(w, initial)
  {
    CurrentIsStorable(w.mem);
    LimitsGrow(Current(w.mem));
  }

  lemma ConfirmKeepsLimit(w: World, o: Outcome, v: World)
    requires Safe(w) && Moves(w, Confirm(o), v)
    ensures Current(v.mem).maxTrials == Current(w.mem).maxTrials
  {
    hide Intact, Bootable, Newest, StepOk, Stores, StoreStage;
    var current := Current(w.mem);
    if v.mem != w.mem {
      var t := w.mode.confirmation.value;
      BootableIsValid(w.mem, t.slot);
      OneStep(Cells(w.mem), Confirmed(current));
      StoreStageKeeps(w, Confirmed(current), o, Preparing(Confirmed(current)), [Confirms(t)], v);
    }
  }

  lemma LimitStep(w: World, l: Label, v: World)
    requires |w.mem| == |v.mem| == FLASH_SIZE
    requires Moves(w, l, v)
    requires Safe(w)
    ensures Current(v.mem).maxTrials == Current(w.mem).maxTrials || Current(v.mem).maxTrials == DEFAULT_MAX_TRIALS
  {
    hide Safe, Moves, Newest;
    match l
    case Confirm(o) => ConfirmKeepsLimit(w, o, v);
    case Prepare(o) => PrepareKeepsConfirmed(w, o, v);
    case TryFirst(loads, o) => FirstKeepsConfirmed(w, loads, o, v);
    case Report(input) => ReportKeepsConfirmed(w, input, v);
    case _ => QuietMem(w, l, v);
  }

  ghost predicate LimitFrom(w: World, initial: uint8) {
    |w.mem| == FLASH_SIZE && (Current(w.mem).maxTrials == initial || Current(w.mem).maxTrials == DEFAULT_MAX_TRIALS)
  }

  lemma LimitFromStep(w: World, l: Label, v: World, initial: uint8)
    requires Moves(w, l, v) && Safe(w) && LimitFrom(w, initial)
    ensures LimitFrom(v, initial)
  {
    hide Safe, Newest;
    MovesSizes(w, l, v);
    hide Moves;
    LimitStep(w, l, v);
  }

  lemma MovesSizes(w: World, l: Label, v: World)
    requires Moves(w, l, v)
    ensures |w.mem| == |v.mem| == FLASH_SIZE
  {
    hide ConfirmStep, PrepareStep, FirstStep, SecondStep, HandOffStep, ArmStep, ReportStep, Recovers;
  }

  lemma {:induction false} LimitOfRun(worlds: seq<World>, labels: seq<Label>)
    requires Path(worlds, labels) && forall k :: 0 <= k < |worlds| ==> Safe(worlds[k])
    requires |worlds[0].mem| == FLASH_SIZE
    ensures forall k :: 0 <= k < |worlds| ==> LimitFrom(worlds[k], Current(worlds[0].mem).maxTrials)
  {
    hide Safe, Moves, Newest;
    var n := |labels|;
    var initial := Current(worlds[0].mem).maxTrials;
    if n > 0 {
      var before, earlier := worlds[..n], labels[..n - 1];
      assert Path(before, earlier);
      forall k | 0 <= k < |before| ensures Safe(before[k]) { assert Safe(worlds[k]); }
      LimitOfRun(before, earlier);
      assert Moves(worlds[n - 1], labels[n - 1], worlds[n - 1 + 1]);
      assert Safe(worlds[n - 1]) && LimitFrom(before[n - 1], initial);
      LimitFromStep(worlds[n - 1], labels[n - 1], worlds[n], initial);
      forall k | 0 <= k < |worlds| ensures LimitFrom(worlds[k], initial) {
        if k < n { assert LimitFrom(before[k], initial); }
      }
    }
  }

  // ---- Where runs start ----

  /** A device as it is first powered: no record in the journal, an image that
      boots in slot A, and a mailbox that says nothing. */
  ghost predicate AsShipped(w: World) {
    && |w.mem| == FLASH_SIZE && Empty(Cells(w.mem)) && Bootable(w.mem, SLOT_A)
    && Silent(w.mail) && w.mode == Off && w.events == []
  }

  /** Every hypothesis the theorems about runs make of their first world holds of
      a device as shipped, whose limit is three trials. */
  lemma ShippedDeviceStartsWell(w: World)
    requires AsShipped(w)
    ensures Safe(w) && Story(w) && ChosenValid(w) && WithinBudget(w)
    ensures Current(w.mem) == DEFAULT
  {
    hide Newest, Bootable, Placed;
    CellsAreProper(w.mem);
    NothingFound(Cells(w.mem));
    SilentSafe(w);
  }

  /** Such devices exist: the smallest packed image makes one. */
  lemma ADeviceCanBeShipped() returns (w: World)
    ensures AsShipped(w)
  {
    hide Bootable, Empty, Cells, FlashWith;
    var mem := SmallestDevice(SLOT_A);
    w := World(mem, Mail(0, 0, 0, 0), Off, []);
    NoToken(w.mail);
  }
}
