/** The update system as a state machine over its durable and retained state:
    boot (boot_controller.c, boot_lifecycle.c, boot_handoff.c), the trial
    application, the recovery engine, and a reset that may come anywhere. */
module BootMachine {
  import opened Words
  import opened BootState
  import opened Nor
  import opened JournalProofs
  import opened Trial
  import opened Image
  import opened EngineSpec
  import opened RecoveryEngine
  import opened EngineProofs

  datatype Mode =
    | Off
    | Consumed(confirmation: Option<Token>)  // mailbox read and cleared
    | Preparing(state: State)                // any confirmation dealt with
    | First(state: State, slot: uint8)       // slot selected and recorded
    | Second(state: State, slot: uint8)      // fallback slot
    | Chosen(state: State, slot: uint8)      // image checked and copied
    | App(slot: uint8)
    | Recovery(engine: Engine)

  datatype Event =
    | Consumes(confirmation: Option<Token>)
    | Confirms(token: Token)
    | Begins(slot: uint8)
    | HandsOff(slot: uint8, trial: Option<Token>, current: State)
    | Arms(token: Token)
    | EntersRecovery

  datatype World = World(mem: Bytes, mail: Mail, mode: Mode, events: seq<Event>)

  /** How a stage that reads and writes the journal ended. */
  datatype Outcome = Done | ReadFailed | StoreFailed | PowerLost | NothingPending

  datatype Label =
    | Reset
    | Forget                      // power was off long enough to lose the mailbox
    | Consume(running: bool)
    | Force(loaded: bool)         // recovery was requested
    | Confirm(outcome: Outcome)
    | Prepare(outcome: Outcome)
    | TryFirst(loads: bool, outcome: Outcome)
    | TrySecond(loads: bool)
    | HandOff(running: bool)
    | Arm(running: bool)
    | Report(input: Input)

  /** What a load of the journal returns. */
  function Current(mem: Bytes): State
    requires |mem| == FLASH_SIZE
  {
    Newest(Cells(mem))
  }

  function OtherSlot(slot: uint8): uint8 { if slot == SLOT_A then SLOT_B else SLOT_A }

  /** active_slot_for_recovery */
  function ActiveFor(state: State): uint8 { if SlotValid(state.confirmed) then state.confirmed else SLOT_A }

  /** An engine just initialised from a boot result. */
  predicate IsEntry(e: Engine, state: State) {
    e.seed != 0 && e == Fresh(state, ActiveFor(state), e.seed, e.hasKnobs, e.hasLog)
  }

  /** The world `mid`, but in recovery. */
  ghost predicate Recovers(mid: World, v: World, state: State) {
    && v.mode.Recovery? && IsEntry(v.mode.engine, state)
    && v == mid.(mode := v.mode, events := mid.events + [EntersRecovery])
  }

  /** A store attempt and where each ending leads. */
  ghost predicate StoreStage(w: World, state: State, o: Outcome, next: Mode, note: seq<Event>, v: World)
    requires |w.mem| == FLASH_SIZE
  {
    && |v.mem| == FLASH_SIZE && o != ReadFailed && o != NothingPending
    && Stores(w.mem, state, o == Done, v.mem)
    && var took := if Current(v.mem) == state.(found := true) then note else [];
       var mid := World(v.mem, w.mail, w.mode, w.events + took);
       match o
       case Done => v == mid.(mode := next)
       case PowerLost => v == mid.(mode := Off)
       case _ => Recovers(mid, v, state)
  }

  /** The confirmation stage of boot_controller_run. */
  ghost predicate ConfirmStep(w: World, o: Outcome, v: World)
    requires |w.mem| == FLASH_SIZE && w.mode.Consumed?
  {
    var current := Current(w.mem);
    match w.mode.confirmation
    case None => o == Done && v == w.(mode := Preparing(DEFAULT))
    case Some(t) =>
      if o == ReadFailed then Recovers(w, v, DEFAULT) || Recovers(w, v, current)
      else if o == PowerLost && v == w.(mode := Off) then true
      else if current.pending == t.slot && current.sequence == t.sequence then
        StoreStage(w, Confirmed(current), o, Preparing(Confirmed(current)), [Confirms(t)], v)
      else o == Done && v == w.(mode := Preparing(current))
  }

  /** boot_lifecycle_prepare */
  ghost predicate PrepareStep(w: World, o: Outcome, v: World)
    requires |w.mem| == FLASH_SIZE && w.mode.Preparing?
  {
    var current := Current(w.mem);
    if o == ReadFailed then Recovers(w, v, w.mode.state)
    else if o == PowerLost && v == w.(mode := Off) then true
    else if current.pending == SLOT_NONE then o == Done && v == w.(mode := First(current, current.confirmed))
    else if current.trials >= current.maxTrials then
      StoreStage(w, RolledBack(current), o, First(RolledBack(current), current.confirmed), [], v)
    else
      StoreStage(w, Tried(current), o, First(Tried(current), current.pending), [], v)
  }

  /** try_load of the selected slot, and what a failure leads to. */
  ghost predicate FirstStep(w: World, loads: bool, o: Outcome, v: World)
    requires |w.mem| == FLASH_SIZE && w.mode.First?
  {
    var state, slot, current := w.mode.state, w.mode.slot, Current(w.mem);
    if loads then o == Done && Bootable(w.mem, slot) && v == w.(mode := Chosen(state, slot))
    else if state.pending == slot then
      if o == ReadFailed then Recovers(w, v, state)
      else if o == PowerLost && v == w.(mode := Off) then true
      else if current.pending == SLOT_NONE then o == NothingPending && Recovers(w, v, current)
      else StoreStage(w, RolledBack(current), o, Second(RolledBack(current), current.confirmed), [], v)
    else o == Done && v == w.(mode := Second(state, OtherSlot(slot)))
  }

  ghost predicate SecondStep(w: World, loads: bool, v: World)
    requires |w.mem| == FLASH_SIZE && w.mode.Second?
  {
    if loads then Bootable(w.mem, w.mode.slot) && v == w.(mode := Chosen(w.mode.state, w.mode.slot))
    else Recovers(w, v, w.mode.state)
  }

  /** boot_handoff_prepare and the jump. */
  ghost predicate HandOffStep(w: World, running: bool, v: World)
    requires |w.mem| == FLASH_SIZE && w.mode.Chosen?
  {
    var state, slot := w.mode.state, w.mode.slot;
    var trial := state.pending == slot;
    var token := Token(slot, state.sequence);
    && Cut(w.mail, if trial then PublishWrites(slot, state.sequence) else ClearWrites(), v.mail, running)
    && v == w.(mail := v.mail,
               mode := if running then App(slot) else Off,
               events := if running
                         then w.events + [HandsOff(slot, if trial then Some(token) else None, Current(w.mem))]
                         else w.events)
  }

  /** A healthy application asks for confirmation. */
  ghost predicate ArmStep(w: World, running: bool, v: World)
    requires w.mode.App?
  {
    && Cut(w.mail, ArmWrites(w.mail), v.mail, running)
    && v == w.(mail := v.mail,
               mode := if running then w.mode else Off,
               events := if Handoff(w.mail).Some? && Confirmation(v.mail) == Handoff(w.mail)
                         then w.events + [Arms(Handoff(w.mail).value)] else w.events)
  }

  /** One report handled in recovery. */
  ghost predicate ReportStep(w: World, input: Input, v: World)
    requires |w.mem| == FLASH_SIZE && w.mode.Recovery?
  {
    && v.mode.Recovery? && |v.mem| == FLASH_SIZE
    && EngineStep(Snap(w.mode.engine, w.mem), input, Snap(v.mode.engine, v.mem))
    && v == World(v.mem, w.mail, v.mode,
                  w.events + if Current(v.mem) != Current(w.mem) then [Begins(w.mode.engine.target)] else [])
  }

  ghost predicate Moves(w: World, l: Label, v: World) {
    && |w.mem| == |v.mem| == FLASH_SIZE
    && match l
       case Reset => v == w.(mode := Off)
       case Forget => w.mode.Off? && Silent(v.mail) && v == w.(mail := v.mail)
       case Consume(running) =>
         && w.mode.Off?
         && Cut(w.mail, ClearWrites(), v.mail, running)
         && v == (if running
                  then w.(mail := v.mail, mode := Consumed(Confirmation(w.mail)), events := w.events + [Consumes(Confirmation(w.mail))])
                  else w.(mail := v.mail))
       case Force(loaded) => w.mode.Consumed? && Recovers(w, v, if loaded then Current(w.mem) else DEFAULT)
       case Confirm(o) => w.mode.Consumed? && ConfirmStep(w, o, v)
       case Prepare(o) => w.mode.Preparing? && PrepareStep(w, o, v)
       case TryFirst(loads, o) => w.mode.First? && FirstStep(w, loads, o, v)
       case TrySecond(loads) => w.mode.Second? && SecondStep(w, loads, v)
       case HandOff(running) => w.mode.Chosen? && HandOffStep(w, running, v)
       case Arm(running) => w.mode.App? && ArmStep(w, running, v)
       case Report(input) => w.mode.Recovery? && ReportStep(w, input, v)
  }

  ghost predicate Path(worlds: seq<World>, labels: seq<Label>) {
    && |worlds| == |labels| + 1
    && forall k :: 0 <= k < |labels| ==> Moves(worlds[k], labels[k], worlds[k + 1])
  }

  // ---- Safety ----

  /** The engine agrees with the journal about which slot must survive, and the
      record it would store next is one the journal can order. */
  ghost predicate Near(e: Engine, mem: Bytes)
    requires |mem| == FLASH_SIZE
  {
    var current := Current(mem);
    && Storable(e.bootState)
    && e.bootState.confirmed == current.confirmed
    && StepOk(Cells(mem), Begun(e.bootState, OtherSlot(current.confirmed)))
  }

  /** A token that would be accepted names a slot that boots. */
  ghost predicate Backed(t: Option<Token>, mem: Bytes)
    requires |mem| == FLASH_SIZE
  {
    t.Some? ==>
      (Current(mem).pending == t.value.slot && Current(mem).sequence == t.value.sequence ==> Bootable(mem, t.value.slot))
  }

  /** The bootloader or the recovery engine is running. */
  predicate Booting(m: Mode) { !m.Off? && !m.App? }

  ghost predicate Safe(w: World) {
    && |w.mem| == FLASH_SIZE
    && Intact(Cells(w.mem))
    && Bootable(w.mem, Current(w.mem).confirmed)
    && Backed(Confirmation(w.mail), w.mem)
    && (w.mode.App? ==> Backed(Handoff(w.mail), w.mem))
    && (Booting(w.mode) ==> Silent(w.mail))
    && match w.mode
       case Consumed(t) => Backed(t, w.mem)
       case Preparing(state) => state == DEFAULT || state == Current(w.mem)
       case First(state, slot) =>
         state == Current(w.mem) && (slot == state.pending || (state.pending == SLOT_NONE && slot == state.confirmed))
       case Second(state, slot) => state == Current(w.mem) && state.pending == SLOT_NONE
       case Chosen(state, slot) => state == Current(w.mem) && Bootable(w.mem, slot)
       case Recovery(e) => Sound(e) && !e.fullEnabled && Vouched(e, w.mem) && Near(e, w.mem)
       case _ => true
  }
}
