/** boot_lifecycle.c: each transition is read from the journal, made, and durable
    before its caller goes on. */
module Lifecycle {
  import opened Words
  import opened BootState
  import opened Nor
  import opened RecoveryEngine
  import opened BootMachine
  import opened BootProofs
  import Journal

  datatype Status = Ok | JournalError | NotPending | WrongSlot

  /** Nothing happened to the flash. */
  twostate predicate Untouched(nor: Flash)
    reads nor
  {
    nor.mem == old(nor.mem)
  }

  /** load_state */
  method LoadState(nor: Flash, state: StateVar) returns (status: Status)
    requires nor.Valid()
    modifies nor`powered, state
    ensures nor.Failed(status == Ok, true)
    ensures status == Ok || status == JournalError
    ensures state.value == if status == Ok then Current(nor.mem) else old(state.value)
  {
    var loaded, value, location := Journal.Load(nor);
    if loaded != Journal.Ok { return JournalError; }
    state.value := value;
    return Ok;
  }

  /** A state one step on from the journal's own. */
  ghost predicate StepsOn(mem: Bytes, state: State)
    requires |mem| == FLASH_SIZE
  {
    Storable(state) && state.sequence == Wrap32(Current(mem).sequence + 1)
  }

  /** A store attempt as its caller sees it. */
  twostate predicate Stored(nor: Flash, state: State, ok: bool)
    reads nor
  {
    && |old(nor.mem)| == |nor.mem| == FLASH_SIZE
    && Stores(old(nor.mem), state, ok, nor.mem)
    && (!old(nor.powered) ==> !nor.powered && nor.mem == old(nor.mem))
    && (!ok && nor.powered ==> nor.faults == Errors)
    && (nor.faults == Reliable ==> nor.powered == old(nor.powered))
  }

  /** store_state, for a state made by one of the transitions */
  method StoreState(nor: Flash, state: StateVar) returns (status: Status)
    requires nor.Valid() && StepsOn(nor.mem, state.value)
    modifies nor
    ensures nor.Valid() && Stored(nor, state.value, status == Ok)
    ensures status == Ok || status == JournalError
  {
    hide Newest, Journal.StoreEffect;
    ghost var before := nor.mem;
    var stored := Journal.Store(nor, state.value);
    StepIsAccepted(before, state.value, nor.mem, stored);
    if stored != Journal.Ok { return JournalError; }
    return Ok;
  }

  /** The journal refuses no state that is one step on. */
  lemma StepIsAccepted(before: Bytes, state: State, after: Bytes, status: Journal.Status)
    requires |before| == |after| == FLASH_SIZE && StepsOn(before, state)
    requires Journal.StoreEffect(Cells(before), state, Cells(after), status)
    ensures status != Journal.InvalidState && status != Journal.StaleSequence
  {
    hide Newest, Journal.Appended, Journal.Rotated;
    assert Distance(Current(before).sequence, state.sequence) == 1;
  }

  lemma TransitionsStepOn(mem: Bytes)
    requires |mem| == FLASH_SIZE && Current(mem).pending != SLOT_NONE
    ensures StepsOn(mem, Confirmed(Current(mem))) && StepsOn(mem, RolledBack(Current(mem)))
    ensures Current(mem).trials < Current(mem).maxTrials ==> StepsOn(mem, Tried(Current(mem)))
  {
    hide Newest;
    CurrentIsStorable(mem);
    TransitionsKeepStates(Current(mem), SLOT_NONE);
  }

  /** boot_lifecycle_prepare */
  method Prepare(nor: Flash, state: StateVar) returns (status: Status, slot: uint8, ghost read: bool)
    requires nor.Valid()
    modifies nor, state
    ensures nor.Valid() && (status == Ok || status == JournalError)
    ensures !read ==> Untouched(nor) && nor.Failed(false, true) && status == JournalError && state.value == old(state.value)
    ensures read ==>
      var current := Current(old(nor.mem));
      if current.pending == SLOT_NONE then
        Untouched(nor) && nor.Failed(true, true) && status == Ok && state.value == current && slot == current.confirmed
      else if current.trials >= current.maxTrials then
        state.value == RolledBack(current) && Stored(nor, state.value, status == Ok) && (status == Ok ==> slot == current.confirmed)
      else
        state.value == Tried(current) && Stored(nor, state.value, status == Ok) && (status == Ok ==> slot == current.pending)
    ensures nor.faults == Reliable && old(nor.powered) ==> read
  {
    hide Newest, Stores;
    slot := SLOT_NONE;
    status := LoadState(nor, state);
    read := status == Ok;
    if status != Ok { return; }
    if state.value.pending == SLOT_NONE {
      slot := state.value.confirmed;
      return;
    }
    TransitionsStepOn(nor.mem);
    if state.value.trials >= state.value.maxTrials {
      state.Rollback();
      status := StoreState(nor, state);
      if status != Ok { return; }
      slot := state.value.confirmed;
      return;
    }
    state.RecordTrial();
    status := StoreState(nor, state);
    if status != Ok { return; }
    slot := state.value.pending;
  }

  /** boot_lifecycle_confirm */
  method Confirm(nor: Flash, runningSlot: uint8, state: StateVar) returns (status: Status, ghost read: bool)
    requires nor.Valid()
    modifies nor, state
    ensures nor.Valid()
    ensures !read ==> Untouched(nor) && nor.Failed(false, true) && status == JournalError && state.value == old(state.value)
    ensures read ==>
      var current := Current(old(nor.mem));
      if current.pending == SLOT_NONE then Untouched(nor) && nor.Failed(true, true) && status == NotPending && state.value == current
      else if runningSlot != current.pending then Untouched(nor) && nor.Failed(true, true) && status == WrongSlot && state.value == current
      else state.value == Confirmed(current) && Stored(nor, state.value, status == Ok) && (status == Ok || status == JournalError)
    ensures nor.faults == Reliable && old(nor.powered) ==> read
  {
    hide Newest, Stores;
    status := LoadState(nor, state);
    read := status == Ok;
    if status != Ok { return; }
    if state.value.pending == SLOT_NONE { return NotPending, read; }
    if runningSlot != state.value.pending { return WrongSlot, read; }
    TransitionsStepOn(nor.mem);
    state.ConfirmPending();
    status := StoreState(nor, state);
  }

  /** boot_lifecycle_reject_pending */
  method RejectPending(nor: Flash, state: StateVar) returns (status: Status, ghost read: bool)
    requires nor.Valid()
    modifies nor, state
    ensures nor.Valid()
    ensures !read ==> Untouched(nor) && nor.Failed(false, true) && status == JournalError && state.value == old(state.value)
    ensures read ==>
      var current := Current(old(nor.mem));
      if current.pending == SLOT_NONE then Untouched(nor) && nor.Failed(true, true) && status == NotPending && state.value == current
      else state.value == RolledBack(current) && Stored(nor, state.value, status == Ok) && (status == Ok || status == JournalError)
    ensures nor.faults == Reliable && old(nor.powered) ==> read
  {
    hide Newest, Stores;
    status := LoadState(nor, state);
    read := status == Ok;
    if status != Ok { return; }
    if state.value.pending == SLOT_NONE { return NotPending, read; }
    TransitionsStepOn(nor.mem);
    state.Rollback();
    status := StoreState(nor, state);
  }
}
