/** boot_controller.c and boot_handoff.c: one boot, from the retained mailbox to
    a handoff or to recovery. Every boot is a path of the state machine in
    BootMachine, which its ghost trace records. */
module Boot {
  import opened Words
  import opened BootState
  import opened Nor
  import opened JournalProofs
  import opened Trial
  import opened Image
  import opened EngineSpec
  import opened RecoveryEngine
  import opened BootMachine
  import opened BootProofs
  import opened BootFaults
  import Journal
  import Lifecycle

  datatype Action = EnterRecovery | Handoff

  datatype Reason = Selected | Fallback | ForcedRecovery | JournalFailure | NoValidSlot | InvalidArgument

  datatype ConfirmationStatus = NotGiven | Accepted | Stale | IgnoredForRecovery

  /** boot_controller_result_t, without the state it carries. The statuses of
      boot_journal.h that reach the journal field are those of boot_lifecycle.h
      by number: success, and the error of a failed read. */
  datatype Result = Result(
    journal: Lifecycle.Status,
    slotStatus: SlotStatus,
    action: Action,
    reason: Reason,
    selected: uint8,
    primary: uint8,
    confirmation: ConfirmationStatus)

  /** result_default */
  const UNDECIDED: Result := Result(Lifecycle.Ok, SlotInvalid, EnterRecovery, Reason.InvalidArgument, SLOT_NONE, SLOT_NONE, NotGiven)

  datatype HandoffStatus = OnConfirmed | OnTrial | NoApplication | BadHandoff

  // ---- What a boot without faults decides ----

  /** The journal's state once a confirmation is dealt with. */
  function AfterConfirmation(current: State, token: Option<Token>): State {
    if token.Some? && current.pending == token.value.slot && current.sequence == token.value.sequence
    then Confirmed(current) else current
  }

  datatype Choice = Choice(state: State, slot: uint8)

  /** The state to record before anything is loaded, and the slot to load first. */
  function Selection(s: State): Choice {
    if s.pending == SLOT_NONE then Choice(s, s.confirmed)
    else if s.trials >= s.maxTrials then Choice(RolledBack(s), s.confirmed)
    else Choice(Tried(s), s.pending)
  }

  /** GET_INFO reports the slot a boot without faults tries first, and such a
      boot hands off to that very slot exactly if the image there boots. */
  lemma ReportedIsTried(current: State, mem: Bytes, result: Result, state: State, after: Bytes)
    requires |mem| == FLASH_SIZE && Storable(current) && Concludes(current, mem, result, state, after)
    ensures result.primary == SelectedSlot(current)
    ensures Bootable(mem, SelectedSlot(current)) <==> result.action == Handoff && result.selected == SelectedSlot(current)
  {
    hide Records, ImageValid;
  }

  /** Where a first slot that does not boot leads: a pending one is dropped for
      good, a confirmed one passed over. */
  function FallbackOf(c: Choice): Choice {
    if c.state.pending == c.slot then Choice(RolledBack(c.state), c.state.confirmed)
    else Choice(c.state, OtherSlot(c.slot))
  }

  /** What a boot comes to, from the journal's state once a confirmation is dealt
      with and the images in the flash. */
  ghost predicate Concludes(current: State, mem: Bytes, result: Result, state: State, after: Bytes)
    requires |mem| == FLASH_SIZE
  {
    var first := Selection(current);
    var choice := if Bootable(mem, first.slot) then first else FallbackOf(first);
    && Records(mem, choice.state, after) && state == choice.state
    && result.primary == first.slot && result.journal == Lifecycle.Ok
    && if Bootable(mem, choice.slot) then
         result.action == Handoff && result.selected == choice.slot
         && result.reason == if Bootable(mem, first.slot) then Selected else Fallback
       else result.action == EnterRecovery && result.reason == NoValidSlot
  }

  function ConfirmationOf(current: State, token: Option<Token>): ConfirmationStatus {
    if token == None then NotGiven else if AfterConfirmation(current, token) == current then Stale else Accepted
  }

  ghost predicate SameSlots(mem: Bytes, after: Bytes)
    requires |mem| == FLASH_SIZE
  {
    && |after| == FLASH_SIZE
    && (forall slot :: Bootable(after, slot) == Bootable(mem, slot))
    && forall slot :: SlotValid(slot) ==> SlotBytes(after, slot) == SlotBytes(mem, slot)
  }

  lemma StoreKeepsSlots(mem: Bytes, state: State, ok: bool, after: Bytes)
    requires |mem| == FLASH_SIZE && Stores(mem, state, ok, after)
    ensures SameSlots(mem, after)
  {
    hide Journal.StoreEffect, ImageValid;
    forall slot | SlotValid(slot)
      ensures SlotBytes(after, slot) == SlotBytes(mem, slot) && Bootable(after, slot) == Bootable(mem, slot)
    {
      BootableElsewhere(mem, after, METADATA_OFFSET, JOURNAL_SIZE, slot);
    }
  }

  /** A store that reported success, on a log in order: the state is the one
      that loads, and every slot boots as before. */
  ghost predicate Records(mem: Bytes, state: State, after: Bytes)
    requires |mem| == FLASH_SIZE
  {
    && SameSlots(mem, after)
    && Intact(Cells(after)) && Current(after) == state
  }

  lemma StoredIsRecorded(mem: Bytes, state: State, after: Bytes)
    requires |mem| == FLASH_SIZE && Intact(Cells(mem)) && Stores(mem, state, true, after)
    requires state.found && state.sequence == Wrap32(Current(mem).sequence + 1)
    ensures Records(mem, state, after)
  {
    hide Intact, Bootable, Newest, Stores, StepOk, SameSlots;
    OneStep(Cells(mem), state);
    StoreKeeps(mem, state, true, after);
    StoreKeepsSlots(mem, state, true, after);
  }

  /** The stages of a boot that met no fault, one after the other. */
  ghost predicate ConfirmsWell(mem: Bytes, token: Option<Token>, state: State, after: Bytes)
    requires |mem| == FLASH_SIZE
  {
    var current := Current(mem);
    if AfterConfirmation(current, token) == current then after == mem && (token.Some? ==> state == current)
    else state == Confirmed(current) && Stores(mem, state, true, after)
  }

  ghost predicate PreparesWell(mem: Bytes, state: State, slot: uint8, after: Bytes)
    requires |mem| == FLASH_SIZE
  {
    var c := Selection(Current(mem));
    && state == c.state && slot == c.slot
    && if c.state == Current(mem) then after == mem else Stores(mem, state, true, after)
  }

  ghost predicate RejectsWell(mem: Bytes, before: State, slot: uint8, state: State, fallback: uint8, after: Bytes)
    requires |mem| == FLASH_SIZE
  {
    var c := FallbackOf(Choice(before, slot));
    && state == c.state && fallback == c.slot
    && if before.pending == slot then Stores(mem, state, true, after) else after == mem
  }

  lemma Unconfirmed(current: State, token: Token)
    requires SlotValid(token.slot)
    ensures AfterConfirmation(current, Some(token)) == current
      <==> !(current.pending == token.slot && current.sequence == token.sequence)
  {}

  lemma ConfirmsWellRecords(mem: Bytes, token: Option<Token>, state: State, after: Bytes)
    requires |mem| == FLASH_SIZE && Intact(Cells(mem)) && ConfirmsWell(mem, token, state, after)
    requires token.Some? ==> token.value.slot != SLOT_NONE
    ensures Records(mem, AfterConfirmation(Current(mem), token), after)
  {
    hide Intact, Bootable, Newest, Stores;
    CurrentIsStorable(mem);
    if AfterConfirmation(Current(mem), token) != Current(mem) { StoredIsRecorded(mem, state, after); }
  }

  /** A selection made and recorded on a log in order. */
  ghost predicate Prepared(mem: Bytes, state: State, slot: uint8, after: Bytes) {
    && |mem| == |after| == FLASH_SIZE && Intact(Cells(after)) && Current(after) == state
    && state == Selection(Current(mem)).state && slot == Selection(Current(mem)).slot
    && SameSlots(mem, after)
    && (state.pending == slot ==> state.pending != SLOT_NONE)
  }

  lemma PreparesWellRecords(mem: Bytes, state: State, slot: uint8, after: Bytes)
    requires |mem| == FLASH_SIZE && Intact(Cells(mem)) && PreparesWell(mem, state, slot, after)
    ensures Prepared(mem, state, slot, after)
  {
    hide Intact, Bootable, Newest, Stores;
    CurrentIsStorable(mem);
    if state != Current(mem) { StoredIsRecorded(mem, state, after); }
  }

  lemma RejectsWellRecords(mem: Bytes, before: State, slot: uint8, state: State, fallback: uint8, after: Bytes)
    requires |mem| == FLASH_SIZE && Intact(Cells(mem)) && RejectsWell(mem, before, slot, state, fallback, after)
    requires before == Current(mem) && (before.pending == slot ==> before.pending != SLOT_NONE)
    ensures Records(mem, state, after)
  {
    hide Intact, Bootable, Newest, Stores;
    CurrentIsStorable(mem);
    if before.pending == slot { StoredIsRecorded(mem, state, after); }
  }

  // ---- Stages seen by the state machine ----

  /** How a stage ended, from what its caller sees. */
  function Ending(read: bool, ok: bool, powered: bool): Outcome {
    if !read then (if powered then ReadFailed else PowerLost)
    else if ok then Done
    else if powered then StoreFailed else PowerLost
  }

  /** The world a stage leads to. */
  ghost function Ended(w: World, mem: Bytes, took: seq<Event>, o: Outcome, next: Mode, entry: Engine): World {
    var mid := World(mem, w.mail, w.mode, w.events + took);
    match o
    case Done => mid.(mode := next)
    case PowerLost => mid.(mode := Off)
    case _ => mid.(mode := Recovery(entry), events := mid.events + [EntersRecovery])
  }

  ghost function Took(mem: Bytes, state: State, note: seq<Event>): seq<Event>
    requires |mem| == FLASH_SIZE
  {
    if Current(mem) == state.(found := true) then note else []
  }

  lemma StageEnds(w: World, state: State, o: Outcome, next: Mode, note: seq<Event>, mem: Bytes, entry: Engine)
    requires |w.mem| == |mem| == FLASH_SIZE && o != ReadFailed && o != NothingPending
    requires Stores(w.mem, state, o == Done, mem) && IsEntry(entry, state)
    ensures StoreStage(w, state, o, next, note, Ended(w, mem, Took(mem, state, note), o, next, entry))
  {
    hide Stores, Newest, IsEntry;
  }

  lemma ReadEnds(w: World, o: Outcome, next: Mode, state: State, entry: Engine)
    requires o == ReadFailed || o == PowerLost
    requires IsEntry(entry, state)
    ensures var v := Ended(w, w.mem, [], o, next, entry);
      (o == ReadFailed ==> Recovers(w, v, state)) && (o == PowerLost ==> v == w.(mode := Off))
  {
    hide IsEntry;
    assert w.events + [] == w.events;
  }

  lemma {:induction false} PathExtends(worlds: seq<World>, labels: seq<Label>, l: Label, v: World)
    requires Path(worlds, labels) && Moves(worlds[|labels|], l, v)
    ensures Path(worlds + [v], labels + [l])
  {
    hide Moves;
    var more, all := worlds + [v], labels + [l];
    forall k | 0 <= k < |all| ensures Moves(more[k], all[k], more[k + 1]) {
      if k < |labels| { assert Moves(worlds[k], labels[k], worlds[k + 1]); }
    }
  }

  /** The prepare stage follows the machine. */
  lemma PrepareEnds(w: World, read: bool, ok: bool, powered: bool, state: State, slot: uint8, mem: Bytes, entry: Engine)
    requires |w.mem| == |mem| == FLASH_SIZE && w.mode.Preparing? && IsEntry(entry, state)
    requires !read ==> mem == w.mem && !ok && state == w.mode.state
    requires read ==>
      var current := Current(w.mem);
      if current.pending == SLOT_NONE then ok && mem == w.mem && state == current && slot == current.confirmed
      else if current.trials >= current.maxTrials then
        state == RolledBack(current) && Stores(w.mem, state, ok, mem) && (ok ==> slot == current.confirmed)
      else state == Tried(current) && Stores(w.mem, state, ok, mem) && (ok ==> slot == current.pending)
    ensures var o := Ending(read, ok, powered);
      Moves(w, Prepare(o), Ended(w, mem, [], o, First(state, slot), entry))
  {
    hide Stores, Newest, Recovers, Bootable, IsEntry, StoreStage;
    var o, current := Ending(read, ok, powered), Current(w.mem);
    assert w.events + [] == w.events;
    if !read {
      ReadEnds(w, o, First(state, slot), state, entry);
    } else if current.pending != SLOT_NONE {
      var target := if current.trials >= current.maxTrials then current.confirmed else current.pending;
      StageEnds(w, state, o, First(state, target), [], mem, entry);
    }
  }

  /** The confirmation stage follows the machine: `fit` says the token named the
      pending slot at the journal's sequence. */
  lemma ConfirmEnds(w: World, t: Token, first: bool, second: bool, ok: bool, powered: bool, state: State, mem: Bytes, entry: Engine)
    requires |w.mem| == |mem| == FLASH_SIZE && w.mode == Consumed(Some(t)) && IsEntry(entry, state)
    requires var current := Current(w.mem);
      if !first then mem == w.mem && state == DEFAULT
      else if !(current.pending == t.slot && current.sequence == t.sequence) then ok && second && mem == w.mem && state == current
      else if !second then mem == w.mem && state == current
      else state == Confirmed(current) && Stores(w.mem, state, ok, mem)
    ensures var o := Ending(first && second, ok, powered);
      var current := Current(w.mem);
      var note := if first && second && current.pending == t.slot && current.sequence == t.sequence then Took(mem, state, [Confirms(t)]) else [];
      Moves(w, Confirm(o), Ended(w, mem, note, o, Preparing(state), entry))
  {
    hide Stores, Newest, Recovers, Bootable, IsEntry, StoreStage, Took;
    var o := Ending(first && second, ok, powered);
    assert w.events + [] == w.events;
    if !first || !second {
      ReadEnds(w, o, Preparing(state), state, entry);
    } else if Current(w.mem).pending == t.slot && Current(w.mem).sequence == t.sequence {
      StageEnds(w, state, o, Preparing(state), [Confirms(t)], mem, entry);
    }
  }

  function RejectEnding(mem: Bytes, read: bool, ok: bool, powered: bool): Outcome
    requires |mem| == FLASH_SIZE
  {
    if read && Current(mem).pending == SLOT_NONE then NothingPending else Ending(read, ok, powered)
  }

  /** Rejecting a pending image that does not load follows the machine. */
  lemma RejectEnds(w: World, read: bool, ok: bool, powered: bool, state: State, mem: Bytes, entry: Engine)
    requires |w.mem| == |mem| == FLASH_SIZE && w.mode.First? && w.mode.state.pending == w.mode.slot && IsEntry(entry, state)
    requires !read ==> mem == w.mem && !ok && state == w.mode.state
    requires read ==>
      var current := Current(w.mem);
      if current.pending == SLOT_NONE then !ok && powered && mem == w.mem && state == current
      else state == RolledBack(current) && Stores(w.mem, state, ok, mem)
    ensures var o := RejectEnding(w.mem, read, ok, powered);
      Moves(w, TryFirst(false, o), Ended(w, mem, [], o, Second(state, state.confirmed), entry))
  {
    hide Stores, Newest, Recovers, Bootable, IsEntry, StoreStage;
    var o, current := RejectEnding(w.mem, read, ok, powered), Current(w.mem);
    assert w.events + [] == w.events;
    if !read || current.pending == SLOT_NONE {
      if read { NotPendingEnds(w, current, entry); } else { ReadEnds(w, o, Second(state, state.confirmed), state, entry); }
    } else {
      StageEnds(w, state, o, Second(state, current.confirmed), [], mem, entry);
    }
  }

  lemma NotPendingEnds(w: World, state: State, entry: Engine)
    requires IsEntry(entry, state)
    ensures Recovers(w, w.(mode := Recovery(entry), events := w.events + [EntersRecovery]), state)
  {}

  /** boot_handoff_prepare */
  method HandoffPrepare(mailbox: Mailbox, result: Result, state: State) returns (status: HandoffStatus, watchdog: bool)
    modifies mailbox
    ensures status == if result.action.EnterRecovery? then NoApplication
                      else if state.pending != result.selected then OnConfirmed
                      else if SlotValid(result.selected) then OnTrial else BadHandoff
    ensures watchdog <==> status == OnTrial
    ensures Cut(old(mailbox.words), if status == OnTrial then PublishWrites(result.selected, state.sequence) else ClearWrites(),
                mailbox.words, mailbox.running)
    ensures mailbox.running ==> old(mailbox.running)
  {
    watchdog := false;
    if result.action != Handoff {
      mailbox.Clear();
      return NoApplication, false;
    }
    if state.pending != result.selected {
      mailbox.Clear();
      return OnConfirmed, false;
    }
    var published := mailbox.Publish(result.selected, state.sequence);
    if published != Trial.Ok { return BadHandoff, false; }
    return OnTrial, true;
  }

  class Bootloader {
    const nor: Flash
    const ram: Ram
    const mailbox: Mailbox
    const seed: uint32
    const hasKnobs: bool
    const hasLog: bool
    ghost var worlds: seq<World>
    ghost var labels: seq<Label>

    ghost function Now(): World
      reads this
      requires worlds != []
    {
      worlds[|worlds| - 1]
    }

    /** The trace is a path that ends in the world as it is. */
    ghost predicate Ready()
      reads this, nor, mailbox
    {
      && nor.Valid() && ram.Valid() && seed != 0
      && |worlds| == |labels| + 1 && Path(worlds, labels)
      && Now().mem == nor.mem && Now().mail == mailbox.words
      && (nor.faults != Errors ==> forall k :: 0 <= k < |labels| ==> !BackendFault(labels[k]))
    }

    /** The engine recovery would start with. */
    function Entry(state: State): Engine { Fresh(state, ActiveFor(state), seed, hasKnobs, hasLog) }

    constructor (nor: Flash, ram: Ram, mailbox: Mailbox, seed: uint32, hasKnobs: bool, hasLog: bool)
      requires nor.Valid() && ram.Valid() && seed != 0
      ensures this.nor == nor && this.ram == ram && this.mailbox == mailbox
      ensures Ready() && Now() == World(nor.mem, mailbox.words, Off, [])
    {
      this.nor, this.ram, this.mailbox, this.seed := nor, ram, mailbox, seed;
      this.hasKnobs, this.hasLog := hasKnobs, hasLog;
      worlds, labels := [World(nor.mem, mailbox.words, Off, [])], [];
    }

    lemma EntryIsEntry(state: State)
      requires seed != 0
      ensures IsEntry(Entry(state), state)
    {}

    ghost method Step(l: Label, v: World)
      requires nor.Valid() && ram.Valid() && seed != 0 && Path(worlds, labels)
      requires nor.faults != Errors ==> !BackendFault(l) && forall k :: 0 <= k < |labels| ==> !BackendFault(labels[k])
      requires Moves(Now(), l, v) && v.mem == nor.mem && v.mail == mailbox.words
      modifies this
      ensures Ready() && Now() == v
      ensures worlds == old(worlds) + [v] && labels == old(labels) + [l]
    {
      hide Moves;
      PathExtends(worlds, labels, l, v);
      worlds, labels := worlds + [v], labels + [l];
    }

    /** The boot stops where power was lost. */
    ghost method Stop()
      requires Ready()
      modifies this
      ensures Ready() && Now() == old(Now()).(mode := Off)
      ensures old(worlds) <= worlds && old(labels) <= labels
    {
      hide Path;
      NowHasSize();
      Step(Reset, Now().(mode := Off));
    }

    lemma NowHasSize()
      requires Ready()
      ensures |Now().mem| == FLASH_SIZE
    {}

    /** boot_lifecycle_prepare as the boot's own step */
    method PrepareStage(state: StateVar) returns (status: Lifecycle.Status, slot: uint8)
      requires Ready() && Now().mode == Preparing(state.value)
      modifies this, nor, state
      ensures Ready() && old(worlds) <= worlds && old(labels) <= labels
      ensures !nor.powered ==> Now().mode.Off?
      ensures nor.powered ==> Now().mode == if status == Lifecycle.Ok then First(state.value, slot) else Recovery(Entry(state.value))
      ensures nor.faults == Reliable && old(nor.powered) ==>
        status == Lifecycle.Ok && nor.powered && PreparesWell(old(nor.mem), state.value, slot, nor.mem)
      ensures status == Lifecycle.Ok ==> slot != SLOT_NONE
    {
      hide Path, Stores, Newest, Bootable, Entry;
      ghost var w := Now();
      CurrentIsStorable(nor.mem);
      ghost var read;
      status, slot, read := Lifecycle.Prepare(nor, state);
      EntryIsEntry(state.value);
      TracePrepare(w, read, status == Lifecycle.Ok, state.value, slot);
      if !nor.powered { Stop(); }
    }

    /** The step of the trace that this is. */
    ghost method TracePrepare(w: World, read: bool, ok: bool, state: State, slot: uint8)
      requires nor.Valid() && ram.Valid() && seed != 0 && Path(worlds, labels) && w == Now() && w.mail == mailbox.words
      requires nor.faults != Errors ==> forall k :: 0 <= k < |labels| ==> !BackendFault(labels[k])
      requires |w.mem| == FLASH_SIZE && w.mode.Preparing? && IsEntry(Entry(state), state)
      requires !read ==> nor.mem == w.mem && !ok && state == w.mode.state
      requires read ==>
        var current := Current(w.mem);
        if current.pending == SLOT_NONE then ok && nor.mem == w.mem && state == current && slot == current.confirmed
        else if current.trials >= current.maxTrials then
          state == RolledBack(current) && Stores(w.mem, state, ok, nor.mem) && (ok ==> slot == current.confirmed)
        else state == Tried(current) && Stores(w.mem, state, ok, nor.mem) && (ok ==> slot == current.pending)
      requires !ok && nor.powered ==> nor.faults == Errors
      modifies this
      ensures Ready() && old(worlds) <= worlds && old(labels) <= labels
      ensures nor.powered ==> Now().mode == if ok then First(state, slot) else Recovery(Entry(state))
    {
      hide Path, Stores, Newest, Moves, IsEntry, Entry;
      var o := Ending(read, ok, nor.powered);
      PrepareEnds(w, read, ok, nor.powered, state, slot, nor.mem, Entry(state));
      Step(Prepare(o), Ended(w, nor.mem, [], o, First(state, slot), Entry(state)));
    }

    /** Reads the retained confirmation and clears the mailbox. */
    method ConsumeStage() returns (available: bool, token: Token)
      requires Ready() && Now().mode.Off?
      modifies this, mailbox
      ensures Ready() && old(worlds) <= worlds && old(labels) <= labels
      ensures Now().mode == if mailbox.running then Consumed(if available then Some(token) else None) else Off
      ensures (if available then Some(token) else None) == Confirmation(old(mailbox.words))
      ensures available ==> SlotValid(token.slot)
      ensures mailbox.running ==> old(mailbox.running)
    {
      hide Path, Cut;
      ghost var w := Now();
      var status;
      status, token := mailbox.ConsumeConfirmation();
      available := status == Trial.Ok;
      ghost var running := mailbox.running;
      ghost var given := Confirmation(w.mail);
      hide ClearWrites;
      Step(Consume(running),
           if running then w.(mail := mailbox.words, mode := Consumed(given), events := w.events + [Consumes(given)])
           else w.(mail := mailbox.words));
    }

    /** What a forced boot reports of the journal: its state, or the default one
        and the error. */
    ghost predicate LoadsForced(status: Lifecycle.Status, state: State, mem: Bytes)
      requires |mem| == FLASH_SIZE
    {
      (status == Lifecycle.Ok && state == Current(mem)) || (status == Lifecycle.JournalError && state == DEFAULT)
    }

    /** Recovery was asked for: the state is loaded for its status only. */
    method ForceStage(state: StateVar) returns (status: Lifecycle.Status)
      requires Ready() && Now().mode.Consumed? && state.value == DEFAULT
      modifies this, nor`powered, state
      ensures Ready() && old(worlds) <= worlds && old(labels) <= labels
      ensures Now().mode == if nor.powered then Recovery(Entry(state.value)) else Off
      ensures nor.powered ==> LoadsForced(status, state.value, nor.mem)
      ensures nor.faults == Reliable && old(nor.powered) ==> nor.powered && status == Lifecycle.Ok
    {
      hide Path, Newest;
      ghost var w := Now();
      status := Lifecycle.LoadState(nor, state);
      EntryIsEntry(state.value);
      NotPendingEnds(w, state.value, Entry(state.value));
      hide Fresh;
      if nor.powered {
        Step(Force(status == Lifecycle.Ok), w.(mode := Recovery(Entry(state.value)), events := w.events + [EntersRecovery]));
      } else {
        Stop();
      }
    }

    /** What dealing with a given confirmation may come to: the journal was not
        read at all, not read again, or the store was attempted. */
    twostate predicate Takes(token: Token, state: State, status: Lifecycle.Status, first: bool, second: bool)
      reads nor
    {
      && |old(nor.mem)| == FLASH_SIZE && nor.Valid()
      && var current := Current(old(nor.mem));
         if !first then
           nor.mem == old(nor.mem) && nor.Failed(false, true) && state == DEFAULT && status == Lifecycle.JournalError
         else if AfterConfirmation(current, Some(token)) == current then
           second && nor.mem == old(nor.mem) && nor.Failed(true, true) && state == current && status == Lifecycle.Ok
         else if !second then
           nor.mem == old(nor.mem) && nor.Failed(false, true) && state == current && status == Lifecycle.JournalError
         else
           state == Confirmed(current) && Lifecycle.Stored(nor, state, status == Lifecycle.Ok)
           && (status == Lifecycle.Ok || status == Lifecycle.JournalError)
    }

    /** The journal is read, and the slot a fitting token names is confirmed. */
    method TakeConfirmation(token: Token, state: StateVar)
        returns (status: Lifecycle.Status, confirmation: ConfirmationStatus, ghost first: bool, ghost second: bool)
      requires nor.Valid() && state.value == DEFAULT && SlotValid(token.slot)
      modifies nor, state
      ensures Takes(token, state.value, status, first, second)
      ensures nor.faults == Reliable && old(nor.powered) ==> first && second
      ensures confirmation == if status == Lifecycle.Ok then ConfirmationOf(Current(old(nor.mem)), Some(token)) else NotGiven
    {
      hide Newest, Stores;
      confirmation := NotGiven;
      status := Lifecycle.LoadState(nor, state);
      first, second := status == Lifecycle.Ok, true;
      if status != Lifecycle.Ok { return; }
      if state.value.pending == token.slot && state.value.sequence == token.sequence {
        status, second := Lifecycle.Confirm(nor, token.slot, state);
        if status == Lifecycle.Ok { confirmation := Accepted; }
      } else {
        confirmation := Stale;
      }
    }

    /** Makes a fresh confirmation durable before anything else. */
    method ConfirmStage(available: bool, token: Token, state: StateVar)
        returns (status: Lifecycle.Status, confirmation: ConfirmationStatus)
      requires Ready() && Now().mode == Consumed(if available then Some(token) else None)
      requires state.value == DEFAULT && (available ==> SlotValid(token.slot))
      modifies this, nor, state
      ensures Ready() && old(worlds) <= worlds && old(labels) <= labels
      ensures !nor.powered ==> Now().mode.Off?
      ensures nor.powered ==> Now().mode == if status == Lifecycle.Ok then Preparing(state.value) else Recovery(Entry(state.value))
      ensures nor.faults == Reliable && old(nor.powered) ==>
        && status == Lifecycle.Ok && nor.powered
        && ConfirmsWell(old(nor.mem), if available then Some(token) else None, state.value, nor.mem)
      ensures confirmation == if status == Lifecycle.Ok
                              then ConfirmationOf(Current(old(nor.mem)), if available then Some(token) else None) else NotGiven
    {
      hide Path, Stores, Newest, Moves, Fresh;
      ghost var w := Now();
      status, confirmation := Lifecycle.Ok, NotGiven;
      if !available {
        NoneToConfirm(w);
        Step(Confirm(Done), w.(mode := Preparing(DEFAULT)));
        if !nor.powered { Stop(); }
        return;
      }
      ghost var first, second;
      status, confirmation, first, second := TakeConfirmation(token, state);
      EntryIsEntry(state.value);
      TraceConfirmation(w, token, status, first, second, state.value);
      if !nor.powered { Stop(); }
    }

    /** The step of the trace that this is. */
    ghost method TraceConfirmation(w: World, token: Token, status: Lifecycle.Status, first: bool, second: bool, state: State)
      requires nor.Valid() && ram.Valid() && seed != 0 && Path(worlds, labels) && w == Now() && w.mail == mailbox.words
      requires nor.faults != Errors ==> forall k :: 0 <= k < |labels| ==> !BackendFault(labels[k])
      requires |w.mem| == FLASH_SIZE && w.mode == Consumed(Some(token)) && SlotValid(token.slot) && IsEntry(Entry(state), state)
      requires var current, ok := Current(w.mem), status == Lifecycle.Ok;
        if !first then nor.mem == w.mem && state == DEFAULT && !ok
        else if AfterConfirmation(current, Some(token)) == current then second && nor.mem == w.mem && state == current && ok
        else if !second then nor.mem == w.mem && state == current && !ok
        else state == Confirmed(current) && Stores(w.mem, state, ok, nor.mem)
      requires status != Lifecycle.Ok && nor.powered ==> nor.faults == Errors
      modifies this
      ensures Ready() && old(worlds) <= worlds && old(labels) <= labels
      ensures nor.powered ==> Now().mode == if status == Lifecycle.Ok then Preparing(state) else Recovery(Entry(state))
    {
      hide Path, Stores, Newest, Moves, Took, Fresh, IsEntry;
      var ok, current := status == Lifecycle.Ok, Current(w.mem);
      var fits := current.pending == token.slot && current.sequence == token.sequence;
      Unconfirmed(current, token);
      var note := if first && second && fits then Took(nor.mem, state, [Confirms(token)]) else [];
      var o := Ending(first && second, ok, nor.powered);
      ConfirmEnds(w, token, first, second, ok, nor.powered, state, nor.mem, Entry(state));
      Step(Confirm(o), Ended(w, nor.mem, note, o, Preparing(state), Entry(state)));
    }

    /** A pending image that does not load is rejected durably. */
    method RejectStage(state: StateVar) returns (status: Lifecycle.Status)
      requires Ready() && Now().mode.First? && Now().mode.state == state.value && state.value.pending == Now().mode.slot
      modifies this, nor, state
      ensures Ready() && old(worlds) <= worlds && old(labels) <= labels
      ensures !nor.powered ==> Now().mode.Off?
      ensures nor.powered ==> Now().mode == if status == Lifecycle.Ok then Second(state.value, state.value.confirmed) else Recovery(Entry(state.value))
      ensures nor.faults == Reliable && old(nor.powered) ==> nor.powered
      ensures nor.faults == Reliable && old(nor.powered) && Current(old(nor.mem)).pending != SLOT_NONE ==>
        status == Lifecycle.Ok && state.value == RolledBack(Current(old(nor.mem))) && Stores(old(nor.mem), state.value, true, nor.mem)
    {
      hide Path, Stores, Newest, Moves, Fresh, Bootable;
      ghost var w := Now();
      ghost var read;
      status, read := Lifecycle.RejectPending(nor, state);
      ghost var ok := status == Lifecycle.Ok;
      EntryIsEntry(state.value);
      ghost var o := RejectEnding(w.mem, read, ok, nor.powered);
      RejectEnds(w, read, ok, nor.powered, state.value, nor.mem, Entry(state.value));
      Step(TryFirst(false, o), Ended(w, nor.mem, [], o, Second(state.value, state.value.confirmed), Entry(state.value)));
      if !nor.powered { Stop(); }
    }

    /** A load attempt that worked, or did not, of an image in RAM. */
    ghost predicate Outcome(loaded: bool, slot: uint8, mem: Bytes)
      reads ram.cells
    {
      && |mem| == FLASH_SIZE
      && (loaded ==> Bootable(mem, slot) && Copied(mem, slot, ram.cells[..]))
      && (!loaded && ram.sound ==> !Bootable(mem, slot))
    }

    /** The selected slot, then what its failure leads to. */
    method FirstStage(slot: uint8, state: StateVar)
        returns (loaded: bool, status: Lifecycle.Status, fallback: uint8, slotStatus: SlotStatus)
      requires Ready() && Now().mode == First(state.value, slot) && slot != SLOT_NONE && nor.powered
      modifies this, nor, state, ram.cells
      ensures Ready() && old(worlds) <= worlds && old(labels) <= labels
      ensures !nor.powered ==> Now().mode.Off?
      ensures Outcome(loaded, slot, old(nor.mem)) && (loaded <==> slotStatus == SlotOk)
      ensures loaded ==>
        && nor.mem == old(nor.mem) && state.value == old(state.value) && nor.powered && status == Lifecycle.Ok
        && Now().mode == Chosen(state.value, slot)
      ensures !loaded && nor.powered ==>
        Now().mode == if status == Lifecycle.Ok then Second(state.value, fallback) else Recovery(Entry(state.value))
      ensures nor.faults == Reliable ==> nor.powered
      ensures nor.faults == Reliable && !loaded && Current(old(nor.mem)) == old(state.value) ==>
        status == Lifecycle.Ok && RejectsWell(old(nor.mem), old(state.value), slot, state.value, fallback, nor.mem)
      ensures !loaded && status == Lifecycle.Ok && old(state.value).pending == slot ==> fallback == state.value.confirmed
    {
      hide Path, Stores, Newest, Moves, Fresh, Bootable, Copied;
      ghost var w := Now();
      fallback, status := SLOT_NONE, Lifecycle.Ok;
      slotStatus := LoadSlot(nor, ram, slot);
      loaded := slotStatus == SlotOk;
      if loaded {
        LoadedMoves(w);
        Step(TryFirst(true, Done), w.(mode := Chosen(state.value, slot)));
      } else if state.value.pending == slot {
        status := RejectStage(state);
        fallback := state.value.confirmed;
      } else {
        fallback := OtherSlot(slot);
        OtherMoves(w);
        Step(TryFirst(false, Done), w.(mode := Second(state.value, fallback)));
      }
    }

    method SecondStage(slot: uint8, state: State) returns (loaded: bool, slotStatus: SlotStatus)
      requires Ready() && Now().mode == Second(state, slot)
      modifies this, ram.cells
      ensures Ready() && old(worlds) <= worlds && old(labels) <= labels
      ensures Outcome(loaded, slot, nor.mem) && (loaded <==> slotStatus == SlotOk)
      ensures Now().mode == if loaded then Chosen(state, slot) else Recovery(Entry(state))
    {
      hide Path, Newest, Moves, Bootable, Copied;
      ghost var w := Now();
      slotStatus := LoadSlot(nor, ram, slot);
      loaded := slotStatus == SlotOk;
      EntryIsEntry(state);
      SecondMoves(w, loaded, Entry(state));
      hide Fresh;
      if loaded {
        Step(TrySecond(true), w.(mode := Chosen(state, slot)));
      } else {
        Step(TrySecond(false), w.(mode := Recovery(Entry(state)), events := w.events + [EntersRecovery]));
      }
    }

    /** Mailbox and watchdog before the jump. */
    method HandOffStage(result: Result, state: State) returns (status: HandoffStatus, watchdog: bool)
      requires Ready() && result.action.Handoff? && Now().mode == Chosen(state, result.selected) && SlotValid(result.selected)
      modifies this, mailbox
      ensures Ready() && old(worlds) <= worlds && old(labels) <= labels
      ensures Now().mode == if mailbox.running then App(result.selected) else Off
      ensures mailbox.running && status == OnTrial ==> Trial.Handoff(mailbox.words) == Some(Token(result.selected, state.sequence))
      ensures mailbox.running && status == OnConfirmed ==> Silent(mailbox.words)
      ensures mailbox.running ==> old(mailbox.running)
      ensures status == if state.pending == result.selected then OnTrial else OnConfirmed
      ensures watchdog <==> status == OnTrial
    {
      hide Path, Newest, Cut, PublishWrites, ClearWrites;
      ghost var w := Now();
      status, watchdog := HandoffPrepare(mailbox, result, state);
      ghost var running := mailbox.running;
      ghost var trial := if state.pending == result.selected then Some(Token(result.selected, state.sequence)) else None;
      ghost var v := w.(mail := mailbox.words, mode := if running then App(result.selected) else Off,
                        events := if running then w.events + [HandsOff(result.selected, trial, Current(w.mem))] else w.events);
      HandOffMoves(w, running, v);
      hide Moves;
      Step(HandOff(running), v);
      if status == OnTrial {
        PublishIsAtomic(w.mail, result.selected, state.sequence, mailbox.words, running);
      } else if running {
        ClearSilences(w.mail, mailbox.words, running);
        NoToken(mailbox.words);
      }
    }

    lemma StillSafe()
      requires Ready() && nor.faults != Errors && Safe(worlds[0])
      ensures Safe(Now())
    {
      hide Path, Safe;
      NeverBrickedByPowerLoss(worlds, labels);
    }

    /** What a boot came to. */
    ghost predicate Settled(result: Result, state: State)
      reads this, nor, mailbox, ram.cells
    {
      && worlds != []
      && if !nor.powered || !mailbox.running then Now().mode.Off?
         else if result.action.Handoff? then
           Now().mode == Chosen(state, result.selected) && Outcome(true, result.selected, nor.mem)
         else Now().mode == Recovery(Entry(state))
    }

    /** The reason given is the reason why. */
    ghost predicate Explained(result: Result) {
      && (result.action.Handoff? <==> result.reason == Selected || result.reason == Fallback)
      && (result.reason == Selected ==> result.selected == result.primary)
      && (result.action.Handoff? <==> result.slotStatus == SlotOk)
      && (result.action.EnterRecovery? ==> result.selected == SLOT_NONE)
      && (result.reason == JournalFailure ==> result.journal != Lifecycle.Ok)
      && (result.reason == Selected || result.reason == Fallback || result.reason == NoValidSlot ==> result.journal == Lifecycle.Ok)
    }

    /** Nothing is wrong but, perhaps, the images. */
    ghost predicate MustHandOff(forced: bool)
      reads nor
    {
      !forced && ram.sound && nor.faults == Reliable && nor.powered
    }

    /** boot_controller_run. A boot without faults does what the journal, the
        token and the images say, and reaches an application if the confirmed
        slot boots. */
    method Run(forced: bool) returns (result: Result, state: StateVar)
      requires Ready() && Now().mode.Off?
      modifies this, nor, mailbox, ram.cells
      ensures fresh(state) && Ready() && old(worlds) <= worlds && old(labels) <= labels
      ensures Settled(result, state.value) && Explained(result)
      ensures mailbox.running ==> old(mailbox.running)
      ensures forced && nor.powered && mailbox.running ==>
        && result.action.EnterRecovery? && result.reason == ForcedRecovery
        && result.confirmation == (if Confirmation(old(mailbox.words)).Some? then IgnoredForRecovery else NotGiven)
        && LoadsForced(result.journal, state.value, nor.mem)
      ensures forced ==> nor.mem == old(nor.mem)
      ensures !forced && mailbox.running ==>
        || result.confirmation == ConfirmationOf(Current(old(nor.mem)), Confirmation(old(mailbox.words)))
        || (result.confirmation == NotGiven && result.journal != Lifecycle.Ok)
      ensures forced && nor.faults == Reliable && old(nor.powered) && mailbox.running ==> result.journal == Lifecycle.Ok
      ensures Safe(worlds[0]) && old(MustHandOff(forced)) && mailbox.running ==> result.action.Handoff?
      ensures old(MustHandOff(forced)) && mailbox.running && Intact(Cells(old(nor.mem))) ==>
        var token := Confirmation(old(mailbox.words));
        && nor.powered
        && Concludes(AfterConfirmation(Current(old(nor.mem)), token), old(nor.mem), result, state.value, nor.mem)
        && result.confirmation == ConfirmationOf(Current(old(nor.mem)), token)
    {
      hide Path, Safe, Newest, Bootable, Copied, Fresh, Concludes, ConfirmsWell, Records, Intact, LoadsForced;
      hide AfterConfirmation, ConfirmationOf, Confirmation, Cells;
      state := new StateVar();
      result := UNDECIDED;
      ghost var mem := nor.mem;
      var available, token := ConsumeStage();
      if !mailbox.running { return; }
      if forced {
        var loaded := ForceStage(state);
        result := result.(journal := loaded, reason := ForcedRecovery);
        if available { result := result.(confirmation := IgnoredForRecovery); }
        return;
      }
      var status, confirmation := ConfirmStage(available, token, state);
      result := result.(confirmation := confirmation, journal := status);
      if !nor.powered { return; }
      if status != Lifecycle.Ok { result := result.(reason := JournalFailure); return; }
      ghost var middle, given := nor.mem, if available then Some(token) else None;
      ghost var well := old(MustHandOff(forced)) && Intact(Cells(mem));
      if well { ConfirmsWellRecords(mem, given, state.value, middle); RecordsIntact(mem, middle, AfterConfirmation(Current(mem), given)); }
      result := SelectAndLoad(state, result);
      if well {
        RunConcludes(mem, given, middle, result, state.value, nor.mem);
      }
    }

    /** The second half of boot_controller_run, once any confirmation is dealt with. */
    method SelectAndLoad(state: StateVar, before: Result) returns (result: Result)
      requires Ready() && Now().mode == Preparing(state.value) && nor.powered && mailbox.running && before.action.EnterRecovery?
      requires before.reason == Reason.InvalidArgument && before.slotStatus != SlotOk && before.selected == SLOT_NONE
      modifies this, nor, state, ram.cells
      ensures Ready() && old(worlds) <= worlds && old(labels) <= labels
      ensures Settled(result, state.value) && Explained(result) && result.confirmation == before.confirmation
      ensures Safe(worlds[0]) && old(MustHandOff(false)) ==> result.action.Handoff?
      ensures old(MustHandOff(false)) ==> nor.powered
      ensures old(MustHandOff(false)) && Intact(Cells(old(nor.mem))) ==>
        Concludes(Current(old(nor.mem)), old(nor.mem), result, state.value, nor.mem)
    {
      hide Path, Safe, Newest, Bootable, Copied, Fresh, Concludes, PreparesWell, Records, Intact;
      result := before;
      ghost var mem, well := nor.mem, MustHandOff(false) && Intact(Cells(nor.mem));
      var status, slot := PrepareStage(state);
      result := result.(journal := status);
      if !nor.powered { return; }
      if status != Lifecycle.Ok { result := result.(reason := JournalFailure); return; }
      result := result.(primary := slot);
      if well { PreparesWellRecords(mem, state.value, slot, nor.mem); }
      result := LoadSelected(state, slot, result, mem, well);
    }

    /** The selected slot, or the one to fall back on. */
    method LoadSelected(state: StateVar, slot: uint8, before: Result, ghost mem: Bytes, ghost well: bool) returns (result: Result)
      requires Ready() && Now().mode == First(state.value, slot) && slot != SLOT_NONE && nor.powered && mailbox.running
      requires before.action.EnterRecovery? && before.reason == Reason.InvalidArgument && before.slotStatus != SlotOk && before.selected == SLOT_NONE
      requires before.primary == slot && before.journal == Lifecycle.Ok
      requires well ==> MustHandOff(false) && Prepared(mem, state.value, slot, nor.mem)
      modifies this, nor, state, ram.cells
      ensures Ready() && old(worlds) <= worlds && old(labels) <= labels
      ensures Settled(result, state.value) && Explained(result) && result.confirmation == before.confirmation
      ensures Safe(worlds[0]) && old(MustHandOff(false)) ==> result.action.Handoff?
      ensures old(MustHandOff(false)) ==> nor.powered
      ensures well ==> Concludes(Current(mem), mem, result, state.value, nor.mem)
    {
      hide Path, Safe, Newest, Bootable, Copied, Fresh, Concludes, Records, Intact, RejectsWell;
      result := before;
      ghost var must := Safe(worlds[0]) && MustHandOff(false);
      if must { StillSafe(); SafeFirst(Now()); }
      ghost var middle, chosen := nor.mem, state.value;
      var loaded, stored, fallback, slotStatus := FirstStage(slot, state);
      result := result.(slotStatus := slotStatus);
      if loaded {
        result := result.(action := Handoff, selected := slot, reason := Selected);
        if well { FirstConcludes(mem, middle, chosen, slot, result); }
        return;
      }
      result := result.(journal := stored);
      if !nor.powered { return; }
      if stored != Lifecycle.Ok { result := result.(reason := JournalFailure); return; }
      if must { StillSafe(); SafeSecond(Now()); }
      result := LoadFallback(state.value, fallback, result);
      if well { SecondConcludes(mem, middle, chosen, slot, nor.mem, state.value, fallback, result); }
    }

    /** The last slot to try. */
    method LoadFallback(state: State, slot: uint8, before: Result) returns (result: Result)
      requires Ready() && Now().mode == Second(state, slot) && nor.powered && mailbox.running
      requires before.action.EnterRecovery? && before.journal == Lifecycle.Ok && before.selected == SLOT_NONE
      modifies this, ram.cells
      ensures Ready() && old(worlds) <= worlds && old(labels) <= labels
      ensures Settled(result, state) && Explained(result)
      ensures result.confirmation == before.confirmation && result.primary == before.primary && result.journal == Lifecycle.Ok
      ensures ram.sound ==>
        if Bootable(nor.mem, slot) then result.action == Handoff && result.selected == slot && result.reason == Fallback
        else result.action == EnterRecovery && result.reason == NoValidSlot
    {
      hide Path, Newest, Bootable, Copied, Fresh;
      result := before;
      var loaded, slotStatus := SecondStage(slot, state);
      result := result.(slotStatus := slotStatus);
      if loaded {
        result := result.(action := Handoff, selected := slot, reason := Fallback);
      } else {
        result := result.(reason := NoValidSlot);
      }
    }

    /** bootloader_run: the controller, then the mailbox and the jump. */
    method Boot(forced: bool) returns (result: Result, state: StateVar, status: HandoffStatus, watchdog: bool)
      requires Ready() && Now().mode.Off?
      modifies this, nor, mailbox, ram.cells
      ensures fresh(state) && Ready() && old(worlds) <= worlds && old(labels) <= labels
      ensures nor.powered && mailbox.running ==>
        Now().mode == if result.action.Handoff? then App(result.selected) else Recovery(Entry(state.value))
      ensures mailbox.running ==> old(mailbox.running)
      ensures watchdog <==> status == OnTrial
      ensures nor.powered && mailbox.running && result.action.Handoff? ==>
        && Copied(nor.mem, result.selected, ram.cells[..])
        && status == (if state.value.pending == result.selected then OnTrial else OnConfirmed)
        && (status == OnTrial ==> Trial.Handoff(mailbox.words) == Some(Token(result.selected, state.value.sequence)))
        && (status == OnConfirmed ==> Silent(mailbox.words))
      ensures Safe(worlds[0]) && old(MustHandOff(forced)) && mailbox.running ==> result.action.Handoff?
      ensures old(MustHandOff(forced)) && mailbox.running && Intact(Cells(old(nor.mem))) ==>
        var token := Confirmation(old(mailbox.words));
        && nor.powered
        && Concludes(AfterConfirmation(Current(old(nor.mem)), token), old(nor.mem), result, state.value, nor.mem)
        && result.confirmation == ConfirmationOf(Current(old(nor.mem)), token)
    {
      hide Path, Safe, Newest, Bootable, Copied, Fresh, Concludes, Records, Intact, Silent;
      result, state := Run(forced);
      status, watchdog := NoApplication, false;
      if nor.powered && mailbox.running && result.action.Handoff? {
        BootableIsValid(nor.mem, result.selected);
        status, watchdog := HandOffStage(result, state.value);
      }
    }
  }

  lemma RecordsIntact(mem: Bytes, after: Bytes, state: State)
    requires |mem| == FLASH_SIZE && Records(mem, state, after)
    ensures |after| == FLASH_SIZE && Intact(Cells(after)) && Current(after) == state
  {
    hide Intact, Bootable, Newest;
  }

  lemma FirstConcludes(mem: Bytes, middle: Bytes, state: State, slot: uint8, result: Result)
    requires Prepared(mem, state, slot, middle)
    requires Bootable(middle, slot) && result.primary == slot && result.journal == Lifecycle.Ok
    requires result.action == Handoff && result.selected == slot && result.reason == Selected
    ensures Concludes(Current(mem), mem, result, state, middle)
  {
    hide Intact, Bootable, Newest, Stores;
  }

  lemma SecondConcludes(mem: Bytes, middle: Bytes, chosen: State, slot: uint8, after: Bytes, state: State, fallback: uint8, result: Result)
    requires Prepared(mem, chosen, slot, middle)
    requires RejectsWell(middle, chosen, slot, state, fallback, after) && !Bootable(middle, slot)
    requires result.primary == slot && result.journal == Lifecycle.Ok
    requires |after| == FLASH_SIZE
    requires if Bootable(after, fallback) then result.action == Handoff && result.selected == fallback && result.reason == Fallback
             else result.action == EnterRecovery && result.reason == NoValidSlot
    ensures Concludes(Current(mem), mem, result, state, after)
  {
    hide Intact, Bootable, Newest, Stores;
    RejectsWellRecords(middle, chosen, slot, state, fallback, after);
  }

  lemma RunConcludes(mem: Bytes, token: Option<Token>, middle: Bytes, result: Result, state: State, after: Bytes)
    requires |mem| == |middle| == FLASH_SIZE && Records(mem, AfterConfirmation(Current(mem), token), middle)
    requires Concludes(Current(middle), middle, result, state, after)
    ensures Concludes(AfterConfirmation(Current(mem), token), mem, result, state, after)
  {
    hide Intact, Bootable, Newest;
  }

  lemma NoneToConfirm(w: World)
    requires |w.mem| == FLASH_SIZE && w.mode == Consumed(None)
    ensures Moves(w, Confirm(Done), w.(mode := Preparing(DEFAULT)))
  {}

  lemma LoadedMoves(w: World)
    requires |w.mem| == FLASH_SIZE && w.mode.First? && Bootable(w.mem, w.mode.slot)
    ensures Moves(w, TryFirst(true, Done), w.(mode := Chosen(w.mode.state, w.mode.slot)))
  {
    hide Bootable;
  }

  lemma OtherMoves(w: World)
    requires |w.mem| == FLASH_SIZE && w.mode.First? && w.mode.state.pending != w.mode.slot
    ensures Moves(w, TryFirst(false, Done), w.(mode := Second(w.mode.state, OtherSlot(w.mode.slot))))
  {
    hide Bootable;
  }

  lemma SecondMoves(w: World, loads: bool, entry: Engine)
    requires |w.mem| == FLASH_SIZE && w.mode.Second? && (loads ==> Bootable(w.mem, w.mode.slot)) && IsEntry(entry, w.mode.state)
    ensures loads ==> Moves(w, TrySecond(true), w.(mode := Chosen(w.mode.state, w.mode.slot)))
    ensures !loads ==> Moves(w, TrySecond(false), w.(mode := Recovery(entry), events := w.events + [EntersRecovery]))
  {
    hide Bootable;
  }

  lemma HandOffMoves(w: World, running: bool, v: World)
    requires |w.mem| == |v.mem| == FLASH_SIZE && w.mode.Chosen? && HandOffStep(w, running, v)
    ensures Moves(w, HandOff(running), v)
  {
    hide HandOffStep;
  }

  lemma SafeFirst(w: World)
    requires Safe(w) && w.mode.First?
    ensures |w.mem| == FLASH_SIZE && w.mode.state == Current(w.mem)
    ensures w.mode.slot != w.mode.state.pending ==> Bootable(w.mem, w.mode.slot)
  {
    hide Intact, Newest, Bootable, Backed, Silent;
  }

  lemma SafeSecond(w: World)
    requires Safe(w) && w.mode.Second?
    ensures |w.mem| == FLASH_SIZE && Bootable(w.mem, w.mode.state.confirmed)
  {
    hide Intact, Newest, Bootable, Backed, Silent;
  }
}
