/** What the recovery engine keeps over every packet, and over any run of them. */
module EngineProofs {
  import opened Words
  import opened BootState
  import opened Nor
  import opened Protocol
  import opened Image
  import opened EngineSpec
  import opened RecoveryEngine
  import Journal
  import Sha256Spec

  /** A packet that reaches its handler. */
  predicate Reaches(e: Engine, request: Packet)
    requires Formed(request)
  {
    ValidateCommon(request) == OK && !Cached(e, request) && Admit(e, request) == OK
  }

  /** How many payload bytes a command may carry. */
  predicate LengthAllowed(command: uint8, length: uint16) {
    if command == WRITE_CHUNK || command == READ_CHUNK then 1 <= length <= PAYLOAD_SIZE
    else length == if command == BEGIN_FULL_FLASH then 32 else 0
  }

  /** Which flags it may carry: a slot, the whole chip, or either. */
  predicate FlagsAllowed(command: uint8, flags: uint16) {
    if command == BEGIN_FULL_FLASH || command == ERASE_FULL_FLASH || command == FINALIZE_FULL_FLASH then flags == 0x8000
    else if command == WRITE_CHUNK || command == READ_CHUNK || command == REBOOT then flags in {0, 1, 0x8000, 0x8001}
    else flags in {0, 1}
  }

  /** The checks before any session state is looked at, command by command. */
  lemma CommonIsTheTable(p: Packet)
    requires Formed(p)
    ensures ValidateCommon(p) == OK <==>
      Validate(p) == OK && p.status == OK && LengthAllowed(p.command, p.length) && FlagsAllowed(p.command, p.flags)
  {
    hide Crc.Crc32;
    FlagBits(p.flags);
  }

  /** The gate before the handlers, command by command. */
  lemma GateIsTheTable(e: Engine, p: Packet)
    requires Formed(p) && ValidateCommon(p) == OK
    ensures Admit(e, p) == OK <==>
      if UsesSession(p.command) then
        && e.phase != PHASE_IDLE && p.session == e.session && p.sequence == e.expectedSequence
        && if e.fullSession then p.flags == 0x8000 else p.flags in {0, 1} && p.flags == e.target
      else p.sequence == 0 && p.session == if p.command == BEGIN_FULL_FLASH then FULL_FLASH_UNLOCK else 0
  {
    CommonIsTheTable(p);
    hide ValidateCommon, Validate;
    FlagBits(p.flags);
  }

  lemma FlagBits(flags: uint16)
    ensures FlagsKnown(flags) <==> flags in {0, 1, 0x8000, 0x8001}
    ensures FlagsKnown(flags) ==> (FullFlag(flags) <==> flags !in {0, 1}) && PacketSlot(flags) == flags % 0x8000
  {}

  // ---- The invariant of the session machine ----

  /** A session bound to one application slot. */
  predicate InSlot(e: Engine) { e.phase != PHASE_IDLE && !e.fullSession }

  predicate InFull(e: Engine) { e.phase != PHASE_IDLE && e.fullSession }

  ghost predicate Sound(e: Engine) {
    && Bounded(e)
    && |e.imageSha| == Sha256Spec.DIGEST
    && e.phase <= PHASE_PENDING
    && (e.fullSession ==> e.fullEnabled && e.phase != PHASE_IDLE)
    && (InSlot(e) ==>
          && SlotValid(e.target)
          && e.target != e.bootState.confirmed
          && e.target != e.active
          && MINIMUM_IMAGE <= e.imageSize <= SLOT_SIZE
          && (e.phase < PHASE_WRITING ==> e.nextWrite == 0)
          && (e.phase >= PHASE_FINALIZED ==> e.nextWrite == e.imageSize)
          && (e.phase == PHASE_PENDING ==> e.bootState.pending == e.target))
    && (InFull(e) ==>
          && e.target == SLOT_NONE
          && e.imageSize == FLASH_SIZE
          && e.phase != PHASE_PENDING
          && (e.phase < PHASE_WRITING ==> e.nextWrite == 0)
          && (e.phase == PHASE_BEGUN <==> e.fullErase < FLASH_SIZE)
          && (e.phase == PHASE_FINALIZED ==> e.nextWrite == FLASH_SIZE))
  }

  lemma FreshIsSound(state: State, active: uint8, seed: uint32, hasKnobs: bool, hasLog: bool)
    ensures Sound(Fresh(state, active, seed, hasKnobs, hasLog))
    ensures var e := Fresh(state, active, seed, hasKnobs, hasLog);
      e.seed == (if seed == 0 then DEFAULT_SEED else seed) && e.seed != 0
  {}

  /** What the gate guarantees about flags once a session command is let in. */
  lemma SessionsStaySeparate(e: Engine, request: Packet)
    requires Formed(request) && Reaches(e, request) && UsesSession(request.command)
    ensures e.phase != PHASE_IDLE && request.session == e.session && request.sequence == e.expectedSequence
    ensures request.command == ERASE_SLOT || request.command == FINALIZE_IMAGE || request.command == SET_PENDING ==> !e.fullSession
    ensures request.command == ERASE_FULL_FLASH || request.command == FINALIZE_FULL_FLASH ==> e.fullSession
    ensures e.fullSession ==> request.flags == FLAG_FULL_FLASH
    ensures !e.fullSession ==> PacketSlot(request.flags) == e.target && !FullFlag(request.flags)
  {
    hide Validate;
  }

  /** The engine part of a handler's step. */
  lemma DispatchIsSound(e: Engine, mem: Bytes, request: Packet, io: Io)
    requires Formed(request) && request.length <= PAYLOAD_SIZE && |mem| == FLASH_SIZE && Sound(e)
    requires Reaches(e, request)
    ensures Sound(Dispatch(e, mem, request, io).engine)
  {
    hide StoredImageValid, Sha256Spec.Hash, NextSession, InfoBytes, MakeResponse, Validate, Cached;
    if UsesSession(request.command) { SessionsStaySeparate(e, request); }
  }

  lemma ProcessIsSound(e: Engine, mem: Bytes, request: Packet, io: Io)
    requires Formed(request) && |mem| == FLASH_SIZE && Sound(e)
    ensures Sound(Process(e, mem, request, io).engine)
  {
    hide Dispatch, Sound;
    assert Bounded(e) by { SoundIsBounded(e); }
    if Reaches(e, request) {
      LengthFits(request);
      HandlersFormResponses(e, mem, request, io);
      DispatchIsSound(e, mem, request, io);
      CommitIsSound(Dispatch(e, mem, request, io), request);
    }
  }

  lemma SoundIsBounded(e: Engine)
    requires Sound(e)
    ensures Bounded(e)
  {}

  lemma CommitIsSound(s: Step, request: Packet)
    requires Formed(s.response) && Sound(s.engine)
    ensures Sound(Commit(s, request).engine)
  {}

  /** A command that is not accepted changes nothing in the engine. */
  lemma RejectedChangesNothing(e: Engine, mem: Bytes, request: Packet, io: Io)
    requires Formed(request) && |mem| == FLASH_SIZE && Bounded(e)
    requires Process(e, mem, request, io).status != OK
    ensures Process(e, mem, request, io).engine == e
  {
    hide Dispatch, ValidateCommon, Protocol.Finalize, MakeResponse;
    if Reaches(e, request) {
      LengthFits(request);
      HandlersFormResponses(e, mem, request, io);
      DispatchRejects(e, mem, request, io);
    }
  }

  lemma DispatchRejects(e: Engine, mem: Bytes, request: Packet, io: Io)
    requires Formed(request) && request.length <= PAYLOAD_SIZE && |mem| == FLASH_SIZE && Bounded(e)
    ensures var s := Dispatch(e, mem, request, io);
      s.status != OK ==> s.engine == e
  {
    hide StoredImageValid, Sha256Spec.Hash, NextSession, InfoBytes, MakeResponse, ResolveRange, Begun;
  }

  // ---- Confinement ----

  /** Every flash range a slot session touches lies in its target slot, or is a
      journal record that makes that slot pending. */
  ghost predicate Confined(e: Engine, action: Action) {
    match action
    case NoAction => true
    case EraseFlash(at, n) => SlotValid(e.target) && SlotOffset(e.target) <= at && at + n <= SlotOffset(e.target) + SLOT_SIZE
    case ProgramFlash(at, data) => SlotValid(e.target) && SlotOffset(e.target) <= at && at + |data| <= SlotOffset(e.target) + SLOT_SIZE
    case StoreState(state) => SlotValid(e.target) && e.target != e.bootState.confirmed && state == Begun(e.bootState, e.target)
  }

  lemma DispatchConfined(e: Engine, mem: Bytes, request: Packet, io: Io)
    requires Formed(request) && request.length <= PAYLOAD_SIZE && |mem| == FLASH_SIZE && Sound(e) && !e.fullSession
    requires UsesSession(request.command) ==> e.phase != PHASE_IDLE
    ensures var action := Dispatch(e, mem, request, io).action;
      && Confined(e, action)
      && (action != NoAction ==> InSlot(e) && if action.StoreState? then e.phase == PHASE_FINALIZED else e.phase < PHASE_FINALIZED)
  {
    hide StoredImageValid, Sha256Spec.Hash, NextSession, InfoBytes, MakeResponse, Begun, EraseLength;
    if InSlot(e) { EraseFits(e.imageSize, e.target); }
  }

  /** Write confinement: whatever a slot session does to the flash stays in the
      target slot, which is neither the confirmed nor the active one, or is the
      journal record that makes it pending; and once the image is finalized only
      the latter is left. */
  lemma SlotActionsConfined(e: Engine, mem: Bytes, request: Packet, io: Io)
    requires Formed(request) && |mem| == FLASH_SIZE && Sound(e) && !e.fullSession
    ensures var action := Process(e, mem, request, io).action;
      && Confined(e, action)
      && (action != NoAction ==>
            && InSlot(e) && e.target != e.bootState.confirmed && e.target != e.active
            && if action.StoreState? then e.phase == PHASE_FINALIZED else e.phase < PHASE_FINALIZED)
  {
    hide Dispatch, ValidateCommon, Protocol.Finalize, MakeResponse;
    if Reaches(e, request) {
      LengthFits(request);
      HandlersFormResponses(e, mem, request, io);
      DispatchConfined(e, mem, request, io);
    }
  }

  // ---- What the engine vouches for ----

  /** A finalized or pending slot holds an image the bootloader will run; a
      finalized whole flash has the digest bound at its beginning. */
  ghost predicate Vouched(e: Engine, mem: Bytes)
    requires |mem| == FLASH_SIZE
  {
    && (InSlot(e) && e.phase >= PHASE_FINALIZED ==> Bootable(mem, e.target))
    && (InFull(e) && e.phase == PHASE_FINALIZED ==> Sha256Spec.Hash(mem) == e.imageSha)
  }

  lemma StoredImageIsBootable(e: Engine, mem: Bytes)
    requires |mem| == FLASH_SIZE && SlotValid(e.target) && StoredImageValid(e, mem)
    ensures Bootable(mem, e.target)
  {
    hide ImageValid;
  }

  lemma DispatchVouched(e: Engine, mem: Bytes, request: Packet, io: Io, after: Bytes)
    requires Formed(request) && request.length <= PAYLOAD_SIZE && |mem| == FLASH_SIZE && Sound(e)
    requires Reaches(e, request) && Vouched(e, mem)
    requires Acts(mem, Dispatch(e, mem, request, io).action, io.ok, after)
    ensures |after| == FLASH_SIZE
    ensures Vouched(Dispatch(e, mem, request, io).engine, after)
  {
    hide StoredImageValid, Sha256Spec.Hash, NextSession, InfoBytes, MakeResponse, Validate, Cached, Bootable,
         EraseEffect, ProgramEffect, ResolveRange;
    if UsesSession(request.command) { SessionsStaySeparate(e, request); }
    if request.command == SET_PENDING && SlotValid(e.target) {
      if Dispatch(e, mem, request, io).action.StoreState? {
        BootableElsewhere(mem, after, METADATA_OFFSET, JOURNAL_SIZE, e.target);
      }
    }
    if SlotValid(e.target) && StoredImageValid(e, mem) { StoredImageIsBootable(e, mem); }
    assert |after| == FLASH_SIZE by { ActsKeepSize(mem, Dispatch(e, mem, request, io).action, io.ok, after); }
  }

  lemma ActsKeepSize(mem: Bytes, action: Action, ok: bool, after: Bytes)
    requires |mem| == FLASH_SIZE && Acts(mem, action, ok, after)
    ensures |after| == FLASH_SIZE
  {}

  /** No handler changes a finalized slot: whatever SET_PENDING points the
      bootloader at satisfies the bootloader's own manifest, vector and hash
      checks, in every reachable FINALIZED or PENDING phase. */
  lemma VouchedIsKept(e: Engine, mem: Bytes, request: Packet, io: Io, after: Bytes)
    requires Formed(request) && |mem| == FLASH_SIZE && Sound(e) && Vouched(e, mem)
    requires Acts(mem, Process(e, mem, request, io).action, io.ok, after)
    ensures |after| == FLASH_SIZE
    ensures Vouched(Process(e, mem, request, io).engine, after)
  {
    hide Dispatch, ValidateCommon, Protocol.Finalize, MakeResponse, Acts, Bootable, Sha256Spec.Hash, Admit, Sound;
    SoundIsBounded(e);
    ActsKeepSize(mem, Process(e, mem, request, io).action, io.ok, after);
    if Reaches(e, request) {
      LengthFits(request);
      HandlersFormResponses(e, mem, request, io);
      DispatchVouched(e, mem, request, io, after);
    } else {
      NothingDone(mem, io.ok, after);
    }
  }

  lemma NothingDone(mem: Bytes, ok: bool, after: Bytes)
    requires |mem| == FLASH_SIZE
    ensures Acts(mem, NoAction, ok, after) ==> after == mem
  {}

  // ---- Content ----

  /** First byte and length of the range a session erases and then writes. */
  function Base(e: Engine): nat { if InSlot(e) && SlotValid(e.target) then SlotOffset(e.target) else 0 }

  function Span(e: Engine): nat { if InSlot(e) then EraseLength(e.imageSize) else FLASH_SIZE }

  /** What has been erased in order so far in a whole-flash session, and in any
      session what has been written so far, byte for byte, before untouched
      erased flash. */
  ghost predicate Holds(e: Engine, mem: Bytes, written: Bytes)
    requires |mem| == FLASH_SIZE
  {
    && Base(e) + Span(e) <= FLASH_SIZE
    && (InFull(e) && e.phase == PHASE_BEGUN ==> e.fullErase <= FLASH_SIZE && Erased(mem[..e.fullErase]))
    && (e.phase >= PHASE_ERASED ==>
          && |written| == e.nextWrite <= Span(e)
          && mem[Base(e)..Base(e) + e.nextWrite] == written
          && Erased(mem[Base(e) + e.nextWrite..Base(e) + Span(e)]))
  }

  /** The bytes accepted so far: a new session or erase starts over. */
  function Written(e: Engine, s: Step, request: Packet, written: Bytes): Bytes
    requires Formed(request)
  {
    if s.status == OK && s.action.ProgramFlash? then written + s.action.data
    else if s.status == OK && s.action.EraseFlash? then []
    else written
  }

  /** A backend that did what it was asked, if it was asked anything. */
  predicate Worked(s: Step, io: Io) { s.action == NoAction || io.ok }

  lemma EraseHolds(before: Bytes, after: Bytes, at: nat, n: nat)
    requires |before| == FLASH_SIZE && at + n <= FLASH_SIZE && EraseEffect(before, after, at, n, true)
    ensures |after| == FLASH_SIZE && Erased(after[at..at + n])
    ensures at <= FLASH_SIZE && after[..at] == before[..at]
  {}

  /** Writing the next piece into erased flash extends what is written. */
  lemma ProgramHolds(before: Bytes, after: Bytes, base: nat, done: nat, span: nat, data: Bytes)
    requires |before| == FLASH_SIZE && done + |data| <= span && base + span <= FLASH_SIZE
    requires Erased(before[base + done..base + span])
    requires ProgramEffect(before, after, base + done, data, true)
    ensures |after| == FLASH_SIZE
    ensures after[base..base + done + |data|] == before[base..base + done] + data
    ensures Erased(after[base + done + |data|..base + span])
  {
    hide Decode, NorAnd, Between;
    var at, end := base + done, base + done + |data|;
    ErasedPiece(before, at, base + span, at, end);
    ErasedPiece(before, at, base + span, end, base + span);
    Journal.ErasedAnd(before[at..end], data);
    SameSlice(before, after, base, at);
    Join(after, base, at, end);
    SameSlice(before, after, end, base + span);
  }

  lemma ErasedPiece(mem: Bytes, from: nat, to: nat, i: nat, j: nat)
    requires from <= i <= j <= to <= |mem| && Erased(mem[from..to])
    ensures Erased(mem[i..j])
  {
    forall k | 0 <= k < j - i ensures mem[i..j][k] == 0xFF {
      assert mem[i..j][k] == mem[from..to][i - from + k];
    }
  }

  lemma WriteHolds(e: Engine, mem: Bytes, request: Packet, io: Io, after: Bytes, written: Bytes)
    requires Formed(request) && request.length <= PAYLOAD_SIZE && |mem| == FLASH_SIZE && Sound(e)
    requires Reaches(e, request) && request.command == WRITE_CHUNK && Holds(e, mem, written)
    requires var s := HandleWrite(e, request, io);
      Acts(mem, s.action, io.ok, after) && Worked(s, io)
    ensures |after| == FLASH_SIZE
    ensures var s := HandleWrite(e, request, io);
      Holds(s.engine, after, Written(e, s, request, written))
  {
    hide ProgramEffect, Decode, Validate, ValidateCommon, Admit, Cached, Erased, MakeResponse, EraseLength;
    SessionsStaySeparate(e, request);
    var s := HandleWrite(e, request, io);
    if InSlot(e) { EraseFits(e.imageSize, e.target); }
    if s.action.ProgramFlash? {
      ProgramHolds(mem, after, Base(e), e.nextWrite, Span(e), s.action.data);
    }
  }

  lemma EraseSlotHolds(e: Engine, mem: Bytes, request: Packet, io: Io, after: Bytes, written: Bytes)
    requires Formed(request) && request.length <= PAYLOAD_SIZE && |mem| == FLASH_SIZE && Sound(e)
    requires Reaches(e, request) && request.command == ERASE_SLOT && Holds(e, mem, written)
    requires var s := HandleEraseSlot(e, request, io);
      Acts(mem, s.action, io.ok, after) && Worked(s, io)
    ensures |after| == FLASH_SIZE
    ensures var s := HandleEraseSlot(e, request, io);
      Holds(s.engine, after, Written(e, s, request, written))
  {
    hide EraseEffect, Validate, Cached, Erased, MakeResponse, EraseLength;
    SessionsStaySeparate(e, request);
    var s := HandleEraseSlot(e, request, io);
    EraseFits(e.imageSize, e.target);
    if s.action.EraseFlash? {
      EraseHolds(mem, after, Base(e), Span(e));
    }
  }

  lemma EraseFullHolds(e: Engine, mem: Bytes, request: Packet, io: Io, after: Bytes, written: Bytes)
    requires Formed(request) && request.length <= PAYLOAD_SIZE && |mem| == FLASH_SIZE && Sound(e)
    requires Reaches(e, request) && request.command == ERASE_FULL_FLASH && Holds(e, mem, written)
    requires var s := HandleEraseFullFlash(e, request, io);
      Acts(mem, s.action, io.ok, after) && Worked(s, io)
    ensures |after| == FLASH_SIZE
    ensures var s := HandleEraseFullFlash(e, request, io);
      Holds(s.engine, after, Written(e, s, request, written))
  {
    hide EraseEffect, Validate, Cached, MakeResponse;
    SessionsStaySeparate(e, request);
    var s := HandleEraseFullFlash(e, request, io);
    if s.action.EraseFlash? {
      var n := FullEraseLength(e);
      EraseHolds(mem, after, e.fullErase, n);
      assert after[..e.fullErase + n] == after[..e.fullErase] + after[e.fullErase..e.fullErase + n];
      if e.fullErase + n == FLASH_SIZE { assert after[0 + 0..0 + FLASH_SIZE] == after[..FLASH_SIZE]; }
    }
  }

  lemma SetPendingHolds(e: Engine, mem: Bytes, request: Packet, io: Io, after: Bytes, written: Bytes)
    requires Formed(request) && |mem| == FLASH_SIZE && Sound(e)
    requires Reaches(e, request) && request.command == SET_PENDING && Holds(e, mem, written)
    requires Acts(mem, HandleSetPending(e, request, io).action, io.ok, after)
    ensures |after| == FLASH_SIZE
    ensures Holds(HandleSetPending(e, request, io).engine, after, written)
  {
    hide Validate, Cached, MakeResponse, Begun, EraseLength, Erased;
    SessionsStaySeparate(e, request);
    EraseFits(e.imageSize, e.target);
    if HandleSetPending(e, request, io).action.StoreState? {
      var base, done, end := Base(e), Base(e) + e.nextWrite, Base(e) + Span(e);
      assert METADATA_OFFSET + JOURNAL_SIZE <= base;
      assert after[base..done] == mem[base..done];
      assert after[done..end] == mem[done..end];
    }
  }

  /** An engine at the start of a session. */
  predicate Restarted(e: Engine) {
    && e.phase == PHASE_BEGUN && e.nextWrite == 0
    && if e.fullSession then e.fullErase == 0
       else SlotValid(e.target) && MINIMUM_IMAGE <= e.imageSize <= SLOT_SIZE
  }

  /** Handlers that leave the flash alone: what becomes of the engine. */
  lemma QuietEngine(e: Engine, mem: Bytes, request: Packet, io: Io)
    requires Formed(request) && request.length <= PAYLOAD_SIZE && |mem| == FLASH_SIZE && Bounded(e)
    requires request.command != WRITE_CHUNK && request.command != ERASE_SLOT
    requires request.command != ERASE_FULL_FLASH && request.command != SET_PENDING
    ensures var s := Dispatch(e, mem, request, io);
      && s.action == NoAction
      && (s.engine == e || Restarted(s.engine) || (e.phase == PHASE_WRITING && s.engine == e.(phase := PHASE_FINALIZED)))
  {
    hide StoredImageValid, Sha256Spec.Hash, NextSession, InfoBytes, MakeResponse, ResolveRange, Begun;
  }

  lemma QuietHolds(e: Engine, mem: Bytes, request: Packet, io: Io, after: Bytes, written: Bytes)
    requires Formed(request) && request.length <= PAYLOAD_SIZE && |mem| == FLASH_SIZE && Sound(e)
    requires Reaches(e, request) && Holds(e, mem, written)
    requires request.command != WRITE_CHUNK && request.command != ERASE_SLOT
    requires request.command != ERASE_FULL_FLASH && request.command != SET_PENDING
    requires Acts(mem, Dispatch(e, mem, request, io).action, io.ok, after)
    ensures after == mem && Dispatch(e, mem, request, io).action == NoAction
    ensures Holds(Dispatch(e, mem, request, io).engine, after, written)
  {
    hide Dispatch, Reaches, Sound, Bounded, Holds, Acts, Restarted;
    SoundIsBounded(e);
    QuietEngine(e, mem, request, io);
    NothingDone(mem, io.ok, after);
    QuietEngineHolds(e, Dispatch(e, mem, request, io).engine, mem, written);
  }

  lemma QuietEngineHolds(e: Engine, next: Engine, mem: Bytes, written: Bytes)
    requires |mem| == FLASH_SIZE && Holds(e, mem, written)
    requires next == e || Restarted(next) || (e.phase == PHASE_WRITING && next == e.(phase := PHASE_FINALIZED))
    ensures Holds(next, mem, written)
  {
    hide Erased, EraseLength;
    EmptyPrefix(mem);
    if Restarted(next) && !next.fullSession { EraseFits(next.imageSize, next.target); }
  }

  lemma EmptyPrefix(mem: Bytes)
    ensures Erased(mem[..0])
  {}

  lemma DispatchHolds(e: Engine, mem: Bytes, request: Packet, io: Io, after: Bytes, written: Bytes)
    requires Formed(request) && request.length <= PAYLOAD_SIZE && |mem| == FLASH_SIZE && Sound(e)
    requires Reaches(e, request) && Holds(e, mem, written)
    requires var s := Dispatch(e, mem, request, io);
      Acts(mem, s.action, io.ok, after) && Worked(s, io)
    ensures |after| == FLASH_SIZE
    ensures var s := Dispatch(e, mem, request, io);
      Holds(s.engine, after, Written(e, s, request, written))
  {
    hide Dispatch, HandleEraseSlot, HandleWrite, HandleSetPending, HandleEraseFullFlash,
         Holds, Sound, Bounded, Acts, Reaches, Worked;
    SoundIsBounded(e);
    ActsKeepSize(mem, Dispatch(e, mem, request, io).action, io.ok, after);
    DispatchTo(e, mem, request, io);
    if request.command == WRITE_CHUNK {
      WriteHolds(e, mem, request, io, after, written);
    } else if request.command == ERASE_SLOT {
      EraseSlotHolds(e, mem, request, io, after, written);
    } else if request.command == ERASE_FULL_FLASH {
      EraseFullHolds(e, mem, request, io, after, written);
    } else if request.command == SET_PENDING {
      SetPendingHolds(e, mem, request, io, after, written);
      SetPendingStores(e, request, io);
    } else {
      QuietHolds(e, mem, request, io, after, written);
    }
  }

  lemma DispatchTo(e: Engine, mem: Bytes, request: Packet, io: Io)
    requires Formed(request) && request.length <= PAYLOAD_SIZE && |mem| == FLASH_SIZE && Bounded(e)
    ensures var s := Dispatch(e, mem, request, io);
      && (request.command == BEGIN_IMAGE ==> s == HandleBegin(e, request))
      && (request.command == WRITE_CHUNK ==> s == HandleWrite(e, request, io))
      && (request.command == ERASE_SLOT ==> s == HandleEraseSlot(e, request, io))
      && (request.command == ERASE_FULL_FLASH ==> s == HandleEraseFullFlash(e, request, io))
      && (request.command == SET_PENDING ==> s == HandleSetPending(e, request, io))
  {
    hide HandleGetInfo, HandleBegin, HandleEraseSlot, HandleWrite, HandleRead, HandleFinalize, HandleSetPending,
         HandleGetLog, HandleReadKnobs, HandleBeginFullFlash, HandleEraseFullFlash, HandleFinalizeFullFlash;
  }

  lemma SetPendingStores(e: Engine, request: Packet, io: Io)
    ensures var action := HandleSetPending(e, request, io).action;
      action == NoAction || action.StoreState?
  {}

  /** Content: while the backend works, the flash below the write offset is what
      was accepted, in order, and the rest of the erased span is still erased. */
  lemma ContentIsKept(e: Engine, mem: Bytes, request: Packet, io: Io, after: Bytes, written: Bytes)
    requires Formed(request) && |mem| == FLASH_SIZE && Sound(e) && Holds(e, mem, written)
    requires var s := Process(e, mem, request, io);
      Acts(mem, s.action, io.ok, after) && Worked(s, io)
    ensures |after| == FLASH_SIZE
    ensures var s := Process(e, mem, request, io);
      Holds(s.engine, after, if Reaches(e, request) then Written(e, s, request, written) else written)
  {
    hide Dispatch, ValidateCommon, Protocol.Finalize, MakeResponse, Acts, Admit, Sound, Holds;
    SoundIsBounded(e);
    ActsKeepSize(mem, Process(e, mem, request, io).action, io.ok, after);
    if Reaches(e, request) {
      LengthFits(request);
      HandlersFormResponses(e, mem, request, io);
      var s := Dispatch(e, mem, request, io);
      DispatchHolds(e, mem, request, io, after, written);
      CommitHolds(s, request, after, Written(e, s, request, written));
    } else {
      NothingDone(mem, io.ok, after);
    }
  }

  lemma CommitHolds(s: Step, request: Packet, mem: Bytes, written: Bytes)
    requires Formed(s.response) && |mem| == FLASH_SIZE && Holds(s.engine, mem, written)
    ensures Holds(Commit(s, request).engine, mem, written)
    ensures Commit(s, request).status == s.status && Commit(s, request).action == s.action
  {
    hide Protocol.Finalize;
  }

  // ---- The retry cache ----

  /** The reply a GET_INFO would get if it were computed now. */
  function FreshInfo(e: Engine, request: Packet): Packet {
    Protocol.Finalize(HandleGetInfo(e, request).response.(status := OK))
  }

  /** A cached GET_INFO reply is never out of date, and every cached reply is a
      success. */
  ghost predicate CacheCurrent(e: Engine) {
    e.previous.Some? ==>
      var x := e.previous.value;
      && x.response.status == OK && Formed(x.response)
      && (x.request.command == GET_INFO ==> x.response == FreshInfo(e, x.request))
  }

  /** What GET_INFO reports only changes when the cache entry does. */
  lemma InfoDependsOn(e: Engine, e': Engine, request: Packet)
    requires e'.bootState == e.bootState && e'.phase == e.phase && e'.fullEnabled == e.fullEnabled && e'.hasKnobs == e.hasKnobs
    ensures FreshInfo(e', request) == FreshInfo(e, request)
  {
    assert InfoBytes(e') == InfoBytes(e);
  }

  lemma DispatchKeepsCache(e: Engine, mem: Bytes, request: Packet, io: Io)
    requires Formed(request) && request.length <= PAYLOAD_SIZE && |mem| == FLASH_SIZE && Bounded(e)
    requires Dispatch(e, mem, request, io).status == OK
    ensures var s := Dispatch(e, mem, request, io);
      && (!Cacheable(request.command) ==> s.engine == e)
      && (request.command == GET_INFO ==> s == HandleGetInfo(e, request))
  {
    hide StoredImageValid, Sha256Spec.Hash, NextSession, InfoBytes, MakeResponse, ResolveRange, Begun;
  }

  lemma CacheStaysCurrent(e: Engine, mem: Bytes, request: Packet, io: Io)
    requires Formed(request) && |mem| == FLASH_SIZE && Bounded(e) && CacheCurrent(e)
    ensures CacheCurrent(Process(e, mem, request, io).engine)
  {
    hide Dispatch, ValidateCommon, MakeResponse, Admit, InfoBytes, Protocol.Finalize;
    if Process(e, mem, request, io).status != OK {
      RejectedChangesNothing(e, mem, request, io);
    } else if Reaches(e, request) {
      LengthFits(request);
      HandlersFormResponses(e, mem, request, io);
      DispatchKeepsCache(e, mem, request, io);
      var s := Dispatch(e, mem, request, io);
      var e' := Commit(s, request).engine;
      if Cacheable(request.command) {
        assert e'.previous.value == Exchange(request, Protocol.Finalize(s.response.(status := OK)));
        FinalizeKeepsStatus(s.response.(status := OK));
        if request.command == GET_INFO {
          InfoDependsOn(e, e', request);
        }
      }
    }
  }

  lemma FinalizeKeepsStatus(p: Packet)
    requires Formed(p)
    ensures Protocol.Finalize(p).status == p.status && Formed(Protocol.Finalize(p))
  {}

  /** An exact repeat of the last accepted packet is answered with the same reply
      and does nothing more. */
  lemma RetryIsIdempotent(e: Engine, mem: Bytes, request: Packet, io: Io, later: Bytes, io': Io)
    requires Formed(request) && |mem| == |later| == FLASH_SIZE && Sound(e)
    requires Cacheable(request.command) && Process(e, mem, request, io).status == OK
    requires CacheCurrent(e)
    ensures var s := Process(e, mem, request, io);
      && Sound(s.engine)
      && Process(s.engine, later, request, io') == Step(OK, s.engine, s.response, NoAction)
  {
    hide Dispatch, ValidateCommon, MakeResponse, Admit, Sound, FreshInfo, Protocol.Finalize;
    SoundIsBounded(e);
    ProcessIsSound(e, mem, request, io);
    SoundIsBounded(Process(e, mem, request, io).engine);
    if Reaches(e, request) {
      LengthFits(request);
      HandlersFormResponses(e, mem, request, io);
      FinalizeKeepsStatus(Dispatch(e, mem, request, io).response.(status := OK));
    }
  }

  // ---- Whole-flash sessions ----

  /** A whole-flash session erases the chip front to back, writes nothing before
      the last erase, writes in order, finalizes only the digest bound at its
      beginning and lets nothing else touch the flash. */
  lemma FullFlashOrder(e: Engine, mem: Bytes, request: Packet, io: Io)
    requires Formed(request) && |mem| == FLASH_SIZE && Sound(e) && e.fullSession && Reaches(e, request)
    ensures var s := Process(e, mem, request, io);
      match s.action
      case NoAction =>
        && (s.status == OK && s.engine.fullSession && s.engine.phase == PHASE_FINALIZED && e.phase != PHASE_FINALIZED ==>
              Sha256Spec.Hash(mem) == e.imageSha && e.nextWrite == FLASH_SIZE)
        && (s.status == OK && request.command == REBOOT ==> e.phase == PHASE_FINALIZED)
      case EraseFlash(at, n) =>
        && e.phase == PHASE_BEGUN && at == e.fullErase && 0 < n <= FULL_ERASE_CHUNK && at + n <= FLASH_SIZE
        && (s.status == OK ==> s.engine.fullErase == at + n && s.engine.fullSession)
        && (s.status == OK ==> (s.engine.phase == PHASE_ERASED <==> at + n == FLASH_SIZE))
      case ProgramFlash(at, data) =>
        e.fullErase == FLASH_SIZE && at == e.nextWrite && at + |data| <= FLASH_SIZE
      case StoreState(state) => false
  {
    LengthFits(request);
    HandlersFormResponses(e, mem, request, io);
    hide StoredImageValid, Sha256Spec.Hash, NextSession, InfoBytes, MakeResponse, ValidateCommon, Cached, Protocol.Finalize;
    FullDispatchOrder(e, mem, request, io);
    hide Dispatch;
  }

  lemma FullDispatchOrder(e: Engine, mem: Bytes, request: Packet, io: Io)
    requires Formed(request) && request.length <= PAYLOAD_SIZE && |mem| == FLASH_SIZE && Sound(e)
    requires e.fullSession && Reaches(e, request)
    ensures var s := Dispatch(e, mem, request, io);
      match s.action
      case NoAction =>
        && (s.status == OK && s.engine.fullSession && s.engine.phase == PHASE_FINALIZED && e.phase != PHASE_FINALIZED ==>
              Sha256Spec.Hash(mem) == e.imageSha && e.nextWrite == FLASH_SIZE)
        && (s.status == OK && request.command == REBOOT ==> e.phase == PHASE_FINALIZED)
      case EraseFlash(at, n) =>
        && e.phase == PHASE_BEGUN && at == e.fullErase && 0 < n <= FULL_ERASE_CHUNK && at + n <= FLASH_SIZE
        && (s.status == OK ==> s.engine.fullErase == at + n && s.engine.fullSession)
        && (s.status == OK ==> (s.engine.phase == PHASE_ERASED <==> at + n == FLASH_SIZE))
      case ProgramFlash(at, data) =>
        e.fullErase == FLASH_SIZE && at == e.nextWrite && at + |data| <= FLASH_SIZE
      case StoreState(state) => false
  {
    hide StoredImageValid, Sha256Spec.Hash, NextSession, InfoBytes, MakeResponse, Validate, Cached, ResolveRange;
    if UsesSession(request.command) { SessionsStaySeparate(e, request); }
  }

  // ---- Runs of packets ----

  datatype Snap = Snap(engine: Engine, mem: Bytes)

  datatype Input = Input(request: Packet, io: Io)

  ghost predicate EngineStep(a: Snap, i: Input, b: Snap) {
    && |a.mem| == |b.mem| == FLASH_SIZE && Formed(i.request) && Bounded(a.engine)
    && var s := Process(a.engine, a.mem, i.request, i.io);
    && b.engine == s.engine
    && Acts(a.mem, s.action, i.io.ok, b.mem)
  }

  /** Any packets at all, well formed or hostile, with any backend faults. */
  ghost predicate EngineRun(run: seq<Snap>, inputs: seq<Input>) {
    && |run| == |inputs| + 1
    && forall k :: 0 <= k < |inputs| ==> EngineStep(run[k], inputs[k], run[k + 1])
  }

  ghost predicate Trusted(s: Snap) {
    |s.mem| == FLASH_SIZE && Sound(s.engine) && Vouched(s.engine, s.mem) && CacheCurrent(s.engine)
  }

  lemma {:induction false} EveryRunIsTrusted(run: seq<Snap>, inputs: seq<Input>)
    requires EngineRun(run, inputs) && Trusted(run[0])
    ensures forall k :: 0 <= k < |run| ==> Trusted(run[k])
  {
    hide Trusted, EngineStep;
    var n := |inputs|;
    if n > 0 {
      assert EngineRun(run[..n], inputs[..n - 1]);
      EveryRunIsTrusted(run[..n], inputs[..n - 1]);
      assert Trusted(run[..n][n - 1]);
      TrustedStep(run[n - 1], inputs[n - 1], run[n]);
      forall k | 0 <= k < |run| ensures Trusted(run[k]) {
        if k < n { assert Trusted(run[..n][k]); }
      }
    }
  }

  lemma TrustedStep(a: Snap, i: Input, b: Snap)
    requires EngineStep(a, i, b) && Trusted(a)
    ensures Trusted(b)
  {
    hide Process, Sound, Vouched, CacheCurrent, Acts;
    ProcessIsSound(a.engine, a.mem, i.request, i.io);
    VouchedIsKept(a.engine, a.mem, i.request, i.io, b.mem);
    CacheStaysCurrent(a.engine, a.mem, i.request, i.io);
  }

  /** The bytes accepted by the end of a run. */
  ghost function WrittenBy(run: seq<Snap>, inputs: seq<Input>): Bytes
    requires EngineRun(run, inputs)
    decreases |inputs|
  {
    var n := |inputs|;
    if n == 0 then [] else
      assert EngineRun(run[..n], inputs[..n - 1]);
      assert EngineStep(run[n - 1], inputs[n - 1], run[n]);
      var a, i := run[n - 1], inputs[n - 1];
      var before := WrittenBy(run[..n], inputs[..n - 1]);
      if Reaches(a.engine, i.request)
      then Written(a.engine, Process(a.engine, a.mem, i.request, i.io), i.request, before)
      else before
  }

  ghost predicate BackendWorked(run: seq<Snap>, inputs: seq<Input>)
    requires EngineRun(run, inputs)
  {
    forall k :: 0 <= k < |inputs| ==> StepWorked(run[k], inputs[k], run[k + 1])
  }

  ghost predicate StepWorked(a: Snap, i: Input, b: Snap) {
    EngineStep(a, i, b) && Worked(Process(a.engine, a.mem, i.request, i.io), i.io)
  }

  /** Over any run whose backend works, the flash holds what was accepted. */
  lemma {:induction false} EveryRunHoldsItsContent(run: seq<Snap>, inputs: seq<Input>)
    requires EngineRun(run, inputs) && BackendWorked(run, inputs)
    requires Trusted(run[0]) && Holds(run[0].engine, run[0].mem, [])
    ensures Trusted(run[|inputs|])
    ensures Holds(run[|inputs|].engine, run[|inputs|].mem, WrittenBy(run, inputs))
  {
    hide Trusted, Holds, Process, Acts;
    EveryRunIsTrusted(run, inputs);
    var n := |inputs|;
    if n > 0 {
      var before, earlier := run[..n], inputs[..n - 1];
      assert EngineRun(before, earlier);
      forall k | 0 <= k < n - 1 ensures StepWorked(before[k], earlier[k], before[k + 1]) {
        assert StepWorked(run[k], inputs[k], run[k + 1]);
      }
      EveryRunHoldsItsContent(before, earlier);
      assert StepWorked(run[n - 1], inputs[n - 1], run[n]);
      TrustedIsSound(run[n - 1]);
      ContentIsKept(run[n - 1].engine, run[n - 1].mem, inputs[n - 1].request, inputs[n - 1].io, run[n].mem,
                    WrittenBy(before, earlier));
    }
  }

  lemma TrustedIsSound(s: Snap)
    requires Trusted(s)
    ensures |s.mem| == FLASH_SIZE && Sound(s.engine) && Vouched(s.engine, s.mem) && CacheCurrent(s.engine)
  {}

  /** The chip ranges erased one after the other from `from` to `to`. */
  ghost predicate Tiles(ranges: seq<Action>, from: nat, to: nat) {
    if ranges == [] then from == to
    else
      var last := ranges[|ranges| - 1];
      last.EraseFlash? && last.at + last.length == to && Tiles(ranges[..|ranges| - 1], from, last.at)
  }

  /** The erases accepted in a run. */
  ghost function ErasesOf(run: seq<Snap>, inputs: seq<Input>): seq<Action>
    requires EngineRun(run, inputs)
    decreases |inputs|
  {
    var n := |inputs|;
    if n == 0 then [] else
      assert EngineRun(run[..n], inputs[..n - 1]);
      assert EngineStep(run[n - 1], inputs[n - 1], run[n]);
      var a, i := run[n - 1], inputs[n - 1];
      var s := Process(a.engine, a.mem, i.request, i.io);
      ErasesOf(run[..n], inputs[..n - 1]) + if s.status == OK && s.action.EraseFlash? then [s.action] else []
  }

  /** Within one whole-flash session the accepted erases tile the chip in order,
      with no gap and no overlap. */
  lemma {:induction false} FullFlashErasesTile(run: seq<Snap>, inputs: seq<Input>)
    requires EngineRun(run, inputs) && Trusted(run[0])
    requires forall k :: 0 <= k < |run| ==> run[k].engine.fullSession && run[k].engine.session == run[0].engine.session
    requires forall k :: 0 <= k < |inputs| ==> inputs[k].request.command != BEGIN_FULL_FLASH
    ensures Tiles(ErasesOf(run, inputs), run[0].engine.fullErase, run[|inputs|].engine.fullErase)
  {
    hide Trusted, Process, Acts;
    EveryRunIsTrusted(run, inputs);
    var n := |inputs|;
    if n > 0 {
      var before, earlier := run[..n], inputs[..n - 1];
      assert EngineRun(before, earlier);
      FullFlashErasesTile(before, earlier);
      assert EngineStep(run[n - 1], inputs[n - 1], run[n]);
      TrustedIsSound(run[n - 1]);
      FullEraseStep(run[n - 1], inputs[n - 1], run[n]);
      var a, i := run[n - 1], inputs[n - 1];
      var s := Process(a.engine, a.mem, i.request, i.io);
      var ranges := ErasesOf(before, earlier);
      if s.status == OK && s.action.EraseFlash? {
        assert (ranges + [s.action])[..|ranges|] == ranges;
      } else {
        assert ranges + [] == ranges;
      }
    }
  }

  lemma FullEraseStep(a: Snap, i: Input, b: Snap)
    requires EngineStep(a, i, b) && Sound(a.engine) && a.engine.fullSession && b.engine.fullSession
    requires i.request.command != BEGIN_FULL_FLASH
    ensures var s := Process(a.engine, a.mem, i.request, i.io);
      if s.status == OK && s.action.EraseFlash?
      then s.action.at == a.engine.fullErase && s.action.at + s.action.length == b.engine.fullErase
      else b.engine.fullErase == a.engine.fullErase
  {
    var e, mem, request, io := a.engine, a.mem, i.request, i.io;
    hide Process, Acts, Sound, Bounded, Reaches;
    if Process(e, mem, request, io).status != OK {
      RejectedChangesNothing(e, mem, request, io);
    } else if Reaches(e, request) {
      FullFlashOrder(e, mem, request, io);
      ReachedFullErase(e, mem, request, io);
    } else {
      UnreachedFullErase(e, mem, request, io);
    }
  }

  lemma ReachedFullErase(e: Engine, mem: Bytes, request: Packet, io: Io)
    requires Formed(request) && |mem| == FLASH_SIZE && Sound(e) && Reaches(e, request) && request.command != BEGIN_FULL_FLASH
    ensures Bounded(e)
    ensures var s := Process(e, mem, request, io);
      !s.action.EraseFlash? ==> s.engine.fullErase == e.fullErase
  {
    SoundIsBounded(e);
    LengthFits(request);
    hide Dispatch, ValidateCommon, Protocol.Finalize, Admit, Cached, Sound, Bounded;
    HandlersFormResponses(e, mem, request, io);
    FullEraseKept(e, mem, request, io);
  }

  lemma UnreachedFullErase(e: Engine, mem: Bytes, request: Packet, io: Io)
    requires Formed(request) && |mem| == FLASH_SIZE && Bounded(e) && !Reaches(e, request)
    ensures var s := Process(e, mem, request, io);
      s.action == NoAction && s.engine == e
  {
    hide ValidateCommon, Protocol.Finalize, Admit, Cached;
  }

  lemma FullEraseKept(e: Engine, mem: Bytes, request: Packet, io: Io)
    requires Formed(request) && request.length <= PAYLOAD_SIZE && |mem| == FLASH_SIZE && Sound(e)
    requires request.command != BEGIN_FULL_FLASH
    ensures var s := Dispatch(e, mem, request, io);
      !s.action.EraseFlash? ==> s.engine.fullErase == e.fullErase
  {
    hide StoredImageValid, Sha256Spec.Hash, NextSession, InfoBytes, MakeResponse, ResolveRange, Begun;
  }
}
