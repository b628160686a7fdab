/** The flash behind a lossy link: what each client command leaves there once one
    of its copies is answered, however many copies failed or tore on the way. */
module Transfer {
  import opened Words
  import opened BootState
  import opened Nor
  import opened Protocol
  import opened Image
  import opened EngineSpec
  import opened RecoveryEngine
  import opened EngineProofs
  import opened JournalProofs
  import opened BootMachine
  import opened BootProofs
  import opened BootFaults
  import opened Retry
  import Sha256Spec
  import Journal

  /** The part of an engine a session command other than BEGIN never changes. */
  predicate SameSession(a: Engine, b: Engine) {
    && b.session == a.session && b.target == a.target && b.imageSize == a.imageSize && b.fullSession == a.fullSession
  }

  /** One session command and the phase it leads to. */
  predicate Advanced(a: Engine, b: Engine, phase: uint8, nextWrite: int) {
    SameSession(a, b) && b.phase == phase && b.nextWrite == nextWrite
  }

  // ---- Writing ----

  /** The next piece may be partly there, torn by attempts that failed. */
  ghost predicate Torn(e: Engine, mem: Bytes, written: Bytes, piece: Bytes) {
    var at := Base(e) + e.nextWrite;
    && |mem| == FLASH_SIZE && Base(e) + Span(e) <= FLASH_SIZE
    && |written| == e.nextWrite && e.nextWrite + |piece| <= Span(e)
    && mem[Base(e)..at] == written
    && (forall i :: 0 <= i < |piece| ==> mem[at + i] & piece[i] == piece[i])
    && Erased(mem[at + |piece|..Base(e) + Span(e)])
  }

  lemma HoldsIsTorn(e: Engine, mem: Bytes, written: Bytes, piece: Bytes)
    requires |mem| == FLASH_SIZE && e.phase >= PHASE_ERASED && Holds(e, mem, written) && e.nextWrite + |piece| <= Span(e)
    ensures Torn(e, mem, written, piece)
  {
    var at, end := Base(e) + e.nextWrite, Base(e) + Span(e);
    ErasedPiece(mem, at, end, at + |piece|, end);
    forall i | 0 <= i < |piece| ensures mem[at + i] & piece[i] == piece[i] {
      assert mem[at + i] == mem[at..end][i];
      Journal.AllOnes(piece[i]);
    }
  }

  lemma StillCovers(before: byte, after: byte, data: byte)
    requires before & data == data && Between(before, after, data)
    ensures after & data == data
  {}

  /** Another failed attempt leaves the piece torn. */
  lemma TornAgain(e: Engine, mem: Bytes, after: Bytes, written: Bytes, piece: Bytes)
    requires Torn(e, mem, written, piece) && ProgramEffect(mem, after, Base(e) + e.nextWrite, piece, false)
    ensures Torn(e, after, written, piece)
  {
    hide Decode, Between;
    var base, at, end := Base(e), Base(e) + e.nextWrite, Base(e) + Span(e);
    SameSlice(mem, after, base, at);
    SameSlice(mem, after, at + |piece|, end);
    forall i | 0 <= i < |piece| ensures after[at + i] & piece[i] == piece[i] {
      StillCovers(mem[at + i], after[at + i], piece[i]);
    }
  }

  /** An attempt that works completes it, whatever was there. */
  lemma TornCompleted(e: Engine, mem: Bytes, after: Bytes, written: Bytes, piece: Bytes)
    requires Torn(e, mem, written, piece) && ProgramEffect(mem, after, Base(e) + e.nextWrite, piece, true)
    ensures |after| == FLASH_SIZE
    ensures after[Base(e)..Base(e) + e.nextWrite + |piece|] == written + piece
    ensures Erased(after[Base(e) + e.nextWrite + |piece|..Base(e) + Span(e)])
  {
    hide Decode, Between;
    var base, at, end := Base(e), Base(e) + e.nextWrite, Base(e) + e.nextWrite + |piece|;
    SameSlice(mem, after, base, at);
    assert after[at..end] == piece;
    Join(after, base, at, end);
    SameSlice(mem, after, end, base + Span(e));
  }

  /** The two ways a write attempt that reaches its handler can end. */
  lemma WriteOutcome(a: Snap, i: Input, b: Snap)
    requires EngineStep(a, i, b) && Sane(a) && Reaches(a.engine, i.request) && i.request.command == WRITE_CHUNK
    ensures var e := a.engine; var piece := Piece(i.request);
      && (!Executes(a, i) ==>
            b.mem == a.mem
            || (e.phase >= PHASE_ERASED && e.nextWrite + |piece| <= e.imageSize
                && Base(e) + e.nextWrite + |piece| <= FLASH_SIZE
                && ProgramEffect(a.mem, b.mem, Base(e) + e.nextWrite, piece, false)))
      && (Executes(a, i) ==>
            && e.phase >= PHASE_ERASED && e.nextWrite + |piece| <= e.imageSize
            && Advanced(e, b.engine, PHASE_WRITING, e.nextWrite + |piece|)
            && Base(e) + e.nextWrite + |piece| <= FLASH_SIZE
            && ProgramEffect(a.mem, b.mem, Base(e) + e.nextWrite, piece, true))
  {
    var e, request := a.engine, i.request;
    hide Dispatch, ValidateCommon, Protocol.Finalize, MakeResponse, CacheBehind, Vouched, CacheCurrent, ProgramEffect, Admit, Cached;
    SessionsStaySeparate(e, request);
    LengthFits(request);
    HandlersFormResponses(e, a.mem, request, i.io);
    DispatchTo(e, a.mem, request, i.io);
  }

  /** The bytes a WRITE_CHUNK carries. */
  function Piece(request: Packet): Bytes
    requires Formed(request)
  {
    if request.length <= PAYLOAD_SIZE then request.payload[..request.length] else []
  }

  /** Copies of a write on their way: not yet accepted, or accepted and whole. */
  ghost predicate Writing(s: Snap, e: Engine, request: Packet, written: Bytes) {
    && Sane(s) && |s.mem| == FLASH_SIZE && Formed(request)
    && var piece := Piece(request);
       if Cached(s.engine, request) then
         Advanced(e, s.engine, PHASE_WRITING, e.nextWrite + |piece|) && Holds(s.engine, s.mem, written + piece)
       else s.engine == e && (e.nextWrite + |piece| <= e.imageSize ==> Torn(e, s.mem, written, piece))
  }

  lemma SpanCovers(s: Snap)
    requires Sane(s) && s.engine.phase != PHASE_IDLE
    ensures s.engine.imageSize <= Span(s.engine) && Base(s.engine) + Span(s.engine) <= FLASH_SIZE
  {
    var e := s.engine;
    if InSlot(e) { EraseFits(e.imageSize, e.target); }
  }

  /** A later engine of the same session writes to the same place. */
  lemma SamePlace(a: Engine, b: Engine)
    requires SameSession(a, b) && a.phase != PHASE_IDLE && b.phase != PHASE_IDLE
    ensures Base(b) == Base(a) && Span(b) == Span(a)
  {}

  lemma WritingStep(a: Snap, i: Input, b: Snap, e: Engine, written: Bytes)
    requires EngineStep(a, i, b) && i.request.command == WRITE_CHUNK && Writing(a, e, i.request, written)
    requires e.phase >= PHASE_ERASED
    ensures Writing(b, e, i.request, written)
  {
    hide EngineStep, Executes, Sane, Torn, Holds, Cached, Reaches, ProgramEffect;
    StepIsFormed(a, i, b);
    CopyStep(a, i, b);
    SaneStep(a, i, b);
    var piece := Piece(i.request);
    if !Reaches(a.engine, i.request) {
      UnreachedStep(a, i, b);
    } else {
      ReachedIsNotCached(a.engine, i.request);
      WriteOutcome(a, i, b);
      if Executes(a, i) {
        TornCompleted(e, a.mem, b.mem, written, piece);
        SamePlace(e, b.engine);
        SpanCovers(a);
        TornIsHeld(e, b.engine, b.mem, written, piece);
      } else if b.mem != a.mem {
        TornAgain(e, a.mem, b.mem, written, piece);
      }
    }
  }

  lemma ReachedIsNotCached(e: Engine, request: Packet)
    requires Formed(request) && Reaches(e, request)
    ensures !Cached(e, request)
  {}

  lemma TornIsHeld(e: Engine, after: Engine, mem: Bytes, written: Bytes, piece: Bytes)
    requires |mem| == FLASH_SIZE && Advanced(e, after, PHASE_WRITING, e.nextWrite + |piece|) && |written| == e.nextWrite
    requires Base(after) == Base(e) && Span(after) == Span(e) && Base(e) + Span(e) <= FLASH_SIZE
    requires e.nextWrite + |piece| <= e.imageSize <= Span(e)
    requires mem[Base(e)..Base(e) + e.nextWrite + |piece|] == written + piece
    requires Erased(mem[Base(e) + e.nextWrite + |piece|..Base(e) + Span(e)])
    ensures Holds(after, mem, written + piece)
  {
    hide Erased;
  }

  /** A write once answered is there whole, after everything written before it. */
  lemma WriteArrives(run: seq<Snap>, inputs: seq<Input>, request: Packet, written: Bytes)
    requires EngineRun(run, inputs) && Sane(run[0]) && Repeats(inputs, request) && Formed(request)
    requires request.command == WRITE_CHUNK && !Cached(run[0].engine, request)
    requires run[0].engine.phase >= PHASE_ERASED && |run[0].mem| == FLASH_SIZE && Holds(run[0].engine, run[0].mem, written)
    requires |inputs| > 0 && Answers(run[|inputs| - 1], inputs[|inputs| - 1])
    ensures var end := run[|inputs|]; var piece := Piece(request);
      && Sane(end) && |end.mem| == FLASH_SIZE
      && Advanced(run[0].engine, end.engine, PHASE_WRITING, run[0].engine.nextWrite + |piece|)
      && Holds(end.engine, end.mem, written + piece)
  {
    hide EngineStep, Sane, Answers, Holds, Torn, Advanced;
    var e := run[0].engine;
    var keeps := s => Writing(s, e, request, written);
    SpanCovers(run[0]);
    assert Writing(run[0], e, request, written) by {
      if e.nextWrite + |Piece(request)| <= e.imageSize { HoldsIsTorn(e, run[0].mem, written, Piece(request)); }
    }
    forall a, i, b | keeps(a) && EngineStep(a, i, b) && i.request == request ensures keeps(b) {
      WritingStep(a, i, b, e, written);
    }
    CopiesKeep(run, inputs, request, keeps);
    CopiesExecuteOnce(run, inputs, request);
  }

  // ---- Erasing, finalizing, making pending ----

  lemma EraseOutcome(a: Snap, i: Input, b: Snap)
    requires EngineStep(a, i, b) && Sane(a) && Executes(a, i) && i.request.command == ERASE_SLOT
    ensures Advanced(a.engine, b.engine, PHASE_ERASED, 0) && |b.mem| == FLASH_SIZE
    ensures Base(b.engine) + Span(b.engine) <= FLASH_SIZE
    ensures Erased(b.mem[Base(b.engine)..Base(b.engine) + Span(b.engine)])
  {
    var e, request := a.engine, i.request;
    hide Dispatch, ValidateCommon, Protocol.Finalize, MakeResponse, CacheBehind, Vouched, CacheCurrent, EraseEffect, Admit, Cached,
         EraseLength, Erased;
    SessionsStaySeparate(e, request);
    LengthFits(request);
    HandlersFormResponses(e, a.mem, request, i.io);
    DispatchTo(e, a.mem, request, i.io);
    EraseFits(e.imageSize, e.target);
    EraseHolds(a.mem, b.mem, SlotOffset(e.target), EraseLength(e.imageSize));
  }

  ghost predicate Erasing(s: Snap, e: Engine, request: Packet) {
    && Sane(s) && |s.mem| == FLASH_SIZE && Formed(request)
    && if Cached(s.engine, request) then Advanced(e, s.engine, PHASE_ERASED, 0) && Holds(s.engine, s.mem, [])
       else s.engine == e
  }

  lemma ErasingStep(a: Snap, i: Input, b: Snap, e: Engine)
    requires EngineStep(a, i, b) && i.request.command == ERASE_SLOT && Erasing(a, e, i.request)
    ensures Erasing(b, e, i.request)
  {
    hide EngineStep, Executes, Sane, Cached, Reaches, Erased, EraseLength;
    StepIsFormed(a, i, b);
    CopyStep(a, i, b);
    SaneStep(a, i, b);
    if !Reaches(a.engine, i.request) {
      UnreachedStep(a, i, b);
    } else {
      ReachedIsNotCached(a.engine, i.request);
      if Executes(a, i) { EraseOutcome(a, i, b); }
    }
  }

  /** An erase once answered leaves the whole declared range erased. */
  lemma EraseArrives(run: seq<Snap>, inputs: seq<Input>, request: Packet)
    requires EngineRun(run, inputs) && Sane(run[0]) && Repeats(inputs, request) && Formed(request)
    requires request.command == ERASE_SLOT && !Cached(run[0].engine, request)
    requires |inputs| > 0 && Answers(run[|inputs| - 1], inputs[|inputs| - 1])
    ensures var end := run[|inputs|];
      && Sane(end) && |end.mem| == FLASH_SIZE
      && Advanced(run[0].engine, end.engine, PHASE_ERASED, 0) && Holds(end.engine, end.mem, [])
  {
    hide EngineStep, Sane, Answers, Holds, Advanced, Cached;
    var e := run[0].engine;
    var keeps := s => Erasing(s, e, request);
    assert Erasing(run[0], e, request) by { SaneHasSize(run[0]); }
    forall a, i, b | keeps(a) && EngineStep(a, i, b) && i.request == request ensures keeps(b) {
      ErasingStep(a, i, b, e);
    }
    CopiesKeep(run, inputs, request, keeps);
    CopiesExecuteOnce(run, inputs, request);
  }

  lemma SaneHasSize(s: Snap)
    requires Sane(s)
    ensures |s.mem| == FLASH_SIZE && Sound(s.engine) && Bounded(s.engine)
  {}

  lemma FinalizeOutcome(a: Snap, i: Input, b: Snap)
    requires EngineStep(a, i, b) && Sane(a) && Reaches(a.engine, i.request) && i.request.command == FINALIZE_IMAGE
    ensures b.mem == a.mem
    ensures Executes(a, i) ==> Advanced(a.engine, b.engine, PHASE_FINALIZED, a.engine.nextWrite) && a.engine.nextWrite == a.engine.imageSize
  {
    var e, request := a.engine, i.request;
    hide Dispatch, ValidateCommon, Protocol.Finalize, MakeResponse, CacheBehind, Vouched, CacheCurrent, Admit, Cached, StoredImageValid;
    SessionsStaySeparate(e, request);
    LengthFits(request);
    HandlersFormResponses(e, a.mem, request, i.io);
    FinalizeDispatch(e, a.mem, request, i.io);
  }

  lemma FinalizeDispatch(e: Engine, mem: Bytes, request: Packet, io: Io)
    requires Formed(request) && request.length <= PAYLOAD_SIZE && |mem| == FLASH_SIZE && Bounded(e)
    requires request.command == FINALIZE_IMAGE
    ensures Dispatch(e, mem, request, io) == HandleFinalize(e, mem, request, io)
  {
    hide HandleFinalize;
  }

  ghost predicate Finalizing(s: Snap, e: Engine, mem: Bytes, request: Packet) {
    && Sane(s) && |s.mem| == FLASH_SIZE && Formed(request) && s.mem == mem
    && if Cached(s.engine, request) then Advanced(e, s.engine, PHASE_FINALIZED, e.nextWrite) && e.nextWrite == e.imageSize
       else s.engine == e
  }

  lemma FinalizingStep(a: Snap, i: Input, b: Snap, e: Engine, mem: Bytes)
    requires EngineStep(a, i, b) && i.request.command == FINALIZE_IMAGE && Finalizing(a, e, mem, i.request)
    ensures Finalizing(b, e, mem, i.request)
  {
    hide EngineStep, Executes, Sane, Cached, Reaches;
    StepIsFormed(a, i, b);
    CopyStep(a, i, b);
    SaneStep(a, i, b);
    if !Reaches(a.engine, i.request) {
      UnreachedStep(a, i, b);
    } else {
      ReachedIsNotCached(a.engine, i.request);
      FinalizeOutcome(a, i, b);
    }
  }

  /** A finalize once answered has changed nothing but the phase. */
  lemma FinalizeArrives(run: seq<Snap>, inputs: seq<Input>, request: Packet)
    requires EngineRun(run, inputs) && Sane(run[0]) && Repeats(inputs, request) && Formed(request)
    requires request.command == FINALIZE_IMAGE && !Cached(run[0].engine, request)
    requires |inputs| > 0 && Answers(run[|inputs| - 1], inputs[|inputs| - 1])
    ensures var end := run[|inputs|];
      && Sane(end) && end.mem == run[0].mem
      && Advanced(run[0].engine, end.engine, PHASE_FINALIZED, run[0].engine.imageSize)
      && run[0].engine.nextWrite == run[0].engine.imageSize
  {
    hide EngineStep, Sane, Answers, Advanced, Cached;
    var e, mem := run[0].engine, run[0].mem;
    var keeps := s => Finalizing(s, e, mem, request);
    assert Finalizing(run[0], e, mem, request) by { SaneHasSize(run[0]); }
    forall a, i, b | keeps(a) && EngineStep(a, i, b) && i.request == request ensures keeps(b) {
      FinalizingStep(a, i, b, e, mem);
    }
    CopiesKeep(run, inputs, request, keeps);
    CopiesExecuteOnce(run, inputs, request);
  }

  // ---- The journal through a session ----

  /** A device in slot recovery whose engine agrees with an ordered journal. */
  ghost predicate Healthy(s: Snap) {
    && Sane(s) && |s.mem| == FLASH_SIZE && !s.engine.fullEnabled
    && Intact(Cells(s.mem)) && Near(s.engine, s.mem)
  }

  /** Recovery entered with the journal's own state is such a device. */
  lemma EntryIsHealthy(e: Engine, mem: Bytes)
    requires |mem| == FLASH_SIZE && Intact(Cells(mem)) && IsEntry(e, Current(mem))
    ensures Healthy(Snap(e, mem))
  {
    hide Intact, Near, Newest;
    CurrentIsStorable(mem);
    EntryIsFresh(e);
    CurrentIsNear(e, mem);
  }

  lemma HealthyStep(a: Snap, i: Input, b: Snap)
    requires EngineStep(a, i, b) && Healthy(a) && Cacheable(i.request.command)
    ensures Healthy(b)
  {
    hide Sane, Process, Intact, Near, Acts, Sound, Bounded;
    SaneStep(a, i, b);
    SaneHasSize(a);
    ProcessBootState(a.engine, a.mem, i.request, i.io);
    ReportKeepsJournal(a.engine, a.mem, i.request, i.io, b.mem);
    ReportKeepsNear(a.engine, a.mem, i.request, i.io, b.mem);
  }

  lemma CopiesKeepHealthy(run: seq<Snap>, inputs: seq<Input>, request: Packet)
    requires EngineRun(run, inputs) && Repeats(inputs, request) && Cacheable(request.command) && Healthy(run[0])
    ensures Healthy(run[|inputs|])
  {
    hide EngineStep, Healthy;
    var keeps := s => Healthy(s);
    forall a, i, b | keeps(a) && EngineStep(a, i, b) && i.request == request ensures keeps(b) {
      HealthyStep(a, i, b);
    }
    CopiesKeep(run, inputs, request, keeps);
  }

  /** A slot offered for trial, with none used up. */
  predicate Offered(s: State, slot: uint8) {
    s.pending == slot && s.trials == 0 && s.maxTrials == DEFAULT_MAX_TRIALS
  }

  lemma BegunIsOffered(e: Engine)
    requires Sound(e) && InSlot(e)
    ensures Offered(Begun(e.bootState, e.target).(found := true), e.target)
  {}

  /** SET_PENDING touches the journal only, and once accepted the journal says so. */
  lemma PendingOutcome(a: Snap, i: Input, b: Snap)
    requires EngineStep(a, i, b) && Healthy(a) && Reaches(a.engine, i.request) && i.request.command == SET_PENDING
    ensures |a.mem| == |b.mem| == FLASH_SIZE && SlotValid(a.engine.target)
    ensures SlotBytes(b.mem, a.engine.target) == SlotBytes(a.mem, a.engine.target)
    ensures Executes(a, i) ==>
      && Advanced(a.engine, b.engine, PHASE_PENDING, a.engine.nextWrite)
      && Offered(Current(b.mem), a.engine.target) && b.engine.bootState.pending == a.engine.target
  {
    var e, request := a.engine, i.request;
    hide Dispatch, ValidateCommon, Protocol.Finalize, MakeResponse, CacheBehind, Vouched, CacheCurrent, Admit, Cached,
         Stores, Intact, Near, Newest, Process, Reaches;
    SaneHasSize(a);
    StepIsFormed(a, i, b);
    ReportKeepsJournal(e, a.mem, request, i.io, b.mem);
    SessionsStaySeparate(e, request);
    PendingProcess(e, a.mem, request, i.io);
    BegunIsOffered(e);
    hide HandleSetPending, Offered, Begun, Sound;
    PendingAction(e, request, i.io);
    if b.mem != a.mem {
      SlotKept(a.mem, b.mem, e.target, HandleSetPending(e, request, i.io).action, i.io.ok);
    }
  }

  lemma SlotKept(before: Bytes, after: Bytes, slot: uint8, action: Action, ok: bool)
    requires |before| == FLASH_SIZE && SlotValid(slot) && action.StoreState? && Acts(before, action, ok, after)
    ensures |after| == FLASH_SIZE && SlotBytes(after, slot) == SlotBytes(before, slot)
  {
    hide ImageValid, Newest;
    BootableElsewhere(before, after, METADATA_OFFSET, JOURNAL_SIZE, slot);
  }

  lemma PendingAction(e: Engine, request: Packet, io: Io)
    ensures var s := HandleSetPending(e, request, io);
      && (s.action == NoAction || s.action.StoreState?)
      && (s.status == OK ==> s.action.StoreState? && io.ok && Advanced(e, s.engine, PHASE_PENDING, e.nextWrite)
                             && s.engine.bootState == Begun(e.bootState, e.target) && s.engine.bootState.pending == e.target)
  {
    hide MakeResponse;
  }

  /** An accepted or refused SET_PENDING, up to the retry cache. */
  lemma PendingProcess(e: Engine, mem: Bytes, request: Packet, io: Io)
    requires Formed(request) && |mem| == FLASH_SIZE && Sound(e) && Reaches(e, request) && request.command == SET_PENDING
    ensures Bounded(e)
    ensures var s, h := Process(e, mem, request, io), HandleSetPending(e, request, io);
      && s.status == h.status && s.action == h.action
      && SameSession(h.engine, s.engine) && s.engine.phase == h.engine.phase && s.engine.nextWrite == h.engine.nextWrite
      && s.engine.bootState == h.engine.bootState
  {
    hide Dispatch, ValidateCommon, Protocol.Finalize, MakeResponse, HandleSetPending;
    LengthFits(request);
    HandlersFormResponses(e, mem, request, io);
    DispatchTo(e, mem, request, io);
  }

  ghost predicate Marking(s: Snap, e: Engine, slot: Bytes, request: Packet) {
    && Healthy(s) && |s.mem| == FLASH_SIZE && Formed(request) && SlotValid(e.target)
    && SlotBytes(s.mem, e.target) == slot
    && if Cached(s.engine, request) then
         Advanced(e, s.engine, PHASE_PENDING, e.nextWrite) && Offered(Current(s.mem), e.target)
       else s.engine == e
  }

  lemma MarkingStep(a: Snap, i: Input, b: Snap, e: Engine, slot: Bytes)
    requires EngineStep(a, i, b) && i.request.command == SET_PENDING && Marking(a, e, slot, i.request)
    ensures Marking(b, e, slot, i.request)
  {
    hide EngineStep, Executes, Sane, Cached, Reaches, Newest, Intact, Near, Offered;
    StepIsFormed(a, i, b);
    HealthyStep(a, i, b);
    CopyStep(a, i, b);
    if !Reaches(a.engine, i.request) {
      UnreachedStep(a, i, b);
    } else {
      ReachedIsNotCached(a.engine, i.request);
      PendingOutcome(a, i, b);
    }
  }

  /** SET_PENDING once answered is durable, and the slot is as it was. */
  lemma PendingArrives(run: seq<Snap>, inputs: seq<Input>, request: Packet)
    requires EngineRun(run, inputs) && Healthy(run[0]) && Repeats(inputs, request) && Formed(request)
    requires request.command == SET_PENDING && !Cached(run[0].engine, request) && SlotValid(run[0].engine.target)
    requires |inputs| > 0 && Answers(run[|inputs| - 1], inputs[|inputs| - 1])
    ensures var end, target := run[|inputs|], run[0].engine.target;
      && Healthy(end) && |run[0].mem| == |end.mem| == FLASH_SIZE
      && SlotBytes(end.mem, target) == SlotBytes(run[0].mem, target)
      && Advanced(run[0].engine, end.engine, PHASE_PENDING, run[0].engine.nextWrite)
      && Offered(Current(end.mem), target)
  {
    hide EngineStep, Sane, Answers, Advanced, Cached, Newest, Intact, Near;
    var e, slot := run[0].engine, SlotBytes(run[0].mem, run[0].engine.target);
    var keeps := s => Marking(s, e, slot, request);
    forall a, i, b | keeps(a) && EngineStep(a, i, b) && i.request == request ensures keeps(b) {
      MarkingStep(a, i, b, e, slot);
    }
    CopiesKeep(run, inputs, request, keeps);
    CopiesExecuteOnce(run, inputs, request);
  }

  // ---- Beginning ----

  /** The reply to an accepted report is the one the cache then holds. */
  lemma AnswerIsCached(a: Snap, i: Input, b: Snap)
    requires EngineStep(a, i, b) && Sane(a) && Answers(a, i) && Cacheable(i.request.command)
    ensures Cached(b.engine, i.request)
    ensures Process(a.engine, a.mem, i.request, i.io).response == b.engine.previous.value.response
  {
    hide Dispatch, ValidateCommon, Protocol.Finalize, MakeResponse, Acts, Sound, Vouched, CacheCurrent, Admit, CacheBehind;
    if Reaches(a.engine, i.request) {
      LengthFits(i.request);
      HandlersFormResponses(a.engine, a.mem, i.request, i.io);
    } else {
      UnreachedStep(a, i, b);
    }
  }

  /** A begun session is the one the reply names, whichever copy began it. */
  lemma BeginArrives(run: seq<Snap>, inputs: seq<Input>, request: Packet)
    requires EngineRun(run, inputs) && Sane(run[0]) && Repeats(inputs, request) && Formed(request)
    requires request.command == BEGIN_IMAGE || request.command == BEGIN_FULL_FLASH
    requires |inputs| > 0 && Answers(run[|inputs| - 1], inputs[|inputs| - 1])
    ensures var n := |inputs|; var a, i, end := run[n - 1], inputs[n - 1], run[n].engine;
      && Sane(run[n]) && Cached(end, request)
      && (request.command == BEGIN_IMAGE ==> BegunBy(end, request))
      && (request.command == BEGIN_FULL_FLASH ==> FullBegunBy(end, request))
      && |a.mem| == FLASH_SIZE && Formed(i.request) && Bounded(a.engine)
      && Process(a.engine, a.mem, i.request, i.io).response.session == end.session
  {
    hide EngineStep, Answers, Trusted, Process, BegunBy, FullBegunBy;
    var n := |inputs|;
    CopiesExecuteOnce(run, inputs, request);
    assert EngineRun(run[..n], inputs[..n - 1]);
    var earlier := inputs[..n - 1];
    forall k | 0 <= k < |earlier| ensures earlier[k].request == request { assert inputs[k].request == request; }
    CopiesExecuteOnce(run[..n], earlier, request);
    assert EngineStep(run[n - 1], inputs[n - 1], run[n - 1 + 1]);
    assert inputs[n - 1].request == request;
    StepIsFormed(run[n - 1], inputs[n - 1], run[n]);
    AnswerIsCached(run[n - 1], inputs[n - 1], run[n]);
  }

  // ---- Erasing the whole chip ----

  lemma FullEraseOutcome(a: Snap, i: Input, b: Snap)
    requires EngineStep(a, i, b) && Sane(a) && Reaches(a.engine, i.request) && i.request.command == ERASE_FULL_FLASH
    ensures var e := a.engine;
      && |a.mem| == |b.mem| == FLASH_SIZE && e.fullErase <= FLASH_SIZE
      && var n := FullEraseLength(e);
      && (!Executes(a, i) ==> b.mem == a.mem || EraseEffect(a.mem, b.mem, e.fullErase, n, false))
      && (Executes(a, i) ==> EraseEffect(a.mem, b.mem, e.fullErase, n, true) && ErasedOn(e, b.engine))
  {
    var e, request := a.engine, i.request;
    hide Dispatch, ValidateCommon, Protocol.Finalize, MakeResponse, CacheBehind, Vouched, CacheCurrent, EraseEffect, Admit, Cached;
    SessionsStaySeparate(e, request);
    LengthFits(request);
    HandlersFormResponses(e, a.mem, request, i.io);
    DispatchTo(e, a.mem, request, i.io);
  }

  /** One more piece of the chip erased. */
  predicate ErasedOn(a: Engine, b: Engine) {
    && SameSession(a, b) && a.fullErase <= FLASH_SIZE && a.phase == PHASE_BEGUN && a.fullSession
    && b.fullErase == a.fullErase + FullEraseLength(a)
    && b.phase == (if b.fullErase == FLASH_SIZE then PHASE_ERASED else PHASE_BEGUN)
    && b.nextWrite == if b.fullErase == FLASH_SIZE then 0 else a.nextWrite
  }

  ghost predicate Wiping(s: Snap, e: Engine, mem: Bytes, request: Packet) {
    && Sane(s) && |s.mem| == |mem| == FLASH_SIZE && Formed(request) && e.fullErase <= FLASH_SIZE
    && var to := e.fullErase + FullEraseLength(e);
    && s.mem[to..] == mem[to..]
    && s.engine.fullErase <= FLASH_SIZE && Erased(s.mem[..s.engine.fullErase])
    && if Cached(s.engine, request) then ErasedOn(e, s.engine) else s.engine == e
  }

  lemma WipingMem(before: Bytes, after: Bytes, from: nat, n: nat, ok: bool)
    requires |before| == FLASH_SIZE && from + n <= FLASH_SIZE && EraseEffect(before, after, from, n, ok)
    requires Erased(before[..from])
    ensures |after| == FLASH_SIZE && after[from + n..] == before[from + n..]
    ensures Erased(after[..from])
    ensures ok ==> Erased(after[..from + n])
  {
    assert after[..from] == before[..from];
    assert after[..from + n] == after[..from] + after[from..from + n];
  }

  lemma FullEraseFits(e: Engine)
    requires e.fullErase <= FLASH_SIZE
    ensures e.fullErase + FullEraseLength(e) <= FLASH_SIZE
  {}

  lemma WipingStep(a: Snap, i: Input, b: Snap, e: Engine, mem: Bytes)
    requires EngineStep(a, i, b) && i.request.command == ERASE_FULL_FLASH && Wiping(a, e, mem, i.request)
    ensures Wiping(b, e, mem, i.request)
  {
    hide EngineStep, Executes, Sane, Cached, Reaches, EraseEffect, Erased, FullEraseLength;
    StepIsFormed(a, i, b);
    SaneStep(a, i, b);
    if !Reaches(a.engine, i.request) {
      UnreachedStep(a, i, b);
    } else {
      ReachedIsNotCached(a.engine, i.request);
      FullEraseOutcome(a, i, b);
      FullEraseFits(e);
      if Executes(a, i) { WipingDone(a, i, b, e, mem); } else { WipingFailed(a, i, b, e, mem); }
    }
  }

  lemma WipingDone(a: Snap, i: Input, b: Snap, e: Engine, mem: Bytes)
    requires |a.mem| == |mem| == FLASH_SIZE && Formed(i.request)
    requires e.fullErase <= FLASH_SIZE && e.fullErase + FullEraseLength(e) <= FLASH_SIZE
    requires EngineStep(a, i, b) && Executes(a, i) && i.request.command == ERASE_FULL_FLASH && Sane(a) && Sane(b)
    requires Erased(a.mem[..e.fullErase]) && a.mem[e.fullErase + FullEraseLength(e)..] == mem[e.fullErase + FullEraseLength(e)..]
    requires EraseEffect(a.mem, b.mem, e.fullErase, FullEraseLength(e), true) && ErasedOn(e, b.engine)
    ensures Wiping(b, e, mem, i.request)
  {
    hide EngineStep, Executes, Sane, Cached, EraseEffect, Erased, FullEraseLength;
    CopyStep(a, i, b);
    WipingMem(a.mem, b.mem, e.fullErase, FullEraseLength(e), true);
  }

  lemma WipingFailed(a: Snap, i: Input, b: Snap, e: Engine, mem: Bytes)
    requires |a.mem| == |mem| == FLASH_SIZE && Formed(i.request)
    requires e.fullErase <= FLASH_SIZE && e.fullErase + FullEraseLength(e) <= FLASH_SIZE
    requires EngineStep(a, i, b) && !Executes(a, i) && i.request.command == ERASE_FULL_FLASH && Sane(a) && Sane(b)
    requires a.engine == e && !Cached(e, i.request)
    requires Erased(a.mem[..e.fullErase]) && a.mem[e.fullErase + FullEraseLength(e)..] == mem[e.fullErase + FullEraseLength(e)..]
    requires b.mem == a.mem || EraseEffect(a.mem, b.mem, e.fullErase, FullEraseLength(e), false)
    ensures Wiping(b, e, mem, i.request)
  {
    hide EngineStep, Executes, Sane, Cached, EraseEffect, Erased, FullEraseLength, ErasedOn;
    CopyStep(a, i, b);
    if b.mem != a.mem { WipingMem(a.mem, b.mem, e.fullErase, FullEraseLength(e), false); }
  }

  /** One piece of a whole-chip erase once answered: the chip is erased up to its
      end and untouched beyond it. */
  lemma FullEraseArrives(run: seq<Snap>, inputs: seq<Input>, request: Packet)
    requires EngineRun(run, inputs) && Sane(run[0]) && Repeats(inputs, request) && Formed(request)
    requires request.command == ERASE_FULL_FLASH && !Cached(run[0].engine, request)
    requires |run[0].mem| == FLASH_SIZE && run[0].engine.fullErase <= FLASH_SIZE && Erased(run[0].mem[..run[0].engine.fullErase])
    requires |inputs| > 0 && Answers(run[|inputs| - 1], inputs[|inputs| - 1])
    ensures var end, e := run[|inputs|], run[0].engine;
      && Sane(end) && |end.mem| == FLASH_SIZE && ErasedOn(e, end.engine) && end.engine.fullErase <= FLASH_SIZE
      && Erased(end.mem[..end.engine.fullErase])
      && end.mem[end.engine.fullErase..] == run[0].mem[end.engine.fullErase..]
  {
    hide EngineStep, Sane, Answers, Cached, Erased;
    var e, mem := run[0].engine, run[0].mem;
    var keeps := s => Wiping(s, e, mem, request);
    forall a, i, b | keeps(a) && EngineStep(a, i, b) && i.request == request ensures keeps(b) {
      WipingStep(a, i, b, e, mem);
    }
    CopiesKeep(run, inputs, request, keeps);
    CopiesExecuteOnce(run, inputs, request);
  }

  // ---- Commands that leave the flash alone ----

  predicate Quiet(command: uint8) {
    command != ERASE_SLOT && command != WRITE_CHUNK && command != SET_PENDING && command != ERASE_FULL_FLASH
  }

  lemma QuietDispatch(e: Engine, mem: Bytes, request: Packet, io: Io)
    requires Formed(request) && request.length <= PAYLOAD_SIZE && |mem| == FLASH_SIZE && Bounded(e) && Quiet(request.command)
    ensures Dispatch(e, mem, request, io).action == NoAction
  {
    hide StoredImageValid, Sha256Spec.Hash, NextSession, InfoBytes, MakeResponse, ResolveRange;
  }

  lemma QuietStep(a: Snap, i: Input, b: Snap)
    requires EngineStep(a, i, b) && Quiet(i.request.command)
    ensures b.mem == a.mem
  {
    hide Dispatch, ValidateCommon, Protocol.Finalize, MakeResponse, Admit;
    if Reaches(a.engine, i.request) {
      LengthFits(i.request);
      HandlersFormResponses(a.engine, a.mem, i.request, i.io);
      QuietDispatch(a.engine, a.mem, i.request, i.io);
    }
  }

  lemma QuietCopies(run: seq<Snap>, inputs: seq<Input>, request: Packet)
    requires EngineRun(run, inputs) && Repeats(inputs, request) && Quiet(request.command)
    ensures run[|inputs|].mem == run[0].mem
  {
    hide EngineStep;
    var mem := run[0].mem;
    var keeps := (s: Snap) => s.mem == mem;
    forall a, i, b | keeps(a) && EngineStep(a, i, b) && i.request == request ensures keeps(b) {
      QuietStep(a, i, b);
    }
    CopiesKeep(run, inputs, request, keeps);
  }
}
