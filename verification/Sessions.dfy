/** A session that goes through: what a host has to send, and that the engine
    then takes every report of it. */
module Sessions {
  import opened Words
  import opened BootState
  import opened Nor
  import opened Protocol
  import opened Image
  import opened EngineSpec
  import opened RecoveryEngine
  import opened EngineProofs
  import opened BootFaults

  const WORKS: Io := Io(true, [])

  // ---- One report of a running session ----

  /** The reports of a slot session after BEGIN_IMAGE. */
  predicate InSession(h: HostPacket) {
    && Encodable(h) && h.flags <= 1 && h.status == OK
    && if h.command == WRITE_CHUNK then h.payload != []
       else h.payload == [] && (h.command == ERASE_SLOT || h.command == FINALIZE_IMAGE || h.command == SET_PENDING)
  }

  /** Where a session stands: the next report it expects and the last it took. */
  predicate Running(e: Engine, slot: uint8, size: nat, next: nat) {
    && Bounded(e) && e.phase != PHASE_IDLE && !e.fullSession
    && e.target == slot && e.imageSize == size && e.expectedSequence == next
    && e.previous.Some? && e.previous.value.request.sequence != next
  }

  predicate Expected(e: Engine, h: HostPacket) {
    InSession(h) && h.flags == e.target && h.session == e.session && h.sequence == e.expectedSequence
  }

  lemma SessionReportIsValid(h: HostPacket)
    requires InSession(h)
    ensures ValidateCommon(HostEncode(h)) == OK
  {
    hide HostEncode, Validate;
    HostRoundTrip(h);
    HostPacketFields(h);
  }

  lemma ExpectedReaches(e: Engine, h: HostPacket, slot: uint8, size: nat, next: nat)
    requires Running(e, slot, size, next) && Expected(e, h)
    ensures Reaches(e, HostEncode(h)) && HostEncode(h).length <= PAYLOAD_SIZE
  {
    hide HostEncode, ValidateCommon, Bounded, Validate;
    SessionReportIsValid(h);
    HostPacketFields(h);
  }

  lemma ReachedIsCommitted(e: Engine, mem: Bytes, p: Packet, io: Io)
    requires |mem| == FLASH_SIZE && Formed(p) && p.length <= PAYLOAD_SIZE && Bounded(e) && Reaches(e, p)
    ensures Formed(Dispatch(e, mem, p, io).response)
    ensures Process(e, mem, p, io) == Commit(Dispatch(e, mem, p, io), p)
  {
    hide Dispatch, ValidateCommon, Admit, Cached, Commit, Bounded;
    HandlersFormResponses(e, mem, p, io);
  }

  /** The engine takes a report: what it does to the flash, and the engine after
      it but for the retry cache, which holds the report. */
  ghost predicate Accepts(s: Snap, h: HostPacket, action: Action, next: Engine) {
    && Encodable(h) && |s.mem| == FLASH_SIZE && Bounded(s.engine)
    && var p := HostEncode(h);
    && p.length == |h.payload| && Reaches(s.engine, p) && Dispatch(s.engine, s.mem, p, WORKS).status == OK
    && var done := Process(s.engine, s.mem, p, WORKS);
    && done.status == OK && done.action == action && done.engine == next.(previous := done.engine.previous)
    && done.engine.previous.Some? && done.engine.previous.value.request == p
  }

  lemma CommitMovesOn(s: Step, p: Packet)
    requires Formed(s.response) && s.status == OK && UsesSession(p.command) && s.engine.expectedSequence + 1 < WORD
    ensures var done := Commit(s, p);
      && done.status == OK && done.action == s.action
      && done.engine == s.engine.(expectedSequence := s.engine.expectedSequence + 1, previous := done.engine.previous)
      && done.engine.previous.Some? && done.engine.previous.value.request == p
  {
    hide Protocol.Finalize;
  }

  /** A report the session expects reaches its handler, and if the handler takes
      it, the session moves on by one. */
  lemma ExpectedIsTaken(e: Engine, mem: Bytes, h: HostPacket, slot: uint8, size: nat, next: nat)
    requires |mem| == FLASH_SIZE && Running(e, slot, size, next) && Expected(e, h) && next + 1 < WORD
    requires HostEncode(h).length <= PAYLOAD_SIZE
    requires var s := Dispatch(e, mem, HostEncode(h), WORKS);
      s.status == OK && s.engine.expectedSequence == next
    ensures Reaches(e, HostEncode(h))
    ensures var s, done := Dispatch(e, mem, HostEncode(h), WORKS), Process(e, mem, HostEncode(h), WORKS);
      && done.status == OK && done.action == s.action
      && done.engine == s.engine.(expectedSequence := next + 1, previous := done.engine.previous)
      && done.engine.previous.Some? && done.engine.previous.value.request == HostEncode(h)
  {
    hide HostEncode, Dispatch, Process, Commit, Reaches, Bounded, Validate, ValidateCommon, Admit, Cached;
    ExpectedReaches(e, h, slot, size, next);
    HostPacketFields(h);
    ReachedIsCommitted(e, mem, HostEncode(h), WORKS);
    CommitMovesOn(Dispatch(e, mem, HostEncode(h), WORKS), HostEncode(h));
  }

  // ---- Erase, write, finalize ----

  function EraseReport(e: Engine): HostPacket
    requires e.target <= 1
  {
    HostPacket(ERASE_SLOT, e.target, e.session, e.expectedSequence, 0, OK, [])
  }

  function WriteReport(e: Engine, piece: Bytes): HostPacket
    requires e.target <= 1
  {
    HostPacket(WRITE_CHUNK, e.target, e.session, e.expectedSequence, e.nextWrite, OK, piece)
  }

  function FinalizeReport(e: Engine): HostPacket
    requires e.target <= 1
  {
    HostPacket(FINALIZE_IMAGE, e.target, e.session, e.expectedSequence, 0, OK, [])
  }

  function PendingReport(e: Engine): HostPacket
    requires e.target <= 1
  {
    HostPacket(SET_PENDING, e.target, e.session, e.expectedSequence, 0, OK, [])
  }

  lemma EraseHandled(e: Engine, p: Packet)
    requires SlotValid(e.target) && (e.phase == PHASE_BEGUN || e.phase == PHASE_ERASED) && 0 < e.imageSize <= SLOT_SIZE
    ensures var s := HandleEraseSlot(e, p, WORKS);
      && s.status == OK && s.action == EraseFlash(SlotOffset(e.target), EraseLength(e.imageSize))
      && s.engine == e.(nextWrite := 0, phase := PHASE_ERASED)
  {
    hide MakeResponse, EraseLength;
  }

  lemma WriteHandled(e: Engine, p: Packet)
    requires Formed(p) && SlotValid(e.target) && !e.fullSession && (e.phase == PHASE_ERASED || e.phase == PHASE_WRITING)
    requires p.flags == e.target && p.offset == e.nextWrite && 0 < p.length <= PAYLOAD_SIZE
    requires p.offset + p.length <= e.imageSize <= SLOT_SIZE
    ensures var s := HandleWrite(e, p, WORKS);
      && s.status == OK && s.action == ProgramFlash(SlotOffset(e.target) + e.nextWrite, p.payload[..p.length])
      && s.engine == e.(nextWrite := e.nextWrite + p.length, phase := PHASE_WRITING)
  {
    hide MakeResponse;
  }

  lemma FinalizeHandled(e: Engine, mem: Bytes, p: Packet)
    requires |mem| == FLASH_SIZE && SlotValid(e.target) && e.phase == PHASE_WRITING && e.nextWrite == e.imageSize
    requires StoredImageValid(e, mem)
    ensures var s := HandleFinalize(e, mem, p, WORKS);
      s.status == OK && s.action == NoAction && s.engine == e.(phase := PHASE_FINALIZED)
  {
    hide MakeResponse, StoredImageValid;
  }

  lemma DispatchFinalize(e: Engine, mem: Bytes, p: Packet, io: Io)
    requires Formed(p) && p.length <= PAYLOAD_SIZE && |mem| == FLASH_SIZE && Bounded(e) && p.command == FINALIZE_IMAGE
    ensures Dispatch(e, mem, p, io) == HandleFinalize(e, mem, p, io)
  {
    hide HandleGetInfo, HandleBegin, HandleEraseSlot, HandleWrite, HandleRead, HandleFinalize, HandleSetPending,
         HandleGetLog, HandleReadKnobs, HandleBeginFullFlash, HandleEraseFullFlash, HandleFinalizeFullFlash;
  }

  // ---- Runs ----

  /** The first n bytes of an image are sent, and nothing outside the slot has
      changed since the flash was mem0. */
  ghost predicate Sent(s: Snap, mem0: Bytes, slot: uint8, image: Bytes, n: nat) {
    var e := s.engine;
    && |s.mem| == FLASH_SIZE && SlotValid(slot) && SameOutside(mem0, s.mem, SlotOffset(slot), SLOT_SIZE)
    && Sound(e) && Running(e, slot, |image|, e.expectedSequence) && e.expectedSequence <= n + 2
    && e.phase == (if n == 0 then PHASE_ERASED else PHASE_WRITING)
    && e.nextWrite == n <= |image| <= SLOT_SIZE
    && Holds(e, s.mem, image[..n])
  }

  /** What a session never changes before SET_PENDING. */
  predicate SameBoot(a: Engine, b: Engine) {
    b.bootState == a.bootState && b.active == a.active && b.fullEnabled == a.fullEnabled
  }

  /** The same session, one report on. */
  predicate Onward(a: Engine, b: Engine) {
    SameBoot(a, b) && b.session == a.session && b.expectedSequence == a.expectedSequence + 1
  }

  lemma JoinRuns(run1: seq<Snap>, inputs1: seq<Input>, run2: seq<Snap>, inputs2: seq<Input>)
      returns (run: seq<Snap>, inputs: seq<Input>)
    requires EngineRun(run1, inputs1) && EngineRun(run2, inputs2) && run1[|inputs1|] == run2[0]
    ensures EngineRun(run, inputs) && run[0] == run1[0] && run[|inputs|] == run2[|inputs2|]
  {
    hide EngineStep;
    run, inputs := run1 + run2[1..], inputs1 + inputs2;
    forall k | 0 <= k < |inputs| ensures EngineStep(run[k], inputs[k], run[k + 1]) {
      if k >= |inputs1| {
        var j := k - |inputs1|;
        assert run[k] == run2[j] && run[k + 1] == run2[j + 1];
      }
    }
  }

  lemma OneStepRun(a: Snap, i: Input, b: Snap)
    requires EngineStep(a, i, b)
    ensures EngineRun([a, b], [i])
  {
    hide EngineStep;
  }

  /** The flash after a program that works. */
  function Programmed(mem: Bytes, at: nat, data: Bytes): (r: Bytes)
    requires at + |data| <= |mem|
    ensures |r| == |mem|
  {
    mem[..at] + NorAnd(mem[at..at + |data|], data) + mem[at + |data|..]
  }

  lemma ProgrammedIs(mem: Bytes, at: nat, data: Bytes)
    requires |mem| == FLASH_SIZE && at + |data| <= FLASH_SIZE
    ensures ProgramEffect(mem, Programmed(mem, at, data), at, data, true)
    ensures SameOutside(mem, Programmed(mem, at, data), at, |data|)
  {
    hide NorAnd, Decode;
    assert Programmed(mem, at, data)[at..at + |data|] == NorAnd(mem[at..at + |data|], data);
  }

  lemma StaysOutside(mem0: Bytes, mem: Bytes, after: Bytes, slot: uint8, at: nat, n: nat)
    requires SlotValid(slot) && SameOutside(mem0, mem, SlotOffset(slot), SLOT_SIZE) && SameOutside(mem, after, at, n)
    requires SlotOffset(slot) <= at && at + n <= SlotOffset(slot) + SLOT_SIZE
    ensures SameOutside(mem0, after, SlotOffset(slot), SLOT_SIZE)
  {}

  /** The next piece of the image is taken, */
  lemma WriteAccepted(s: Snap, mem0: Bytes, slot: uint8, image: Bytes, n: nat, m: nat)
    requires Sent(s, mem0, slot, image, n) && n < m <= |image| && m <= n + PAYLOAD_SIZE
    ensures var e := s.engine;
      Accepts(s, WriteReport(e, image[n..m]), ProgramFlash(SlotOffset(slot) + n, image[n..m]),
              e.(nextWrite := m, phase := PHASE_WRITING, expectedSequence := e.expectedSequence + 1))
  {
    hide Sound, Holds, Bounded, HostEncode, Dispatch, Process, Reaches, SameOutside;
    var e := s.engine;
    SoundIsBounded(e);
    var h := WriteReport(e, image[n..m]);
    HostPacketFields(h);
    PayloadOf(h);
    var p := HostEncode(h);
    DispatchTo(e, s.mem, p, WORKS);
    WriteHandled(e, p);
    hide HandleWrite;
    ExpectedIsTaken(e, s.mem, h, slot, |image|, e.expectedSequence);
  }

  /** and is then in the flash behind everything before it. */
  lemma WriteTaken(s: Snap, mem0: Bytes, slot: uint8, image: Bytes, n: nat, m: nat, after: Bytes) returns (next: Snap)
    requires Sent(s, mem0, slot, image, n) && n < m <= |image| && m <= n + PAYLOAD_SIZE
    requires Acts(s.mem, ProgramFlash(SlotOffset(slot) + n, image[n..m]), true, after)
    ensures |after| == FLASH_SIZE
    ensures var p := HostEncode(WriteReport(s.engine, image[n..m]));
      next == Snap(Process(s.engine, s.mem, p, WORKS).engine, after) && EngineStep(s, Input(p, WORKS), next)
    ensures Sent(next, mem0, slot, image, m) && Onward(s.engine, next.engine)
  {
    hide Sound, Holds, Bounded, HostEncode, Dispatch, Process, Reaches, EngineStep, Acts, SameOutside;
    var e, mem, piece, at := s.engine, s.mem, image[n..m], SlotOffset(slot) + n;
    SoundIsBounded(e);
    WriteAccepted(s, mem0, slot, image, n, m);
    ProgramKeepsOutside(mem, at, piece, after);
    var p := HostEncode(WriteReport(e, piece));
    PayloadOf(WriteReport(e, piece));
    next := Snap(Process(e, mem, p, WORKS).engine, after);
    StepWith(e, mem, p, WORKS, after);
    ProcessIsSound(e, mem, p, WORKS);
    SoundIsBounded(next.engine);
    HostPacketFields(WriteReport(e, piece));
    ContentIsKept(e, mem, p, WORKS, after, image[..n]);
    assert image[..n] + piece == image[..m];
    StaysOutside(mem0, mem, after, slot, at, |piece|);
  }

  lemma ProgramKeepsOutside(mem: Bytes, at: nat, data: Bytes, after: Bytes)
    requires |mem| == FLASH_SIZE && at + |data| <= FLASH_SIZE && Acts(mem, ProgramFlash(at, data), true, after)
    ensures |after| == FLASH_SIZE && SameOutside(mem, after, at, |data|)
  {}

  lemma WriteGoes(s: Snap, mem0: Bytes, slot: uint8, image: Bytes, n: nat, m: nat) returns (i: Input, next: Snap)
    requires Sent(s, mem0, slot, image, n) && n < m <= |image| && m <= n + PAYLOAD_SIZE
    ensures EngineStep(s, i, next) && Sent(next, mem0, slot, image, m) && SameBoot(s.engine, next.engine)
  {
    hide Sound, Holds, Bounded, HostEncode, Process, EngineStep, Acts, ProgramEffect, SameOutside, Programmed;
    var piece, at := image[n..m], SlotOffset(slot) + n;
    var after := Programmed(s.mem, at, piece);
    ProgrammedIs(s.mem, at, piece);
    ProgramActs(s.mem, at, piece, after);
    i := Input(HostEncode(WriteReport(s.engine, piece)), WORKS);
    next := WriteTaken(s, mem0, slot, image, n, m, after);
  }

  lemma PayloadOf(h: HostPacket)
    requires Encodable(h)
    ensures HostEncode(h).length == |h.payload| && HostEncode(h).payload[..|h.payload|] == h.payload
  {}

  lemma ProgramActs(mem: Bytes, at: nat, data: Bytes, after: Bytes)
    requires |mem| == FLASH_SIZE && at + |data| <= FLASH_SIZE && ProgramEffect(mem, after, at, data, true)
    ensures Acts(mem, ProgramFlash(at, data), true, after)
  {
    hide ProgramEffect;
  }

  /** The rest of the image, piece by piece. */
  lemma {:induction false} WritesGo(s: Snap, mem0: Bytes, slot: uint8, image: Bytes, n: nat)
      returns (run: seq<Snap>, inputs: seq<Input>)
    requires Sent(s, mem0, slot, image, n)
    ensures EngineRun(run, inputs) && run[0] == s
    ensures Sent(run[|inputs|], mem0, slot, image, |image|) && SameBoot(s.engine, run[|inputs|].engine)
    decreases |image| - n
  {
    SentSize(s, mem0, slot, image, n);
    hide Sent, EngineStep;
    if n == |image| {
      run, inputs := [s], [];
    } else {
      var m := if n + PAYLOAD_SIZE < |image| then n + PAYLOAD_SIZE else |image|;
      var i, next := WriteGoes(s, mem0, slot, image, n, m);
      var rest, others := WritesGo(next, mem0, slot, image, m);
      OneStepRun(s, i, next);
      run, inputs := JoinRuns([s, next], [i], rest, others);
    }
  }

  lemma SentSize(s: Snap, mem0: Bytes, slot: uint8, image: Bytes, n: nat)
    requires Sent(s, mem0, slot, image, n)
    ensures n <= |image|
  {}

  // ---- From BEGIN_IMAGE to FINALIZE_IMAGE ----

  function BeginReport(slot: uint8, size: nat): HostPacket
    requires SlotValid(slot) && size <= SLOT_SIZE
  {
    HostPacket(BEGIN_IMAGE, slot, 0, 0, size, OK, [])
  }

  lemma BeginReportIs(slot: uint8, size: nat)
    requires SlotValid(slot) && size <= SLOT_SIZE
    ensures var p := HostEncode(BeginReport(slot, size));
      && ValidateCommon(p) == OK && p.command == BEGIN_IMAGE && p.flags == slot
      && p.session == p.sequence == 0 && p.offset == size && p.length == 0
  {
    hide HostEncode, ValidateCommon;
    BareCommandIsValid(BeginReport(slot, size));
    HostPacketFields(BeginReport(slot, size));
  }

  /** A slot an engine may open: not the one it takes for confirmed or active. */
  predicate Free(e: Engine, slot: uint8) {
    SlotValid(slot) && slot != e.bootState.confirmed && slot != e.active
  }

  lemma BeginAccepted(e: Engine, mem: Bytes, slot: uint8, size: nat)
    requires |mem| == FLASH_SIZE && Sound(e) && Free(e, slot) && MINIMUM_IMAGE <= size <= SLOT_SIZE
    requires e.previous.Some? ==> e.previous.value.request.command != BEGIN_IMAGE
    ensures var p := HostEncode(BeginReport(slot, size));
      Reaches(e, p) && p.length == 0 && Dispatch(e, mem, p, WORKS).status == OK
  {
    hide Sound, HostEncode, NextSession, HandleBegin, ValidateCommon;
    SoundIsBounded(e);
    hide Bounded;
    var p := HostEncode(BeginReport(slot, size));
    BeginReportIs(slot, size);
    DispatchTo(e, mem, p, WORKS);
    hide Dispatch;
    BeginHandled(e, p, slot, size);
  }

  lemma BeginGoes(e: Engine, mem: Bytes, slot: uint8, size: nat) returns (i: Input, next: Snap)
    requires |mem| == FLASH_SIZE && Sound(e) && Free(e, slot) && MINIMUM_IMAGE <= size <= SLOT_SIZE
    requires e.previous.Some? ==> e.previous.value.request.command != BEGIN_IMAGE
    ensures i == Input(HostEncode(BeginReport(slot, size)), WORKS)
    ensures Bounded(e) && next == Snap(Process(e, mem, i.request, WORKS).engine, mem) && Process(e, mem, i.request, WORKS).action == NoAction
    ensures EngineStep(Snap(e, mem), i, next) && next.mem == mem && SameBoot(e, next.engine)
    ensures Sound(next.engine) && Running(next.engine, slot, size, 1)
    ensures next.engine.phase == PHASE_BEGUN && next.engine.nextWrite == 0 && next.engine.session != 0
  {
    hide Sound, HostEncode, Process, EngineStep, NextSession;
    SoundIsBounded(e);
    hide Bounded;
    var p := HostEncode(BeginReport(slot, size));
    BeginReportIs(slot, size);
    BeginStep(e, mem, p, slot, size, WORKS);
    i, next := Input(p, WORKS), Snap(Process(e, mem, p, WORKS).engine, mem);
    BootFaults.QuietStep(e, mem, p, WORKS);
    ProcessIsSound(e, mem, p, WORKS);
    SoundIsBounded(next.engine);
  }

  lemma EraseAccepted(s: Snap, slot: uint8, size: nat)
    requires |s.mem| == FLASH_SIZE && Sound(s.engine) && Running(s.engine, slot, size, 1) && SlotValid(slot)
    requires s.engine.phase == PHASE_BEGUN && MINIMUM_IMAGE <= size <= SLOT_SIZE
    ensures var e := s.engine;
      Accepts(s, EraseReport(e), EraseFlash(SlotOffset(slot), EraseLength(size)),
              e.(nextWrite := 0, phase := PHASE_ERASED, expectedSequence := 2))
  {
    hide Sound, Bounded, HostEncode, Dispatch, Process, Reaches, EraseLength;
    var e := s.engine;
    SoundIsBounded(e);
    var h := EraseReport(e);
    HostPacketFields(h);
    var p := HostEncode(h);
    DispatchTo(e, s.mem, p, WORKS);
    EraseHandled(e, p);
    hide HandleEraseSlot;
    ExpectedIsTaken(e, s.mem, h, slot, size, 1);
  }

  lemma EraseTaken(s: Snap, slot: uint8, image: Bytes, after: Bytes) returns (next: Snap)
    requires |s.mem| == FLASH_SIZE && Sound(s.engine) && Running(s.engine, slot, |image|, 1) && SlotValid(slot)
    requires s.engine.phase == PHASE_BEGUN && MINIMUM_IMAGE <= |image| <= SLOT_SIZE
    requires Acts(s.mem, EraseFlash(SlotOffset(slot), EraseLength(|image|)), true, after)
    ensures |after| == FLASH_SIZE
    ensures var p := HostEncode(EraseReport(s.engine));
      next == Snap(Process(s.engine, s.mem, p, WORKS).engine, after) && EngineStep(s, Input(p, WORKS), next)
    ensures Sent(next, s.mem, slot, image, 0) && Onward(s.engine, next.engine)
  {
    hide Sound, Bounded, HostEncode, Dispatch, Process, Reaches, EngineStep, Acts, SameOutside, EraseLength;
    var e, mem := s.engine, s.mem;
    SoundIsBounded(e);
    EraseAccepted(s, slot, |image|);
    EraseFits(|image|, slot);
    EraseKeepsOutside(mem, slot, EraseLength(|image|), after);
    var p := HostEncode(EraseReport(e));
    HostPacketFields(EraseReport(e));
    next := Snap(Process(e, mem, p, WORKS).engine, after);
    StepWith(e, mem, p, WORKS, after);
    ProcessIsSound(e, mem, p, WORKS);
    SoundIsBounded(next.engine);
    HoldsNothing(e, mem, slot, image);
    ContentIsKept(e, mem, p, WORKS, after, []);
    hide Holds;
    assert image[..0] == [];
  }

  lemma EraseKeepsOutside(mem: Bytes, slot: uint8, n: nat, after: Bytes)
    requires |mem| == FLASH_SIZE && SlotValid(slot) && n <= SLOT_SIZE && Acts(mem, EraseFlash(SlotOffset(slot), n), true, after)
    ensures |after| == FLASH_SIZE && SameOutside(mem, after, SlotOffset(slot), SLOT_SIZE)
  {}

  lemma EraseGoes(s: Snap, slot: uint8, image: Bytes) returns (i: Input, next: Snap)
    requires |s.mem| == FLASH_SIZE && Sound(s.engine) && Running(s.engine, slot, |image|, 1) && SlotValid(slot)
    requires s.engine.phase == PHASE_BEGUN && MINIMUM_IMAGE <= |image| <= SLOT_SIZE
    ensures EngineStep(s, i, next) && SameBoot(s.engine, next.engine)
    ensures Sent(next, s.mem, slot, image, 0)
  {
    hide Sound, Bounded, HostEncode, Process, EngineStep, Acts, EraseEffect, Wiped, EraseLength;
    EraseFits(|image|, slot);
    var at, n := SlotOffset(slot), EraseLength(|image|);
    var after := Wiped(s.mem, at, n);
    WipedIsErased(s.mem, at, n);
    EraseActs(s.mem, at, n, after);
    i := Input(HostEncode(EraseReport(s.engine)), WORKS);
    next := EraseTaken(s, slot, image, after);
  }

  lemma HoldsNothing(e: Engine, mem: Bytes, slot: uint8, image: Bytes)
    requires |mem| == FLASH_SIZE && Running(e, slot, |image|, 1) && SlotValid(slot) && e.phase == PHASE_BEGUN
    requires MINIMUM_IMAGE <= |image| <= SLOT_SIZE
    ensures Holds(e, mem, [])
  {
    EraseFits(|image|, slot);
  }

  /** An image that makes any slot it begins bootable. */
  ghost predicate Complete(image: Bytes) {
    && MINIMUM_IMAGE <= |image| <= SLOT_SIZE
    && forall slot: Bytes :: |slot| == SLOT_SIZE && image <= slot ==>
         ImageValid(slot) && MANIFEST_SIZE + ImageSize(Manifest(slot)) <= |image|
  }

  lemma CompleteSize(image: Bytes)
    requires Complete(image)
    ensures MINIMUM_IMAGE <= |image| <= SLOT_SIZE
  {}

  lemma SentIsStored(s: Snap, mem0: Bytes, slot: uint8, image: Bytes)
    requires Sent(s, mem0, slot, image, |image|) && Complete(image)
    ensures image <= SlotBytes(s.mem, slot) && StoredImageValid(s.engine, s.mem)
  {
    hide Sound, Bounded, SameOutside, ImageValid, Erased;
    assert image[..|image|] == image;
    SlicePrefix(s.mem, SlotOffset(slot), SLOT_SIZE, image);
  }

  lemma SlicePrefix(mem: Bytes, at: nat, n: nat, image: Bytes)
    requires at + n <= |mem| && |image| <= n && mem[at..at + |image|] == image
    ensures image <= mem[at..at + n]
  {}

  lemma FinalizeAccepted(s: Snap, mem0: Bytes, slot: uint8, image: Bytes)
    requires Sent(s, mem0, slot, image, |image|) && Complete(image)
    ensures var e := s.engine;
      Accepts(s, FinalizeReport(e), NoAction,
              e.(phase := PHASE_FINALIZED, expectedSequence := e.expectedSequence + 1))
  {
    hide Sound, Holds, Bounded, HostEncode, Dispatch, Process, Reaches, SameOutside, StoredImageValid, Complete;
    CompleteSize(image);
    SentIsStored(s, mem0, slot, image);
    var e, mem := s.engine, s.mem;
    SoundIsBounded(e);
    var h := FinalizeReport(e);
    HostPacketFields(h);
    var p := HostEncode(h);
    DispatchFinalize(e, mem, p, WORKS);
    FinalizeHandled(e, mem, p);
    hide HandleFinalize;
    ExpectedIsTaken(e, mem, h, slot, |image|, e.expectedSequence);
  }

  lemma FinalizeGoes(s: Snap, mem0: Bytes, slot: uint8, image: Bytes) returns (i: Input, next: Snap)
    requires Sent(s, mem0, slot, image, |image|) && Complete(image)
    ensures i == Input(HostEncode(FinalizeReport(s.engine)), WORKS)
    ensures |s.mem| == FLASH_SIZE && Bounded(s.engine) && next == Snap(Process(s.engine, s.mem, i.request, WORKS).engine, s.mem)
    ensures EngineStep(s, i, next) && next.mem == s.mem && Onward(s.engine, next.engine)
    ensures Sound(next.engine) && Running(next.engine, slot, |image|, next.engine.expectedSequence)
    ensures next.engine.phase == PHASE_FINALIZED && next.engine.expectedSequence <= |image| + 3
  {
    FinalizeAccepted(s, mem0, slot, image);
    hide Sound, Holds, Bounded, HostEncode, Dispatch, Process, Reaches, EngineStep, SameOutside, Complete;
    var e, mem := s.engine, s.mem;
    SoundIsBounded(e);
    var p := HostEncode(FinalizeReport(e));
    HostPacketFields(FinalizeReport(e));
    i, next := Input(p, WORKS), Snap(Process(e, mem, p, WORKS).engine, mem);
    BootFaults.QuietStep(e, mem, p, WORKS);
    ProcessIsSound(e, mem, p, WORKS);
    SoundIsBounded(next.engine);
  }

  /** From any slot-mode engine without a BEGIN in its cache, a host that sends a
      complete image in order over a working backend brings it to FINALIZED; the
      slot begins with the image and nothing else in the flash has changed. */
  lemma SessionGoesThrough(e: Engine, mem: Bytes, slot: uint8, image: Bytes) returns (run: seq<Snap>, inputs: seq<Input>)
    requires |mem| == FLASH_SIZE && Sound(e) && Free(e, slot) && Complete(image)
    requires e.previous.Some? ==> e.previous.value.request.command != BEGIN_IMAGE
    ensures EngineRun(run, inputs) && run[0] == Snap(e, mem)
    ensures var last := run[|inputs|];
      && |last.mem| == FLASH_SIZE && SameOutside(mem, last.mem, SlotOffset(slot), SLOT_SIZE)
      && image <= SlotBytes(last.mem, slot)
      && Sound(last.engine) && SameBoot(e, last.engine)
      && Running(last.engine, slot, |image|, last.engine.expectedSequence)
      && last.engine.phase == PHASE_FINALIZED && last.engine.expectedSequence <= |image| + 3
  {
    hide Sound, Holds, Bounded, EngineStep, SameOutside, Running;
    var i1, s1 := BeginGoes(e, mem, slot, |image|);
    var i2, s2 := EraseGoes(s1, slot, image);
    var writes, inputs3 := WritesGo(s2, mem, slot, image, 0);
    var s3 := writes[|inputs3|];
    var i4, s4 := FinalizeGoes(s3, mem, slot, image);
    SentIsStored(s3, mem, slot, image);
    hide Sent, Complete, Free;
    OneStepRun(Snap(e, mem), i1, s1);
    OneStepRun(s1, i2, s2);
    OneStepRun(s3, i4, s4);
    run, inputs := JoinRuns([Snap(e, mem), s1], [i1], [s1, s2], [i2]);
    run, inputs := JoinRuns(run, inputs, writes, inputs3);
    run, inputs := JoinRuns(run, inputs, [s3, s4], [i4]);
    SentOutside(s3, mem, slot, image, |image|);
  }

  lemma SentOutside(s: Snap, mem0: Bytes, slot: uint8, image: Bytes, n: nat)
    requires Sent(s, mem0, slot, image, n)
    ensures |s.mem| == FLASH_SIZE && SameOutside(mem0, s.mem, SlotOffset(slot), SLOT_SIZE)
  {}

  lemma PendingHandled(e: Engine, p: Packet)
    requires SlotValid(e.target) && e.target != e.bootState.confirmed && e.phase == PHASE_FINALIZED
    ensures var s := HandleSetPending(e, p, WORKS);
      && s.status == OK && s.action == StoreState(Begun(e.bootState, e.target))
      && s.engine == e.(bootState := Begun(e.bootState, e.target), phase := PHASE_PENDING)
  {
    hide MakeResponse;
  }

  lemma PendingAccepted(s: Snap, slot: uint8, size: nat)
    requires |s.mem| == FLASH_SIZE && Sound(s.engine) && Free(s.engine, slot)
    requires Running(s.engine, slot, size, s.engine.expectedSequence) && s.engine.expectedSequence + 1 < WORD
    requires s.engine.phase == PHASE_FINALIZED
    ensures var e := s.engine;
      Accepts(s, PendingReport(e), StoreState(Begun(e.bootState, slot)),
              e.(bootState := Begun(e.bootState, slot), phase := PHASE_PENDING, expectedSequence := e.expectedSequence + 1))
  {
    hide Sound, Bounded, HostEncode, Dispatch, Process, Reaches, Begun;
    var e, mem := s.engine, s.mem;
    SoundIsBounded(e);
    var h := PendingReport(e);
    HostPacketFields(h);
    var p := HostEncode(h);
    DispatchTo(e, mem, p, WORKS);
    PendingHandled(e, p);
    hide HandleSetPending;
    ExpectedIsTaken(e, mem, h, slot, size, e.expectedSequence);
  }

  /** SET_PENDING after FINALIZE_IMAGE, whatever a store that reports success
      makes of the flash. */
  lemma PendingGoes(s: Snap, slot: uint8, size: nat, after: Bytes) returns (i: Input, next: Snap)
    requires |s.mem| == |after| == FLASH_SIZE && Sound(s.engine) && Free(s.engine, slot)
    requires Running(s.engine, slot, size, s.engine.expectedSequence) && s.engine.expectedSequence + 1 < WORD
    requires s.engine.phase == PHASE_FINALIZED && Stores(s.mem, Begun(s.engine.bootState, slot), true, after)
    ensures EngineStep(s, i, next) && next.mem == after && Sound(next.engine)
    ensures next.engine.bootState == Begun(s.engine.bootState, slot) && next.engine.active == s.engine.active
    ensures next.engine.previous.Some? && next.engine.previous.value.request.command == SET_PENDING
    ensures next.engine.phase == PHASE_PENDING && next.engine.fullEnabled == s.engine.fullEnabled
  {
    hide Sound, Bounded, HostEncode, Dispatch, Process, Reaches, EngineStep, Stores, Begun;
    var e, mem := s.engine, s.mem;
    SoundIsBounded(e);
    PendingAccepted(s, slot, size);
    var p := HostEncode(PendingReport(e));
    HostPacketFields(PendingReport(e));
    i, next := Input(p, WORKS), Snap(Process(e, mem, p, WORKS).engine, after);
    StepWith(e, mem, p, WORKS, after);
    ProcessIsSound(e, mem, p, WORKS);
  }
}
