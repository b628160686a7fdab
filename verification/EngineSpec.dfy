/** recovery_engine.c as a function of the engine, the flash and what the
    backend answered: one packet in, one reply and at most one flash action out. */
module EngineSpec {
  import opened Words
  import opened BootState
  import opened Nor
  import opened Protocol
  import opened Image
  import Sha256Spec

  const PHASE_IDLE: uint8 := 0
  const PHASE_BEGUN: uint8 := 1
  const PHASE_ERASED: uint8 := 2
  const PHASE_WRITING: uint8 := 3
  const PHASE_FINALIZED: uint8 := 4
  const PHASE_PENDING: uint8 := 5

  const FULL_ERASE_CHUNK: nat := 0x1_0000
  const DEFAULT_SEED: uint32 := 0x4E58_4658
  const MINIMUM_IMAGE: nat := MANIFEST_SIZE + 8

  datatype Exchange = Exchange(request: Packet, response: Packet)

  /** recovery_engine_t; `previous` is the one-entry retry cache. */
  datatype Engine = Engine(
    bootState: State,
    previous: Option<Exchange>,
    session: uint32,
    expectedSequence: uint32,
    nextWrite: uint32,
    fullErase: uint32,
    imageSize: uint32,
    seed: uint32,
    imageSha: Bytes,
    active: uint8,
    target: uint8,
    phase: uint8,
    fullEnabled: bool,
    fullSession: bool,
    hasKnobs: bool,
    hasLog: bool)

  /** What the backend answered while one packet was handled: whether its calls
      succeeded, and the bytes of a diagnostic read. */
  datatype Io = Io(ok: bool, reply: Bytes)

  datatype Action =
    | NoAction
    | EraseFlash(at: nat, length: nat)
    | ProgramFlash(at: nat, data: Bytes)
    | StoreState(state: State)

  datatype Step = Step(status: uint16, engine: Engine, response: Packet, action: Action)

  // ---- Predicates on commands ----

  function PacketSlot(flags: uint16): uint8 { flags % 2 }

  predicate FullFlag(flags: uint16) { flags >= 0x8000 }

  predicate FlagsKnown(flags: uint16) { flags % 0x8000 < 2 }

  predicate OpensSession(command: uint8) { command == BEGIN_IMAGE || command == BEGIN_FULL_FLASH }

  predicate UsesSession(command: uint8) {
    command != GET_INFO && command != BEGIN_IMAGE && command != BEGIN_FULL_FLASH
    && command != GET_LOG && command != READ_KNOBS
  }

  predicate UsesPayload(command: uint8) {
    command == WRITE_CHUNK || command == READ_CHUNK || command == BEGIN_FULL_FLASH
  }

  predicate Cacheable(command: uint8) { command != READ_KNOBS }

  predicate FullOnly(command: uint8) {
    command == BEGIN_FULL_FLASH || command == ERASE_FULL_FLASH || command == FINALIZE_FULL_FLASH
  }

  /** validate_common */
  function ValidateCommon(request: Packet): uint16
    requires Formed(request)
  {
    if Validate(request) != OK then Validate(request)
    else if !FlagsKnown(request.flags)
         || (FullOnly(request.command) && request.flags != FLAG_FULL_FLASH)
         || (!FullOnly(request.command) && request.command != WRITE_CHUNK && request.command != READ_CHUNK
             && request.command != REBOOT && FullFlag(request.flags))
    then BAD_FLAGS
    else if request.status != OK then INVALID_STATE
    else if request.command == BEGIN_FULL_FLASH then
      if request.length != Sha256Spec.DIGEST then BAD_LENGTH else OK
    else if UsesPayload(request.command) then
      if request.length == 0 then BAD_LENGTH else OK
    else if request.length != 0 then BAD_LENGTH
    else OK
  }

  /** make_response */
  function MakeResponse(request: Packet, status: uint16): (r: Packet)
    ensures Formed(r)
  {
    Packet(PACKET_MAGIC, PROTOCOL_VERSION, request.command, request.flags, request.session, request.sequence,
           request.offset, 0, status, 0, 0, Filled(PAYLOAD_SIZE, 0))
  }

  /** The three shifts of next_session and its constant. */
  function Left13(x: bv32): bv32 { x ^ (x << 13) }
  function Right17(x: bv32): bv32 { x ^ (x >> 17) }
  function Left5(x: bv32): bv32 { x ^ (x << 5) }

  function Mix(x: bv32): bv32 { Left5(Right17(Left13(x))) + 0x9E37_79B9 }

  function Scramble(seed: uint32): uint32 { Mix(seed as bv32) as int }

  /** next_session: never zero. */
  function NextSession(seed: uint32): (session: uint32)
    ensures session != 0
  {
    if Scramble(seed) == 0 then 1 else Scramble(seed)
  }

  /** resolve_target_range */
  function TargetRange(e: Engine, request: Packet): (r: Range)
    ensures r.At? ==> request.offset + request.length <= e.imageSize
  {
    if request.offset >= e.imageSize || request.length > e.imageSize - request.offset then Denied(RANGE_DENIED)
    else if e.fullSession then
      if request.flags != FLAG_FULL_FLASH then Denied(BAD_FLAGS) else At(request.offset)
    else if FullFlag(request.flags) || PacketSlot(request.flags) != e.target then Denied(BAD_SLOT)
    else ResolveRange(e.target, request.offset, request.length)
  }

  // ---- Handlers ----

  function Refuse(e: Engine, request: Packet, status: uint16): Step {
    Step(status, e, MakeResponse(request, status), NoAction)
  }

  function Accept(e: Engine, response: Packet, action: Action): Step {
    Step(OK, e, response, action)
  }

  /** recovery_info_t */
  function InfoBytes(e: Engine): (b: Bytes)
    ensures |b| == PAYLOAD_SIZE
  {
    Le(FLASH_SIZE, 4) + Le(SLOT_SIZE, 4) + Le(APPLICATION_A_OFFSET, 4) + Le(APPLICATION_B_OFFSET, 4)
    + Le(MANIFEST_SIZE, 4)
    + [Byte(e.bootState.confirmed), Byte(e.bootState.pending), Byte(SelectedSlot(e.bootState)), Byte(e.phase)]
    + Le(Capabilities(e), 4) + Le(PAYLOAD_SIZE, 4)
  }

  /** Distinct capability bits, added up. */
  function Capabilities(e: Engine): uint32 {
    0x1 + 0x2 + 0x4 + 0x8 + 0x10 + (if e.fullEnabled then 0x20 + 0x40 else 0) + if e.hasKnobs then 0x100 else 0
  }

  function WithPayload(response: Packet, data: Bytes): (r: Packet)
    requires |data| <= PAYLOAD_SIZE
    ensures Formed(r)
  {
    response.(length := |data|, payload := data + Filled(PAYLOAD_SIZE - |data|, 0))
  }

  function HandleGetInfo(e: Engine, request: Packet): Step {
    Accept(e, WithPayload(MakeResponse(request, OK), InfoBytes(e)), NoAction)
  }

  function HandleGetLog(e: Engine, request: Packet, io: Io): Step {
    if !e.hasLog then Accept(e, MakeResponse(request, OK), NoAction)
    else if !io.ok || |io.reply| > PAYLOAD_SIZE then Refuse(e, request, BACKEND_ERROR)
    else Accept(e, WithPayload(MakeResponse(request, OK), io.reply), NoAction)
  }

  function HandleReadKnobs(e: Engine, request: Packet, io: Io): Step {
    if !e.hasKnobs then Refuse(e, request, BAD_COMMAND)
    else if !io.ok || |io.reply| != PAYLOAD_SIZE then Refuse(e, request, BACKEND_ERROR)
    else Accept(e, WithPayload(MakeResponse(request, OK), io.reply), NoAction)
  }

  function HandleBegin(e: Engine, request: Packet): Step {
    var target := PacketSlot(request.flags);
    if target == e.bootState.confirmed || target == e.active then Refuse(e, request, ACTIVE_SLOT)
    else if request.offset < MINIMUM_IMAGE || request.offset > SLOT_SIZE then Refuse(e, request, RANGE_DENIED)
    else
      var session := NextSession(e.seed);
      Accept(e.(session := session, seed := session, expectedSequence := 1, nextWrite := 0,
                imageSize := request.offset, target := target, fullSession := false,
                phase := PHASE_BEGUN, previous := None),
             MakeResponse(request, OK).(session := session), NoAction)
  }

  function HandleBeginFullFlash(e: Engine, request: Packet): Step
    requires Formed(request)
  {
    if !e.fullEnabled then Refuse(e, request, FULL_FLASH_DISABLED)
    else if request.session != FULL_FLASH_UNLOCK || request.sequence != 0 then Refuse(e, request, INVALID_STATE)
    else if request.offset != FLASH_SIZE then Refuse(e, request, RANGE_DENIED)
    else
      var session := NextSession(e.seed);
      Accept(e.(session := session, seed := session, expectedSequence := 1, nextWrite := 0, fullErase := 0,
                imageSize := FLASH_SIZE, target := SLOT_NONE, phase := PHASE_BEGUN, previous := None,
                fullSession := true, imageSha := request.payload),
             MakeResponse(request, OK).(session := session), NoAction)
  }

  /** The declared size rounded up to whole erase sectors. */
  function EraseLength(size: nat): nat { (size + NOR_SECTOR_SIZE - 1) / NOR_SECTOR_SIZE * NOR_SECTOR_SIZE }

  function HandleEraseSlot(e: Engine, request: Packet, io: Io): Step {
    if e.phase != PHASE_BEGUN && e.phase != PHASE_ERASED then Refuse(e, request, INVALID_STATE)
    else
      var range := ResolveRange(e.target, 0, e.imageSize);
      if range.Denied? then Refuse(e, request, BAD_SLOT)
      else
        var action := EraseFlash(range.offset, EraseLength(e.imageSize));
        if !io.ok then Refuse(e, request, BACKEND_ERROR).(action := action)
        else Accept(e.(nextWrite := 0, phase := PHASE_ERASED), MakeResponse(request, OK), action)
  }

  function FullEraseLength(e: Engine): nat
    requires e.fullErase <= FLASH_SIZE
  {
    if FLASH_SIZE - e.fullErase > FULL_ERASE_CHUNK then FULL_ERASE_CHUNK else FLASH_SIZE - e.fullErase
  }

  function HandleEraseFullFlash(e: Engine, request: Packet, io: Io): Step
    requires e.fullErase <= FLASH_SIZE
  {
    if !e.fullEnabled || !e.fullSession then Refuse(e, request, FULL_FLASH_DISABLED)
    else if e.phase != PHASE_BEGUN then Refuse(e, request, INVALID_STATE)
    else if request.offset != e.fullErase then Refuse(e, request, WRITE_ORDER)
    else
      var length := FullEraseLength(e);
      var action := EraseFlash(e.fullErase, length);
      if !io.ok then Refuse(e, request, BACKEND_ERROR).(action := action)
      else
        var next := e.fullErase + length;
        var e' := e.(fullErase := next);
        Accept(if next == FLASH_SIZE then e'.(nextWrite := 0, phase := PHASE_ERASED) else e',
               MakeResponse(request, OK).(offset := next), action)
  }

  function HandleWrite(e: Engine, request: Packet, io: Io): Step
    requires Formed(request) && request.length <= PAYLOAD_SIZE
  {
    if e.phase != PHASE_ERASED && e.phase != PHASE_WRITING then Refuse(e, request, INVALID_STATE)
    else if request.offset != e.nextWrite then Refuse(e, request, WRITE_ORDER)
    else
      var range := TargetRange(e, request);
      if range.Denied? then Refuse(e, request, range.status)
      else
        var action := ProgramFlash(range.offset, request.payload[..request.length]);
        if !io.ok then Refuse(e, request, BACKEND_ERROR).(action := action)
        else Accept(e.(nextWrite := e.nextWrite + request.length, phase := PHASE_WRITING),
                    MakeResponse(request, OK), action)
  }

  function HandleRead(e: Engine, mem: Bytes, request: Packet, io: Io): Step
    requires |mem| == FLASH_SIZE && request.length <= PAYLOAD_SIZE && e.imageSize <= FLASH_SIZE
  {
    if e.phase < PHASE_ERASED then Refuse(e, request, INVALID_STATE)
    else
      var range := TargetRange(e, request);
      if range.Denied? then Refuse(e, request, range.status)
      else if !io.ok then Refuse(e, request, BACKEND_ERROR)
      else Accept(e, WithPayload(MakeResponse(request, OK), mem[range.offset..range.offset + request.length]), NoAction)
  }

  /** validate_stored_image when every read succeeds: the bootloader's own
      condition, on bytes the session has written. */
  predicate StoredImageValid(e: Engine, mem: Bytes)
    requires |mem| == FLASH_SIZE && SlotValid(e.target)
  {
    var slot := SlotBytes(mem, e.target);
    ImageValid(slot) && MANIFEST_SIZE + ImageSize(Manifest(slot)) <= e.nextWrite
  }

  function HandleFinalize(e: Engine, mem: Bytes, request: Packet, io: Io): Step
    requires |mem| == FLASH_SIZE
  {
    if e.phase != PHASE_WRITING || e.nextWrite != e.imageSize then Refuse(e, request, INVALID_STATE)
    else if !io.ok || !SlotValid(e.target) then Refuse(e, request, BACKEND_ERROR)
    else if !StoredImageValid(e, mem) then Refuse(e, request, IMAGE_INVALID)
    else Accept(e.(phase := PHASE_FINALIZED), MakeResponse(request, OK), NoAction)
  }

  function HandleFinalizeFullFlash(e: Engine, mem: Bytes, request: Packet, io: Io): Step
    requires |mem| == FLASH_SIZE
  {
    if !e.fullEnabled || !e.fullSession then Refuse(e, request, FULL_FLASH_DISABLED)
    else if e.phase != PHASE_WRITING || e.nextWrite != FLASH_SIZE then Refuse(e, request, INVALID_STATE)
    else if !io.ok then Refuse(e, request, BACKEND_ERROR)
    else if Sha256Spec.Hash(mem) != e.imageSha then Refuse(e, request, IMAGE_INVALID)
    else Accept(e.(phase := PHASE_FINALIZED), MakeResponse(request, OK), NoAction)
  }

  function HandleSetPending(e: Engine, request: Packet, io: Io): Step {
    if e.phase != PHASE_FINALIZED then Refuse(e, request, NOT_FINALIZED)
    else
      var next := Begun(e.bootState, e.target);
      if next.pending != e.target then Refuse(e, request, INVALID_STATE)
      else if !io.ok then Refuse(e, request, BACKEND_ERROR).(action := StoreState(next))
      else Accept(e.(bootState := next, phase := PHASE_PENDING), MakeResponse(request, OK), StoreState(next))
  }

  function HandleReboot(e: Engine, request: Packet): Step {
    if e.phase != (if e.fullSession then PHASE_FINALIZED else PHASE_PENDING) then Refuse(e, request, INVALID_STATE)
    else Accept(e, MakeResponse(request, OK), NoAction)
  }

  /** Sizes the fields always stay within. */
  predicate Bounded(e: Engine) {
    && e.fullErase <= FLASH_SIZE
    && e.imageSize <= FLASH_SIZE
    && (!e.fullSession ==> e.imageSize <= SLOT_SIZE)
    && e.nextWrite <= e.imageSize
  }

  /** dispatch_command */
  function Dispatch(e: Engine, mem: Bytes, request: Packet, io: Io): Step
    requires Formed(request) && request.length <= PAYLOAD_SIZE && |mem| == FLASH_SIZE && Bounded(e)
  {
    if request.command == GET_INFO then HandleGetInfo(e, request)
    else if request.command == BEGIN_IMAGE then HandleBegin(e, request)
    else if request.command == ERASE_SLOT then HandleEraseSlot(e, request, io)
    else if request.command == WRITE_CHUNK then HandleWrite(e, request, io)
    else if request.command == READ_CHUNK then HandleRead(e, mem, request, io)
    else if request.command == FINALIZE_IMAGE then HandleFinalize(e, mem, request, io)
    else if request.command == SET_PENDING then HandleSetPending(e, request, io)
    else if request.command == REBOOT then HandleReboot(e, request)
    else if request.command == GET_LOG then HandleGetLog(e, request, io)
    else if request.command == READ_KNOBS then HandleReadKnobs(e, request, io)
    else if request.command == BEGIN_FULL_FLASH then HandleBeginFullFlash(e, request)
    else if request.command == ERASE_FULL_FLASH then HandleEraseFullFlash(e, request, io)
    else if request.command == FINALIZE_FULL_FLASH then HandleFinalizeFullFlash(e, mem, request, io)
    else Refuse(e, request, BAD_COMMAND)
  }

  /** Session, sequence and flag checks before any handler runs. */
  function Admit(e: Engine, request: Packet): uint16 {
    if UsesSession(request.command) then
      if e.phase == PHASE_IDLE then INVALID_STATE
      else if request.session != e.session then BAD_SESSION
      else if request.sequence != e.expectedSequence then BAD_SEQUENCE
      else if e.fullSession && request.flags != FLAG_FULL_FLASH then BAD_FLAGS
      else if !e.fullSession && (FullFlag(request.flags) || PacketSlot(request.flags) != e.target) then BAD_SLOT
      else OK
    else if request.command == BEGIN_FULL_FLASH then
      if request.session != FULL_FLASH_UNLOCK || request.sequence != 0 then INVALID_STATE else OK
    else if request.session != 0 || request.sequence != 0 then INVALID_STATE
    else OK
  }

  predicate Cached(e: Engine, request: Packet) {
    e.previous.Some? && Cacheable(request.command) && request == e.previous.value.request
  }

  /** Sequence step and retry cache after an accepted command. */
  function Commit(s: Step, request: Packet): Step
    requires Formed(s.response)
  {
    var response := Finalize(s.response.(status := s.status));
    if s.status != OK then s.(response := response)
    else
      var e1 := if UsesSession(request.command)
                then s.engine.(expectedSequence := Wrap32(s.engine.expectedSequence + 1)) else s.engine;
      var e2 := if Cacheable(request.command) then e1.(previous := Some(Exchange(request, response))) else e1;
      Step(OK, e2, response, s.action)
  }

  lemma HandlersFormResponses(e: Engine, mem: Bytes, request: Packet, io: Io)
    requires Formed(request) && request.length <= PAYLOAD_SIZE && |mem| == FLASH_SIZE && Bounded(e)
    ensures Formed(Dispatch(e, mem, request, io).response)
  {
    hide StoredImageValid, Sha256Spec.Hash, ResolveRange, NextSession, InfoBytes, Begun;
  }

  /** recovery_engine_process. A served retry reports the cached status and
      changes nothing. */
  function Process(e: Engine, mem: Bytes, request: Packet, io: Io): Step
    requires Formed(request) && |mem| == FLASH_SIZE && Bounded(e)
  {
    if ValidateCommon(request) != OK then
      Refuse(e, request, ValidateCommon(request)).(response := Finalize(MakeResponse(request, ValidateCommon(request))))
    else if Cached(e, request) then
      Step(e.previous.value.response.status, e, e.previous.value.response, NoAction)
    else if Admit(e, request) != OK then
      Refuse(e, request, Admit(e, request)).(response := Finalize(MakeResponse(request, Admit(e, request))))
    else
      HandlersFormResponses(e, mem, request, io);
      Commit(Dispatch(e, mem, request, io), request)
  }

  /** recovery_engine_init over a zeroed struct. */
  function Fresh(state: State, active: uint8, seed: uint32, hasKnobs: bool, hasLog: bool): Engine {
    Engine(state, None, 0, 0, 0, 0, 0, if seed == 0 then DEFAULT_SEED else seed, Filled(Sha256Spec.DIGEST, 0),
           active, SLOT_NONE, PHASE_IDLE, false, false, hasKnobs, hasLog)
  }
}
