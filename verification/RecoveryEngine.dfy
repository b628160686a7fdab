/** recovery_engine.c: the session machine behind the update reports. The C
    struct is updated in place member by member; each handler is proved against
    its function in EngineSpec. */
module RecoveryEngine {
  import opened Words
  import opened BootState
  import opened Nor
  import opened Protocol
  import opened Image
  import opened EngineSpec
  import Crc
  import Journal
  import Sha256
  import Sha256Spec

  /** A flash action's effect, given whether the backend reported success. */
  ghost predicate Acts(before: Bytes, action: Action, ok: bool, after: Bytes)
    requires |before| == FLASH_SIZE
  {
    match action
    case NoAction => after == before
    case EraseFlash(at, n) => at + n <= FLASH_SIZE && EraseEffect(before, after, at, n, ok)
    case ProgramFlash(at, data) => at + |data| <= FLASH_SIZE && ProgramEffect(before, after, at, data, ok)
    case StoreState(state) => Stores(before, state, ok, after)
  }

  ghost predicate Stores(before: Bytes, state: State, ok: bool, after: Bytes)
    requires |before| == FLASH_SIZE
  {
    && SameOutside(before, after, METADATA_OFFSET, JOURNAL_SIZE)
    && exists status: Journal.Status ::
         Journal.StoreEffect(Cells(before), state, Cells(after), status) && ok == (status == Journal.Ok)
  }

  lemma NothingErased(mem: Bytes, at: nat, n: nat)
    requires |mem| == FLASH_SIZE && at + n <= FLASH_SIZE
    ensures EraseEffect(mem, mem, at, n, false)
  {}

  lemma NothingProgrammed(mem: Bytes, at: nat, data: Bytes)
    requires |mem| == FLASH_SIZE && at + |data| <= FLASH_SIZE
    ensures ProgramEffect(mem, mem, at, data, false)
  {
    forall i | 0 <= i < |data| ensures Between(mem[at + i], mem[at + i], data[i]) {
      BetweenSelf(mem[at + i], data[i]);
    }
  }

  lemma BetweenSelf(b: byte, d: byte)
    ensures Between(b, b, d)
  {}

  lemma EraseFits(size: nat, slot: uint8)
    requires 0 < size <= SLOT_SIZE && SlotValid(slot)
    ensures SlotOffset(slot) + EraseLength(size) <= SlotOffset(slot) + SLOT_SIZE <= FLASH_SIZE
    ensures size <= EraseLength(size)
  {}

  /** The commands whose backend may refuse although no flash call fails: the
      diagnostic ones, and SET_PENDING for a state the journal does not take for
      newer than its own. */
  predicate MayFail(e: Engine, mem: Bytes, request: Packet)
    requires |mem| == FLASH_SIZE
  {
    || request.command == GET_LOG || request.command == READ_KNOBS
    || (request.command == SET_PENDING && !Journal.Advances(Cells(mem), Begun(e.bootState, e.target)))
  }

  /** The fewest whole sectors that cover the declared size. */
  lemma EraseIsWholeSectors(size: nat)
    ensures EraseLength(size) % NOR_SECTOR_SIZE == 0 && size <= EraseLength(size) < size + NOR_SECTOR_SIZE
  {}

  class Device {
    const nor: Flash
    /** recovery_engine_t */
    var engine: Engine

    ghost predicate Valid()
      reads this, nor
    {
      nor.Valid() && Bounded(engine)
    }

    /** recovery_engine_init */
    constructor (nor: Flash, state: State, active: uint8, seed: uint32, hasKnobs: bool, hasLog: bool)
      requires nor.Valid()
      ensures Valid() && this.nor == nor
      ensures engine == Fresh(state, active, seed, hasKnobs, hasLog)
    {
      this.nor := nor;
      engine := Fresh(state, active, seed, hasKnobs, hasLog);
    }

    /** recovery_engine_enable_full_flash */
    method EnableFullFlash()
      requires Valid()
      modifies this
      ensures Valid() && engine == old(engine).(fullEnabled := true, previous := None)
    {
      engine := engine.(fullEnabled := true);
      engine := engine.(previous := None);
    }

    /** next_session */
    method StartSession()
      modifies this
      ensures var session := NextSession(old(engine).seed);
        engine == old(engine).(session := session, seed := session)
    {
      hide Scramble;
      var value := Scramble(engine.seed);
      if value == 0 { value := 1; }
      engine := engine.(seed := value);
      engine := engine.(session := value);
    }

    /** handle_begin */
    method Begin(request: Packet) returns (status: uint16, response: Packet)
      requires Valid() && Formed(request)
      modifies this
      ensures Valid()
      ensures Step(status, engine, response, NoAction) == HandleBegin(old(engine), request)
    {
      hide MakeResponse, NextSession;
      var slot := PacketSlot(request.flags);
      if slot == engine.bootState.confirmed || slot == engine.active {
        return ACTIVE_SLOT, MakeResponse(request, ACTIVE_SLOT);
      }
      if request.offset < MINIMUM_IMAGE || request.offset > SLOT_SIZE {
        return RANGE_DENIED, MakeResponse(request, RANGE_DENIED);
      }
      StartSession();
      engine := engine.(expectedSequence := 1);
      engine := engine.(nextWrite := 0);
      engine := engine.(imageSize := request.offset);
      engine := engine.(target := slot);
      engine := engine.(fullSession := false);
      engine := engine.(phase := PHASE_BEGUN);
      engine := engine.(previous := None);
      return OK, MakeResponse(request, OK).(session := engine.session);
    }

    /** handle_begin_full_flash */
    method BeginFullFlash(request: Packet) returns (status: uint16, response: Packet)
      requires Valid() && Formed(request)
      modifies this
      ensures Valid()
      ensures Step(status, engine, response, NoAction) == HandleBeginFullFlash(old(engine), request)
    {
      hide MakeResponse, NextSession;
      if !engine.fullEnabled { return FULL_FLASH_DISABLED, MakeResponse(request, FULL_FLASH_DISABLED); }
      if request.session != FULL_FLASH_UNLOCK || request.sequence != 0 {
        return INVALID_STATE, MakeResponse(request, INVALID_STATE);
      }
      if request.offset != FLASH_SIZE { return RANGE_DENIED, MakeResponse(request, RANGE_DENIED); }
      StartSession();
      engine := engine.(expectedSequence := 1);
      engine := engine.(nextWrite := 0);
      engine := engine.(fullErase := 0);
      engine := engine.(imageSize := FLASH_SIZE);
      engine := engine.(target := SLOT_NONE);
      engine := engine.(phase := PHASE_BEGUN);
      engine := engine.(previous := None);
      engine := engine.(fullSession := true);
      engine := engine.(imageSha := request.payload);
      return OK, MakeResponse(request, OK).(session := engine.session);
    }

    /** A handler's outcome, tied to its function. */
    ghost predicate Follows(s: Step, status: uint16, response: Packet, before: Bytes, io: Io)
      reads this, nor
    {
      && |before| == FLASH_SIZE && nor.Valid() && Bounded(engine)
      && s.status == status && s.engine == engine && s.response == response
      && Acts(before, s.action, io.ok, nor.mem)
    }

    /** A backend failure while the device still runs is a backend fault. */
    ghost predicate Blamed(io: Io)
      reads nor
    {
      !io.ok && nor.powered ==> nor.faults == Errors
    }

    /** A chip that runs and whose calls never fail. */
    ghost predicate Steady()
      reads nor
    {
      nor.faults == Reliable && nor.powered
    }

    /** handle_erase_slot */
    method EraseSlot(request: Packet) returns (status: uint16, response: Packet, ghost io: Io)
      requires Valid() && Formed(request) && !engine.fullSession
      modifies this, nor
      ensures Follows(HandleEraseSlot(old(engine), request, io), status, response, old(nor.mem), io)
      ensures Blamed(io) && (old(Steady()) ==> Steady())
    {
      hide MakeResponse, EraseEffect;
      io := Io(true, []);
      if engine.phase != PHASE_BEGUN && engine.phase != PHASE_ERASED {
        return INVALID_STATE, MakeResponse(request, INVALID_STATE), io;
      }
      var range := ResolveRange(engine.target, 0, engine.imageSize);
      if range.Denied? { return BAD_SLOT, MakeResponse(request, BAD_SLOT), io; }
      EraseFits(engine.imageSize, engine.target);
      var eraseLength := EraseLength(engine.imageSize);
      NothingErased(nor.mem, range.offset, eraseLength);
      var ok := nor.Erase(XIP_BASE + range.offset, eraseLength);
      io := Io(ok, []);
      if !ok { return BACKEND_ERROR, MakeResponse(request, BACKEND_ERROR), io; }
      engine := engine.(nextWrite := 0);
      engine := engine.(phase := PHASE_ERASED);
      return OK, MakeResponse(request, OK), io;
    }

    /** handle_erase_full_flash */
    method EraseFullFlash(request: Packet) returns (status: uint16, response: Packet, ghost io: Io)
      requires Valid() && Formed(request)
      modifies this, nor
      ensures Follows(HandleEraseFullFlash(old(engine), request, io), status, response, old(nor.mem), io)
      ensures Blamed(io) && (old(Steady()) ==> Steady())
    {
      hide MakeResponse, EraseEffect;
      io := Io(true, []);
      if !engine.fullEnabled || !engine.fullSession {
        return FULL_FLASH_DISABLED, MakeResponse(request, FULL_FLASH_DISABLED), io;
      }
      if engine.phase != PHASE_BEGUN { return INVALID_STATE, MakeResponse(request, INVALID_STATE), io; }
      if request.offset != engine.fullErase { return WRITE_ORDER, MakeResponse(request, WRITE_ORDER), io; }
      var eraseLength := FLASH_SIZE - engine.fullErase;
      if eraseLength > FULL_ERASE_CHUNK { eraseLength := FULL_ERASE_CHUNK; }
      NothingErased(nor.mem, engine.fullErase, eraseLength);
      var ok := nor.Erase(XIP_BASE + engine.fullErase, eraseLength);
      io := Io(ok, []);
      if !ok { return BACKEND_ERROR, MakeResponse(request, BACKEND_ERROR), io; }
      engine := engine.(fullErase := engine.fullErase + eraseLength);
      response := MakeResponse(request, OK).(offset := engine.fullErase);
      if engine.fullErase == FLASH_SIZE {
        engine := engine.(nextWrite := 0);
        engine := engine.(phase := PHASE_ERASED);
      }
      return OK, response, io;
    }

    /** handle_write */
    method Write(request: Packet) returns (status: uint16, response: Packet, ghost io: Io)
      requires Valid() && Formed(request) && request.length <= PAYLOAD_SIZE
      modifies this, nor
      ensures Follows(HandleWrite(old(engine), request, io), status, response, old(nor.mem), io)
      ensures Blamed(io) && (old(Steady()) ==> Steady())
    {
      hide MakeResponse, ProgramEffect;
      io := Io(true, []);
      if engine.phase != PHASE_ERASED && engine.phase != PHASE_WRITING {
        return INVALID_STATE, MakeResponse(request, INVALID_STATE), io;
      }
      if request.offset != engine.nextWrite { return WRITE_ORDER, MakeResponse(request, WRITE_ORDER), io; }
      var range := TargetRange(engine, request);
      if range.Denied? { return range.status, MakeResponse(request, range.status), io; }
      var data := request.payload[..request.length];
      NothingProgrammed(nor.mem, range.offset, data);
      var ok := nor.Program(XIP_BASE + range.offset, data);
      io := Io(ok, []);
      if !ok { return BACKEND_ERROR, MakeResponse(request, BACKEND_ERROR), io; }
      engine := engine.(nextWrite := engine.nextWrite + request.length);
      engine := engine.(phase := PHASE_WRITING);
      return OK, MakeResponse(request, OK), io;
    }

    /** handle_read */
    method Read(request: Packet) returns (status: uint16, response: Packet, ghost io: Io)
      requires Valid() && Formed(request) && request.length <= PAYLOAD_SIZE
      modifies this, nor`powered
      ensures Follows(HandleRead(old(engine), old(nor.mem), request, io), status, response, old(nor.mem), io)
      ensures Blamed(io) && (old(Steady()) ==> Steady())
    {
      hide MakeResponse;
      io := Io(true, []);
      if engine.phase < PHASE_ERASED { return INVALID_STATE, MakeResponse(request, INVALID_STATE), io; }
      var range := TargetRange(engine, request);
      if range.Denied? { return range.status, MakeResponse(request, range.status), io; }
      var ok, data := nor.Read(XIP_BASE + range.offset, request.length);
      io := Io(ok, []);
      if !ok { return BACKEND_ERROR, MakeResponse(request, BACKEND_ERROR), io; }
      return OK, WithPayload(MakeResponse(request, OK), data), io;
    }

    /** The read-and-hash loop of both finalizers: 32-byte reads fed to one
        streaming hash. */
    method HashRange(at: nat, n: nat) returns (ok: bool, digest: Bytes)
      requires Valid() && 0 < n && at + n <= FLASH_SIZE
      modifies nor`powered
      ensures nor.Failed(ok, true)
      ensures ok ==> digest == Sha256Spec.Hash(nor.mem[at..at + n])
    {
      hide Sha256Spec.Hash, Sha256Spec.Chain, Sha256.Context.Valid;
      var sha := new Sha256.Context();
      var address, remaining := XIP_BASE + at, n;
      ok := true;
      while remaining != 0
        invariant 0 <= remaining <= n && address == XIP_BASE + at + (n - remaining)
        invariant fresh(sha) && fresh(sha.state) && fresh(sha.block) && sha.Valid()
        invariant sha.message == nor.mem[at..at + (n - remaining)]
        invariant nor.Failed(nor.powered, true)
        invariant remaining < n ==> nor.powered
      {
        var chunk := remaining;
        if chunk > PAYLOAD_SIZE { chunk := PAYLOAD_SIZE; }
        var buffer;
        ok, buffer := nor.Read(address, chunk);
        if !ok { return false, []; }
        sha.Update(buffer);
        ghost var done := n - remaining;
        assert nor.mem[at..at + done] + nor.mem[at + done..at + done + chunk] == nor.mem[at..at + done + chunk];
        address := address + chunk;
        remaining := remaining - chunk;
      }
      digest := sha.Final();
    }

    /** validate_stored_image */
    method ValidateStoredImage() returns (status: uint16, ghost io: Io)
      requires Valid() && SlotValid(engine.target) && engine.nextWrite == engine.imageSize
      modifies nor`powered
      ensures Blamed(io) && (old(Steady()) ==> Steady())
      ensures status == if !io.ok then BACKEND_ERROR
                        else if StoredImageValid(engine, nor.mem) then OK else IMAGE_INVALID
    {
      hide Sha256Spec.Hash, VectorsValid, ManifestValid, Word32;
      ghost var slot := SlotBytes(nor.mem, engine.target);
      var slotAddress := XIP_BASE + SlotOffset(engine.target);
      var ok, manifest := nor.Read(slotAddress, HEADER_SIZE);
      io := Io(ok, []);
      if !ok { return BACKEND_ERROR, io; }
      SliceOfSlice(nor.mem, SlotOffset(engine.target), SLOT_SIZE, 0, HEADER_SIZE);
      assert manifest == Manifest(slot);
      ManifestSize(manifest);
      var manifestOk := ManifestIsValid(manifest);
      if !manifestOk { return IMAGE_INVALID, io; }
      if engine.nextWrite < MANIFEST_SIZE + ImageSize(manifest) { return IMAGE_INVALID, io; }

      var payloadAddress := slotAddress + MANIFEST_SIZE;
      var vectors;
      ok, vectors := nor.Read(payloadAddress, 8);
      io := Io(ok, []);
      if !ok { return BACKEND_ERROR, io; }
      SliceOfSlice(nor.mem, SlotOffset(engine.target), SLOT_SIZE, MANIFEST_SIZE, MANIFEST_SIZE + 8);
      assert vectors == Vectors(slot);
      if !VectorsValid(ImageSize(manifest), vectors) { return IMAGE_INVALID, io; }

      var digest;
      ok, digest := HashRange(SlotOffset(engine.target) + MANIFEST_SIZE, ImageSize(manifest));
      io := Io(ok, []);
      if !ok { return BACKEND_ERROR, io; }
      ghost var from := SlotOffset(engine.target) + MANIFEST_SIZE;
      SliceOfSlice(nor.mem, SlotOffset(engine.target), SLOT_SIZE, MANIFEST_SIZE, MANIFEST_SIZE + ImageSize(manifest));
      var equal := BytesEqual(digest, ImageHash(manifest));
      if !equal { return IMAGE_INVALID, io; }
      return OK, io;
    }

    /** handle_finalize */
    method FinalizeImage(request: Packet) returns (status: uint16, response: Packet, ghost io: Io)
      requires Valid() && Formed(request)
      modifies this, nor`powered
      ensures Follows(HandleFinalize(old(engine), old(nor.mem), request, io), status, response, old(nor.mem), io)
      ensures Blamed(io) && (old(Steady()) ==> Steady())
    {
      hide MakeResponse, StoredImageValid;
      io := Io(true, []);
      if engine.phase != PHASE_WRITING || engine.nextWrite != engine.imageSize {
        return INVALID_STATE, MakeResponse(request, INVALID_STATE), io;
      }
      if !SlotValid(engine.target) { return BACKEND_ERROR, MakeResponse(request, BACKEND_ERROR), io; }
      status, io := ValidateStoredImage();
      response := MakeResponse(request, status);
      if status == OK { engine := engine.(phase := PHASE_FINALIZED); }
    }

    /** handle_finalize_full_flash */
    method FinalizeFullFlash(request: Packet) returns (status: uint16, response: Packet, ghost io: Io)
      requires Valid() && Formed(request) && |engine.imageSha| == Sha256Spec.DIGEST
      modifies this, nor`powered
      ensures Follows(HandleFinalizeFullFlash(old(engine), old(nor.mem), request, io), status, response, old(nor.mem), io)
      ensures Blamed(io) && (old(Steady()) ==> Steady())
    {
      hide MakeResponse, Sha256Spec.Hash;
      io := Io(true, []);
      if !engine.fullEnabled || !engine.fullSession {
        return FULL_FLASH_DISABLED, MakeResponse(request, FULL_FLASH_DISABLED), io;
      }
      if engine.phase != PHASE_WRITING || engine.nextWrite != FLASH_SIZE {
        return INVALID_STATE, MakeResponse(request, INVALID_STATE), io;
      }
      var ok, digest := HashRange(0, FLASH_SIZE);
      io := Io(ok, []);
      if !ok { return BACKEND_ERROR, MakeResponse(request, BACKEND_ERROR), io; }
      assert nor.mem[0..0 + FLASH_SIZE] == nor.mem;
      var equal := BytesEqual(digest, engine.imageSha);
      if !equal { return IMAGE_INVALID, MakeResponse(request, IMAGE_INVALID), io; }
      engine := engine.(phase := PHASE_FINALIZED);
      return OK, MakeResponse(request, OK), io;
    }

    /** handle_set_pending, with storage_store_boot_state behind the backend. */
    method SetPending(request: Packet) returns (status: uint16, response: Packet, ghost io: Io)
      requires Valid() && Formed(request)
      modifies this, nor
      ensures Follows(HandleSetPending(old(engine), request, io), status, response, old(nor.mem), io)
      ensures io.ok || Blamed(io) || !Journal.Advances(Cells(old(nor.mem)), Begun(old(engine).bootState, old(engine).target))
      ensures old(Steady()) ==> Steady()
    {
      hide MakeResponse, Journal.Appended, Journal.Rotated, Storable, Newer, Newest;
      io := Io(true, []);
      if engine.phase != PHASE_FINALIZED { return NOT_FINALIZED, MakeResponse(request, NOT_FINALIZED), io; }
      var nextState := new StateVar();
      nextState.value := engine.bootState;
      nextState.BeginUpdate(engine.target);
      if nextState.value.pending != engine.target { return INVALID_STATE, MakeResponse(request, INVALID_STATE), io; }
      var stored := Journal.Store(nor, nextState.value);
      io := Io(stored == Journal.Ok, []);
      if stored != Journal.Ok { return BACKEND_ERROR, MakeResponse(request, BACKEND_ERROR), io; }
      engine := engine.(bootState := nextState.value);
      engine := engine.(phase := PHASE_PENDING);
      return OK, MakeResponse(request, OK), io;
    }

    /** handle_get_log and handle_read_knobs: bytes of a diagnostic backend. */
    method Diagnose() returns (ok: bool, reply: Bytes)
    {
      ok, reply := *, *;
    }

    /** dispatch_command */
    method Dispatch(request: Packet) returns (status: uint16, response: Packet, ghost io: Io)
      requires Valid() && Formed(request) && request.length <= PAYLOAD_SIZE
      requires |engine.imageSha| == Sha256Spec.DIGEST
      requires request.command == ERASE_SLOT ==> !engine.fullSession
      modifies this, nor
      ensures Follows(EngineSpec.Dispatch(old(engine), old(nor.mem), request, io), status, response, old(nor.mem), io)
      ensures old(Steady()) ==> Steady() && (io.ok || MayFail(old(engine), old(nor.mem), request))
    {
      hide HandleGetInfo, HandleBegin, HandleEraseSlot, HandleWrite, HandleRead, HandleFinalize, HandleSetPending,
           HandleGetLog, HandleReadKnobs, HandleBeginFullFlash, HandleEraseFullFlash, HandleFinalizeFullFlash,
           MakeResponse, EraseEffect, ProgramEffect, Stores;
      io := Io(true, []);
      if request.command == GET_INFO {
        status, response := Inform(request);
      } else if request.command == BEGIN_IMAGE {
        status, response := Begin(request);
        BeginActsOnNothing(old(engine), request);
      } else if request.command == ERASE_SLOT {
        status, response, io := EraseSlot(request);
      } else if request.command == WRITE_CHUNK {
        status, response, io := Write(request);
      } else if request.command == READ_CHUNK {
        status, response, io := Read(request);
      } else if request.command == FINALIZE_IMAGE {
        status, response, io := FinalizeImage(request);
      } else if request.command == SET_PENDING {
        status, response, io := SetPending(request);
      } else if request.command == REBOOT {
        if engine.phase != (if engine.fullSession then PHASE_FINALIZED else PHASE_PENDING) {
          return INVALID_STATE, MakeResponse(request, INVALID_STATE), io;
        }
        return OK, MakeResponse(request, OK), io;
      } else if request.command == GET_LOG || request.command == READ_KNOBS {
        var ok, reply := Diagnose();
        io := Io(ok, reply);
        status, response := Report(request, ok, reply);
      } else if request.command == BEGIN_FULL_FLASH {
        status, response := BeginFullFlash(request);
        BeginActsOnNothing(old(engine), request);
      } else if request.command == ERASE_FULL_FLASH {
        status, response, io := EraseFullFlash(request);
      } else if request.command == FINALIZE_FULL_FLASH {
        status, response, io := FinalizeFullFlash(request);
      } else {
        return BAD_COMMAND, MakeResponse(request, BAD_COMMAND), io;
      }
    }

    /** handle_get_info */
    method Inform(request: Packet) returns (status: uint16, response: Packet)
      ensures Step(status, engine, response, NoAction) == HandleGetInfo(engine, request)
    {
      hide InfoBytes, MakeResponse;
      return OK, WithPayload(MakeResponse(request, OK), InfoBytes(engine));
    }

    method Report(request: Packet, ok: bool, reply: Bytes) returns (status: uint16, response: Packet)
      requires request.command == GET_LOG || request.command == READ_KNOBS
      ensures Step(status, engine, response, NoAction) ==
        if request.command == GET_LOG then HandleGetLog(engine, request, Io(ok, reply))
        else HandleReadKnobs(engine, request, Io(ok, reply))
    {
      hide MakeResponse;
      if request.command == GET_LOG {
        if !engine.hasLog { return OK, MakeResponse(request, OK); }
        if !ok || |reply| > PAYLOAD_SIZE { return BACKEND_ERROR, MakeResponse(request, BACKEND_ERROR); }
      } else {
        if !engine.hasKnobs { return BAD_COMMAND, MakeResponse(request, BAD_COMMAND); }
        if !ok || |reply| != PAYLOAD_SIZE { return BACKEND_ERROR, MakeResponse(request, BACKEND_ERROR); }
      }
      return OK, WithPayload(MakeResponse(request, OK), reply);
    }

    /** recovery_engine_process */
    method Process(request: Packet) returns (response: Packet, ghost io: Io)
      requires Valid() && Formed(request) && |engine.imageSha| == Sha256Spec.DIGEST
      modifies this, nor
      ensures Valid() && |engine.imageSha| == Sha256Spec.DIGEST
      ensures var s := EngineSpec.Process(old(engine), old(nor.mem), request, io);
        && engine == s.engine && response == s.response
        && Acts(old(nor.mem), s.action, io.ok, nor.mem)
      ensures old(Steady()) ==> Steady() && (io.ok || MayFail(old(engine), old(nor.mem), request))
    {
      hide MayFail;
      hide EngineSpec.Dispatch, ValidateCommon, MakeResponse, Protocol.Finalize, Acts;
      io := Io(true, []);
      Untouched(nor.mem);
      var status := ValidateCommon(request);
      if status != OK { return Protocol.Finalize(MakeResponse(request, status)), io; }
      LengthFits(request);
      if Cached(engine, request) { return engine.previous.value.response, io; }
      status := Admit(engine, request);
      if status != OK { return Protocol.Finalize(MakeResponse(request, status)), io; }
      EraseOnlyInSlotSessions(engine, request);
      HandlersFormResponses(engine, nor.mem, request, io);
      status, response, io := Dispatch(request);
      HandlersFormResponses(old(engine), old(nor.mem), request, io);
      DigestKept(old(engine), old(nor.mem), request, io);
      response := Protocol.Finalize(response.(status := status));
      if status == OK {
        if UsesSession(request.command) {
          engine := engine.(expectedSequence := Wrap32(engine.expectedSequence + 1));
        }
        if Cacheable(request.command) {
          engine := engine.(previous := Some(Exchange(request, response)));
        }
      }
    }
  }

  lemma Untouched(mem: Bytes)
    requires |mem| == FLASH_SIZE
    ensures Acts(mem, NoAction, true, mem)
  {}

  lemma LengthFits(request: Packet)
    requires Formed(request) && ValidateCommon(request) == OK
    ensures request.length <= PAYLOAD_SIZE
    ensures request.command == BEGIN_FULL_FLASH ==> request.length == Sha256Spec.DIGEST
  {
    hide Crc.Crc32;
  }

  lemma EraseOnlyInSlotSessions(e: Engine, request: Packet)
    requires Formed(request) && ValidateCommon(request) == OK && Admit(e, request) == OK
    ensures request.command == ERASE_SLOT ==> !e.fullSession
  {
    hide Crc.Crc32;
  }

  lemma BeginActsOnNothing(e: Engine, request: Packet)
    requires Formed(request)
    ensures HandleBegin(e, request).action == NoAction
    ensures HandleBeginFullFlash(e, request).action == NoAction
  {
    hide NextSession;
  }

  lemma DigestKept(e: Engine, mem: Bytes, request: Packet, io: Io)
    requires Formed(request) && request.length <= PAYLOAD_SIZE && |mem| == FLASH_SIZE && Bounded(e)
    requires |e.imageSha| == Sha256Spec.DIGEST
    ensures |EngineSpec.Dispatch(e, mem, request, io).engine.imageSha| == Sha256Spec.DIGEST
  {
    hide StoredImageValid, Sha256Spec.Hash, ResolveRange, NextSession, InfoBytes, Begun, MakeResponse;
  }
}
