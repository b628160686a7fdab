/** Reports that a device is sure to answer: the first copy that arrives is
    executed, and every later one is served from the retry cache. */
module Serving {
  import opened Words
  import opened BootState
  import opened Nor
  import opened Protocol
  import opened EngineSpec
  import opened RecoveryEngine
  import opened EngineProofs
  import opened BootFaults
  import opened Retry
  import opened Sessions
  import Journal
  import Sha256Spec

  /** What the client checks of a decoded reply. */
  predicate Matches(request: HostPacket, begin: bool, reply: HostPacket) {
    && reply.command == request.command && reply.flags == request.flags && reply.sequence == request.sequence
    && (!begin ==> reply.session == request.session)
  }

  /** A reply that the client takes for success. */
  predicate Fits(h: HostPacket, begin: bool, response: Packet) {
    && Formed(response) && HostDecode(response).Some?
    && Matches(h, begin, HostDecode(response).value) && HostDecode(response).value.status == OK
  }

  /** Every copy of this report will be answered with OK, on a chip that never
      fails. */
  ghost predicate Serves(s: Snap, h: HostPacket, begin: bool)
    requires Encodable(h)
  {
    var p := HostEncode(h);
    && |s.mem| == FLASH_SIZE && Bounded(s.engine) && ValidateCommon(p) == OK && p.length <= PAYLOAD_SIZE
    && if Cached(s.engine, p) then Fits(h, begin, s.engine.previous.value.response)
       else Admit(s.engine, p) == OK && !MayFail(s.engine, s.mem, p) && Dispatch(s.engine, s.mem, p, WORKS).status == OK
  }

  /** The command has been executed, and its flash action has worked. */
  ghost predicate Performed(a: Snap, h: HostPacket, b: Snap)
    requires Encodable(h)
  {
    && |a.mem| == |b.mem| == FLASH_SIZE && Bounded(a.engine)
    && var s := Process(a.engine, a.mem, HostEncode(h), WORKS);
    && s.status == OK && b.engine == s.engine && Acts(a.mem, s.action, true, b.mem)
  }

  // ---- What a handler's reply says ----

  lemma OnlySuccessMatters(e: Engine, mem: Bytes, p: Packet, io: Io)
    requires Formed(p) && p.length <= PAYLOAD_SIZE && |mem| == FLASH_SIZE && Bounded(e)
    requires io.ok && p.command != GET_LOG && p.command != READ_KNOBS
    ensures Dispatch(e, mem, p, io) == Dispatch(e, mem, p, WORKS)
  {
    hide StoredImageValid, Sha256Spec.Hash, NextSession, InfoBytes, MakeResponse, ResolveRange, Begun;
  }

  /** A reply repeats the header of its request. */
  predicate Repeated(p: Packet, response: Packet) {
    && response.magic == PACKET_MAGIC && response.version == PROTOCOL_VERSION && response.command == p.command
    && response.flags == p.flags && response.sequence == p.sequence && response.length <= PAYLOAD_SIZE
    && (!OpensSession(p.command) ==> response.session == p.session)
    && (p.command != ERASE_FULL_FLASH ==> response.offset == p.offset)
  }

  /** Whatever a handler makes of a request, its reply repeats the header. */
  lemma HandlersRepeat(e: Engine, mem: Bytes, p: Packet, io: Io)
    requires Formed(p) && p.length <= PAYLOAD_SIZE && |mem| == FLASH_SIZE && Bounded(e)
    ensures Repeated(p, Dispatch(e, mem, p, io).response)
  {
    hide Dispatch, Repeated, Bounded;
    if p.command <= READ_CHUNK { EarlyRepeat(e, mem, p, io); } else { LateRepeat(e, mem, p, io); }
  }

  lemma EarlyRepeat(e: Engine, mem: Bytes, p: Packet, io: Io)
    requires Formed(p) && p.length <= PAYLOAD_SIZE && |mem| == FLASH_SIZE && Bounded(e)
    requires p.command <= READ_CHUNK
    ensures Repeated(p, Dispatch(e, mem, p, io).response)
  {
    hide HandleFinalize, HandleSetPending, HandleReboot, HandleGetLog, HandleReadKnobs, HandleBeginFullFlash, HandleEraseFullFlash;
    hide HandleFinalizeFullFlash;
    hide StoredImageValid, Sha256Spec.Hash, NextSession, InfoBytes, ResolveRange, Begun, Capabilities, TargetRange, FullEraseLength, EraseLength;
  }

  lemma LateRepeat(e: Engine, mem: Bytes, p: Packet, io: Io)
    requires Formed(p) && p.length <= PAYLOAD_SIZE && |mem| == FLASH_SIZE && Bounded(e)
    requires p.command > READ_CHUNK
    ensures Repeated(p, Dispatch(e, mem, p, io).response)
  {
    hide HandleGetInfo, HandleBegin, HandleEraseSlot, HandleWrite, HandleRead;
    hide StoredImageValid, Sha256Spec.Hash, NextSession, InfoBytes, ResolveRange, Begun, Capabilities, TargetRange, FullEraseLength, EraseLength;
  }

  /** A finalized reply is one the client accepts. */
  lemma RepeatedFits(h: HostPacket, begin: bool, response: Packet)
    requires Encodable(h) && Formed(response) && Repeated(HostEncode(h), response) && (OpensSession(h.command) ==> begin)
    ensures Fits(h, begin, Protocol.Finalize(response.(status := OK)))
  {
    hide HostEncode, Validate;
    HostPacketFields(h);
    FinalizedIsValid(response.(status := OK));
    FinalizeKeeps(response.(status := OK));
  }

  lemma FinalizeKeeps(p: Packet)
    requires Formed(p)
    ensures var q := Protocol.Finalize(p);
      && Formed(q) && q.command == p.command && q.flags == p.flags && q.session == p.session && q.sequence == p.sequence
      && q.status == p.status && q.length == p.length
  {}

  // ---- Copies ----

  /** One copy is answered with OK, and so will be every later one. */
  lemma CopyIsServed(a: Snap, i: Input, b: Snap, h: HostPacket, begin: bool)
    requires Encodable(h) && Cacheable(h.command) && (OpensSession(h.command) ==> begin)
    requires EngineStep(a, i, b) && Sane(a) && Serves(a, h, begin) && i.request == HostEncode(h)
    requires i.io.ok || MayFail(a.engine, a.mem, i.request)
    ensures Fits(h, begin, Process(a.engine, a.mem, i.request, i.io).response)
    ensures Sane(b) && Serves(b, h, begin) && Cached(b.engine, i.request)
    ensures if Cached(a.engine, i.request) then b == a else Performed(a, h, b)
  {
    hide HostEncode, ValidateCommon, Dispatch, Process, Acts, Fits, Admit, Protocol.Finalize, Sane, MayFail;
    var p := i.request;
    HostPacketFields(h);
    SaneStep(a, i, b);
    SaneIsBounded(b);
    if Cached(a.engine, p) {
      CachedIsServed(a.engine, a.mem, p, i.io);
      NothingActed(a.mem, i.io.ok, b.mem);
    } else {
      FirstCopy(a, i, b, h, begin);
    }
  }

  lemma SaneIsBounded(s: Snap)
    requires Sane(s)
    ensures |s.mem| == FLASH_SIZE && Sound(s.engine) && Bounded(s.engine)
  {}

  lemma NothingActed(mem: Bytes, ok: bool, after: Bytes)
    requires |mem| == FLASH_SIZE && Acts(mem, NoAction, ok, after)
    ensures after == mem
  {}

  lemma CachedIsServed(e: Engine, mem: Bytes, p: Packet, io: Io)
    requires Formed(p) && |mem| == FLASH_SIZE && Bounded(e) && ValidateCommon(p) == OK && Cached(e, p)
    ensures var s := Process(e, mem, p, io);
      s.engine == e && s.response == e.previous.value.response && s.action == NoAction
  {
    hide Dispatch, ValidateCommon, Protocol.Finalize;
  }

  lemma FirstCopy(a: Snap, i: Input, b: Snap, h: HostPacket, begin: bool)
    requires Encodable(h) && Cacheable(h.command) && (OpensSession(h.command) ==> begin)
    requires EngineStep(a, i, b) && Serves(a, h, begin) && i.request == HostEncode(h) && !Cached(a.engine, i.request)
    requires i.io.ok || MayFail(a.engine, a.mem, i.request)
    ensures Fits(h, begin, Process(a.engine, a.mem, i.request, i.io).response)
    ensures Cached(b.engine, i.request) && b.engine.previous.value.response == Process(a.engine, a.mem, i.request, i.io).response
    ensures Performed(a, h, b)
  {
    var e, p := a.engine, i.request;
    HostPacketFields(h);
    NoDiagnostics(e, a.mem, p);
    hide HostEncode, ValidateCommon, Dispatch, Acts, Fits, Admit, Cached, Protocol.Finalize, MayFail, Process, Repeated;
    ReachedIsCommitted(e, a.mem, p, i.io);
    ReachedIsCommitted(e, a.mem, p, WORKS);
    OnlySuccessMatters(e, a.mem, p, i.io);
    HandlersRepeat(e, a.mem, p, WORKS);
    var s := Dispatch(e, a.mem, p, WORKS);
    CommitCaches(s, p);
    RepeatedFits(h, begin, s.response);
  }

  lemma NoDiagnostics(e: Engine, mem: Bytes, p: Packet)
    requires |mem| == FLASH_SIZE && !MayFail(e, mem, p)
    ensures p.command != GET_LOG && p.command != READ_KNOBS
  {}

  lemma CommitCaches(s: Step, p: Packet)
    requires Formed(s.response) && s.status == OK && Cacheable(p.command)
    ensures var c := Commit(s, p);
      && c.status == OK && c.response == Protocol.Finalize(s.response.(status := OK))
      && Cached(c.engine, p) && c.engine.previous.value.response == c.response
  {
    hide Protocol.Finalize;
  }

  // ---- The reports of an upload ----

  lemma ReachedIsServed(s: Snap, h: HostPacket, begin: bool)
    requires Encodable(h) && |s.mem| == FLASH_SIZE && Bounded(s.engine)
    requires var p := HostEncode(h);
      && Reaches(s.engine, p) && !MayFail(s.engine, s.mem, p) && p.length <= PAYLOAD_SIZE
      && Dispatch(s.engine, s.mem, p, WORKS).status == OK
    ensures Serves(s, h, begin) && !Cached(s.engine, HostEncode(h))
  {
    hide HostEncode, Dispatch, ValidateCommon, Admit, Fits;
  }

  const INFO_REQUEST: HostPacket := HostPacket(GET_INFO, 0, 0, 0, 0, Protocol.OK, [])

  lemma InfoIsValid()
    ensures var p := HostEncode(INFO_REQUEST);
      && ValidateCommon(p) == OK && p.command == GET_INFO && p.session == p.sequence == 0 && p.length == 0
  {
    hide HostEncode, Validate;
    HostRoundTrip(INFO_REQUEST);
    HostPacketFields(INFO_REQUEST);
  }

  lemma InfoIsServed(s: Snap)
    requires Sane(s)
    ensures Serves(s, INFO_REQUEST, false)
  {
    hide HostEncode, Fits, Sound, Vouched, CacheBehind, ValidateCommon, Protocol.Finalize, Dispatch, HandleGetInfo, Bounded;
    InfoIsValid();
    SaneIsBounded(s);
    var p := HostEncode(INFO_REQUEST);
    InfoRepeats(s.engine, p);
    RepeatedFits(INFO_REQUEST, false, HandleGetInfo(s.engine, p).response);
    InfoDispatch(s.engine, s.mem, p);
  }

  lemma InfoRepeats(e: Engine, p: Packet)
    requires Formed(p)
    ensures Repeated(p, HandleGetInfo(e, p).response) && HandleGetInfo(e, p).status == OK
    ensures Formed(HandleGetInfo(e, p).response)
  {
    hide InfoBytes;
  }

  lemma InfoDispatch(e: Engine, mem: Bytes, p: Packet)
    requires Formed(p) && p.length <= PAYLOAD_SIZE && |mem| == FLASH_SIZE && Bounded(e) && p.command == GET_INFO
    ensures Dispatch(e, mem, p, WORKS) == HandleGetInfo(e, p) && HandleGetInfo(e, p).engine == e && HandleGetInfo(e, p).action == NoAction
  {
    hide InfoBytes;
  }

  /** The device has answered, whether for the first time or once more. */
  ghost predicate Delivered(a: Snap, h: HostPacket, b: Snap)
    requires Encodable(h)
  {
    if Cached(a.engine, HostEncode(h)) then b == a else Performed(a, h, b)
  }

  lemma ProcessedIsReached(e: Engine, mem: Bytes, p: Packet)
    requires Formed(p) && |mem| == FLASH_SIZE && Bounded(e) && !Cached(e, p) && Process(e, mem, p, WORKS).status == OK
    ensures Reaches(e, p)
  {
    hide Dispatch, ValidateCommon, Admit, Cached, Protocol.Finalize, Commit;
  }

  lemma InfoLeaves(a: Snap, b: Snap)
    requires Sane(a) && Delivered(a, INFO_REQUEST, b)
    ensures b.mem == a.mem && b.engine == a.engine.(previous := b.engine.previous)
    ensures b.engine.previous.Some? && b.engine.previous.value.request.command == GET_INFO
  {
    hide HostEncode, Sane, ValidateCommon, Protocol.Finalize, HandleGetInfo, Sound, Bounded, Dispatch, Process;
    InfoIsValid();
    SaneIsBounded(a);
    var p := HostEncode(INFO_REQUEST);
    InfoDispatch(a.engine, a.mem, p);
    if !Cached(a.engine, p) {
      ProcessedIsReached(a.engine, a.mem, p);
      ReachedIsCommitted(a.engine, a.mem, p, WORKS);
    }
  }

  lemma BeginIsServed(s: Snap, slot: uint8, size: nat)
    requires |s.mem| == FLASH_SIZE && Sound(s.engine) && Free(s.engine, slot) && MINIMUM_IMAGE <= size <= SLOT_SIZE
    requires s.engine.previous.Some? ==> s.engine.previous.value.request.command != BEGIN_IMAGE
    ensures Serves(s, BeginReport(slot, size), true) && !Cached(s.engine, HostEncode(BeginReport(slot, size)))
  {
    hide Sound, HostEncode, Reaches, Dispatch, Bounded;
    SoundIsBounded(s.engine);
    BeginAccepted(s.engine, s.mem, slot, size);
    HostPacketFields(BeginReport(slot, size));
    ReachedIsServed(s, BeginReport(slot, size), true);
  }

  lemma BeginLeaves(a: Snap, slot: uint8, size: nat, b: Snap)
    requires |a.mem| == FLASH_SIZE && Sound(a.engine) && Free(a.engine, slot) && MINIMUM_IMAGE <= size <= SLOT_SIZE
    requires a.engine.previous.Some? ==> a.engine.previous.value.request.command != BEGIN_IMAGE
    requires Performed(a, BeginReport(slot, size), b)
    ensures b.mem == a.mem && SameBoot(a.engine, b.engine) && Sound(b.engine) && Running(b.engine, slot, size, 1)
    ensures b.engine.phase == PHASE_BEGUN && b.engine.session != 0
  {
    hide Sound, HostEncode, Process, EngineStep, Free, Running;
    var i, next := BeginGoes(a.engine, a.mem, slot, size);
  }

  lemma EraseIsServed(s: Snap, slot: uint8, size: nat)
    requires |s.mem| == FLASH_SIZE && Sound(s.engine) && Running(s.engine, slot, size, 1) && SlotValid(slot)
    requires s.engine.phase == PHASE_BEGUN && MINIMUM_IMAGE <= size <= SLOT_SIZE
    ensures Serves(s, EraseReport(s.engine), false) && !Cached(s.engine, HostEncode(EraseReport(s.engine)))
  {
    hide Sound, HostEncode, Reaches, Dispatch, Bounded, Process;
    SoundIsBounded(s.engine);
    EraseAccepted(s, slot, size);
    HostPacketFields(EraseReport(s.engine));
    ReachedIsServed(s, EraseReport(s.engine), false);
  }

  lemma EraseLeaves(a: Snap, slot: uint8, image: Bytes, b: Snap)
    requires |a.mem| == FLASH_SIZE && Sound(a.engine) && Running(a.engine, slot, |image|, 1) && SlotValid(slot)
    requires a.engine.phase == PHASE_BEGUN && MINIMUM_IMAGE <= |image| <= SLOT_SIZE
    requires Performed(a, EraseReport(a.engine), b)
    ensures Sent(b, a.mem, slot, image, 0) && Onward(a.engine, b.engine)
  {
    hide Sound, HostEncode, Process, EngineStep, Acts, Sent, Onward, Bounded, Dispatch, Reaches;
    EraseAccepted(a, slot, |image|);
    var next := EraseTaken(a, slot, image, b.mem);
    assert next == b;
  }

  lemma WriteIsServed(s: Snap, mem0: Bytes, slot: uint8, image: Bytes, n: nat, m: nat)
    requires Sent(s, mem0, slot, image, n) && n < m <= |image| && m <= n + PAYLOAD_SIZE
    ensures var h := WriteReport(s.engine, image[n..m]); Serves(s, h, false) && !Cached(s.engine, HostEncode(h))
  {
    WriteAccepted(s, mem0, slot, image, n, m);
    SoundIsBounded(s.engine);
    HostPacketFields(WriteReport(s.engine, image[n..m]));
    hide Sent, Sound, HostEncode, Reaches, Dispatch, Bounded, Process;
    ReachedIsServed(s, WriteReport(s.engine, image[n..m]), false);
  }

  lemma WriteLeaves(a: Snap, mem0: Bytes, slot: uint8, image: Bytes, n: nat, m: nat, b: Snap)
    requires Sent(a, mem0, slot, image, n) && n < m <= |image| && m <= n + PAYLOAD_SIZE
    requires Performed(a, WriteReport(a.engine, image[n..m]), b)
    ensures Sent(b, mem0, slot, image, m) && Onward(a.engine, b.engine)
  {
    WriteAccepted(a, mem0, slot, image, n, m);
    hide Sound, HostEncode, Process, EngineStep, Acts, Onward, Bounded, Dispatch, Reaches, Holds, SameOutside;
    var next := WriteTaken(a, mem0, slot, image, n, m, b.mem);
    assert next == b;
  }

  lemma FinalizeIsServed(s: Snap, mem0: Bytes, slot: uint8, image: Bytes)
    requires Sent(s, mem0, slot, image, |image|) && Complete(image)
    ensures Serves(s, FinalizeReport(s.engine), false) && !Cached(s.engine, HostEncode(FinalizeReport(s.engine)))
  {
    FinalizeAccepted(s, mem0, slot, image);
    SoundIsBounded(s.engine);
    HostPacketFields(FinalizeReport(s.engine));
    hide Sent, Sound, HostEncode, Reaches, Dispatch, Bounded, Process, Complete;
    ReachedIsServed(s, FinalizeReport(s.engine), false);
  }

  lemma FinalizeLeaves(a: Snap, mem0: Bytes, slot: uint8, image: Bytes, b: Snap)
    requires Sent(a, mem0, slot, image, |image|) && Complete(image)
    requires Performed(a, FinalizeReport(a.engine), b)
    ensures b.mem == a.mem && Onward(a.engine, b.engine) && Sound(b.engine) && b.engine.phase == PHASE_FINALIZED
    ensures Running(b.engine, slot, |image|, b.engine.expectedSequence) && b.engine.expectedSequence <= |image| + 3
  {
    FinalizeAccepted(a, mem0, slot, image);
    hide Sound, HostEncode, Process, EngineStep, Onward, Bounded, Dispatch, Reaches, Holds, SameOutside, Complete, Running;
    var i, next := FinalizeGoes(a, mem0, slot, image);
  }

  lemma PendingIsServed(s: Snap, slot: uint8, size: nat)
    requires |s.mem| == FLASH_SIZE && Sound(s.engine) && Free(s.engine, slot)
    requires Running(s.engine, slot, size, s.engine.expectedSequence) && s.engine.expectedSequence + 1 < WORD
    requires s.engine.phase == PHASE_FINALIZED && Journal.Advances(Cells(s.mem), Begun(s.engine.bootState, slot))
    ensures Serves(s, PendingReport(s.engine), false) && !Cached(s.engine, HostEncode(PendingReport(s.engine)))
  {
    PendingAccepted(s, slot, size);
    SoundIsBounded(s.engine);
    HostPacketFields(PendingReport(s.engine));
    hide Sound, HostEncode, Reaches, Dispatch, Bounded, Process, Begun, Journal.Advances;
    ReachedIsServed(s, PendingReport(s.engine), false);
  }
}
