/** RecoveryClient of pedalctl.py: the stop-and-wait host behind a link that loses
    requests and replies. */
module Client {
  import opened Words
  import opened BootState
  import opened Nor
  import opened Protocol
  import opened Image
  import opened EngineSpec
  import opened RecoveryEngine
  import opened EngineProofs
  import opened BootMachine
  import BootProofs
  import opened Retry
  import opened Transfer
  import opened Serving
  import Journal
  import Package
  import Sessions
  import Sha256Spec

  /** RecoveryError and its transport subclass. */
  datatype Error = NoReply | BadReply | Refused(status: uint16) | Invalid

  datatype Result<+T> = Ok(value: T) | Err(error: Error)

  /** One device at the end of a USB cable. */
  class Link {
    const device: Device
    /** What came back of each exchange so far. */
    ghost var tries: seq<Option<Packet>>

    constructor (device: Device)
      ensures this.device == device && tries == []
    {
      this.device, tries := device, [];
    }

    ghost predicate Valid()
      reads device, device.nor
    {
      device.Valid() && |device.engine.imageSha| == Sha256Spec.DIGEST
    }

    ghost function Now(): Snap
      reads device, device.nor
    {
      Snap(device.engine, device.nor.mem)
    }

    /** A report either reaches the device or does not, and its reply either comes
        back or does not. */
    method Exchange(report: Packet) returns (reply: Option<Packet>, ghost delivered: Option<Input>)
      requires Valid() && Formed(report)
      modifies this`tries, device, device.nor
      ensures Valid() && tries == old(tries) + [reply]
      ensures old(device.Steady()) ==>
        && device.Steady()
        && (delivered.Some? ==> delivered.value.io.ok || MayFail(old(device.engine), old(device.nor.mem), report))
      ensures delivered == None ==> reply == None && Now() == old(Now())
      ensures delivered.Some? ==>
        && delivered.value.request == report && EngineStep(old(Now()), delivered.value, Now())
        && (reply.Some? ==> reply.value == Process(old(device.engine), old(device.nor.mem), report, delivered.value.io).response)
    {
      hide Process, Acts, MayFail;
      var arrives: bool, comesBack: bool := *, *;
      if !arrives {
        tries := tries + [None];
        return None, None;
      }
      var response;
      ghost var io;
      response, io := device.Process(report);
      delivered := Some(Input(report, io));
      reply := if comesBack then Some(response) else None;
      tries := tries + [reply];
    }
  }

  /** The host's reading of the reply to one delivered report. */
  ghost function ReplyOf(a: Snap, i: Input): Option<HostPacket> {
    if |a.mem| == FLASH_SIZE && Formed(i.request) && Bounded(a.engine)
       && Formed(Process(a.engine, a.mem, i.request, i.io).response)
    then HostDecode(Process(a.engine, a.mem, i.request, i.io).response) else None
  }

  /** A reply the client takes for an answer to its request. */
  ghost predicate Answered(run: seq<Snap>, inputs: seq<Input>, request: HostPacket, begin: bool, reply: HostPacket)
    requires |run| == |inputs| + 1
  {
    var n := |inputs|;
    && n > 0 && Answers(run[n - 1], inputs[n - 1]) && ReplyOf(run[n - 1], inputs[n - 1]) == Some(reply)
    && Matches(request, begin, reply) && reply.status == Protocol.OK
  }

  /** What one try leaves the client with. */
  function Usable(reply: Option<Packet>): Option<HostPacket> {
    if reply.Some? && Formed(reply.value) then HostDecode(reply.value) else None
  }

  /** What the client makes of a decoded reply. */
  function Verdict(request: HostPacket, begin: bool, reply: HostPacket): Result<HostPacket> {
    if !Matches(request, begin, reply) then Err(BadReply)
    else if reply.status != Protocol.OK then Err(Refused(reply.status)) else Ok(reply)
  }

  /** An exchange may try `limit` times. It ends with the first try that leaves
      it a reply, and goes by that reply; without one it uses up every try. */
  ghost predicate Settles(before: seq<Option<Packet>>, after: seq<Option<Packet>>, limit: nat,
                          request: HostPacket, begin: bool, result: Result<HostPacket>) {
    && before < after && |after| <= |before| + limit
    && (forall k :: |before| <= k < |after| - 1 ==> Usable(after[k]) == None)
    && var last := Usable(after[|after| - 1]);
       if last.Some? then result == Verdict(request, begin, last.value)
       else result == Err(NoReply) && |after| == |before| + limit
  }

  /** One try more, and what it leaves the client with. */
  ghost predicate Gives(before: seq<Option<Packet>>, after: seq<Option<Packet>>, request: HostPacket, begin: bool,
                        answer: Option<Result<HostPacket>>) {
    && before < after && |after| == |before| + 1
    && var last := Usable(after[|before|]);
       answer == if last.Some? then Some(Verdict(request, begin, last.value)) else None
  }

  /** Some tries that left it nothing, each lost if the device is sure to answer. */
  ghost predicate InVain(before: seq<Option<Packet>>, after: seq<Option<Packet>>, tries: nat, good: bool) {
    && before <= after && |after| == |before| + tries
    && (forall k :: |before| <= k < |after| ==> Usable(after[k]) == None)
    && (good ==> forall k :: |before| <= k < |after| ==> after[k] == None)
  }

  lemma OneTryMore(before: seq<Option<Packet>>, middle: seq<Option<Packet>>, after: seq<Option<Packet>>, tries: nat, limit: nat,
                   good: bool, request: HostPacket, begin: bool, answer: Option<Result<HostPacket>>)
    requires InVain(before, middle, tries, good) && Gives(middle, after, request, begin, answer) && tries < limit
    requires good ==> after[|middle|].Some? ==> answer.Some?
    ensures answer.None? ==> InVain(before, after, tries + 1, good)
    ensures answer.Some? ==> Settles(before, after, limit, request, begin, answer.value)
  {
    hide HostDecode, Verdict;
  }

  lemma SettlesOn(before: seq<Option<Packet>>, after: seq<Option<Packet>>, limit: nat, request: HostPacket, begin: bool,
                  result: Result<HostPacket>)
    requires Settles(before, after, limit, request, begin, result)
    ensures before <= after
  {}

  lemma DeliveredIsPerformed(a: Snap, h: HostPacket, b: Snap)
    requires Encodable(h) && Delivered(a, h, b) && !Cached(a.engine, HostEncode(h))
    ensures Performed(a, h, b)
  {
    hide HostEncode, Performed, Cached;
  }

  lemma NothingTried(before: seq<Option<Packet>>, good: bool)
    ensures InVain(before, before, 0, good)
  {}

  lemma NoTryLeft(before: seq<Option<Packet>>, after: seq<Option<Packet>>, limit: nat, good: bool, request: HostPacket, begin: bool)
    requires InVain(before, after, limit, good) && limit > 0
    ensures Settles(before, after, limit, request, begin, Err(NoReply))
    ensures good ==> Stalled(after, |before|, limit)
  {
    hide Usable, Verdict;
    if good { assert Lost(after, |before|, limit); }
  }

  /** Nothing came back of so many tries in a row. */
  ghost predicate Lost(tries: seq<Option<Packet>>, at: nat, limit: nat) {
    at + limit <= |tries| && forall k :: at <= k < at + limit ==> tries[k] == None
  }

  ghost predicate Stalled(tries: seq<Option<Packet>>, from: nat, limit: nat) {
    exists at: nat :: from <= at && Lost(tries, at, limit)
  }

  lemma StalledEarlier(tries: seq<Option<Packet>>, from: nat, later: nat, limit: nat)
    requires from <= later && Stalled(tries, later, limit)
    ensures Stalled(tries, from, limit)
  {
    var at: nat :| later <= at && Lost(tries, at, limit);
  }

  /** The device has stayed as it was, or has executed the report once. */
  ghost predicate Progress(a: Snap, h: HostPacket, b: Snap)
    requires Encodable(h)
  {
    b == a || (!Cached(a.engine, HostEncode(h)) && Performed(a, h, b) && Cached(b.engine, HostEncode(h)))
  }

  lemma ProgressHere(a: Snap, h: HostPacket)
    requires Encodable(h)
    ensures Progress(a, h, a)
  {}

  lemma ProgressOn(a: Snap, h: HostPacket, b: Snap, c: Snap)
    requires Encodable(h) && Progress(a, h, b) && Progress(b, h, c)
    ensures Progress(a, h, c)
    ensures Cached(c.engine, HostEncode(h)) ==> Delivered(a, h, c)
  {
    hide HostEncode, Performed, Cached;
  }

  /** Every reply is a whole report that carries the engine's status. */
  lemma RepliesCarryStatus(a: Snap, i: Input)
    requires |a.mem| == FLASH_SIZE && Formed(i.request) && Bounded(a.engine) && Sane(a)
    ensures var s := Process(a.engine, a.mem, i.request, i.io);
      Formed(s.response) && s.response.status == s.status
  {
    hide Dispatch, ValidateCommon, MakeResponse, Admit, Sound, Vouched, FreshInfo, Protocol.Finalize;
    var e, request := a.engine, i.request;
    if ValidateCommon(request) != Protocol.OK {
      FinalizeKeepsStatus(MakeResponse(request, ValidateCommon(request)));
      MadeStatus(request, ValidateCommon(request));
    } else if Cached(e, request) {
    } else if Admit(e, request) != Protocol.OK {
      FinalizeKeepsStatus(MakeResponse(request, Admit(e, request)));
      MadeStatus(request, Admit(e, request));
    } else {
      LengthFits(request);
      HandlersFormResponses(e, a.mem, request, i.io);
      var s := Dispatch(e, a.mem, request, i.io);
      FinalizeKeepsStatus(s.response.(status := s.status));
    }
  }

  lemma MadeStatus(request: Packet, status: uint16)
    ensures MakeResponse(request, status).status == status
  {}

  lemma EncodedCommand(request: HostPacket)
    requires Encodable(request)
    ensures var p := HostEncode(request);
      && Formed(p) && p.command == request.command && p.flags == request.flags && p.session == request.session
      && p.sequence == request.sequence && p.offset == request.offset && p.length == |request.payload|
      && p.payload[..|request.payload|] == request.payload && p.status == request.status
  {}

  lemma DecodedStatus(response: Packet)
    requires Formed(response)
    ensures HostDecode(response).Some? ==> HostDecode(response).value.status == response.status
  {
    hide Validate;
  }

  lemma RunStarts(s: Snap, request: Packet)
    ensures EngineRun([s], []) && Repeats([], request)
  {}

  /** A run of deliveries grown by one. */
  lemma RunGrows(run: seq<Snap>, inputs: seq<Input>, request: Packet, i: Input, b: Snap)
    requires EngineRun(run, inputs) && Repeats(inputs, request) && i.request == request
    requires EngineStep(run[|inputs|], i, b)
    ensures EngineRun(run + [b], inputs + [i]) && Repeats(inputs + [i], request)
  {
    hide EngineStep;
    var more, all := run + [b], inputs + [i];
    forall k | 0 <= k < |all| ensures EngineStep(more[k], all[k], more[k + 1]) {
      if k < |inputs| { assert EngineStep(run[k], inputs[k], run[k + 1]); }
    }
  }

  /** A command of the session, as _session_command builds it. */
  function SessionPacket(command: uint8, flags: uint16, session: uint32, sequence: uint32, offset: uint32, payload: Bytes): HostPacket {
    HostPacket(command, flags, session, sequence, offset, Protocol.OK, payload)
  }

  function BeginPacket(target: uint8, imageSize: uint32): HostPacket {
    HostPacket(BEGIN_IMAGE, target, 0, 0, imageSize, Protocol.OK, [])
  }

  lemma ReplySession(a: Snap, i: Input)
    requires |a.mem| == FLASH_SIZE && Formed(i.request) && Bounded(a.engine) && ReplyOf(a, i).Some?
    ensures ReplyOf(a, i).value.session == Process(a.engine, a.mem, i.request, i.io).response.session
  {
    hide Process, Validate;
  }

  /** An answered BEGIN names the session the engine is then in. */
  lemma BeginAnswered(run: seq<Snap>, inputs: seq<Input>, h: HostPacket, reply: HostPacket)
    requires Encodable(h) && (h.command == BEGIN_IMAGE || h.command == BEGIN_FULL_FLASH)
    requires EngineRun(run, inputs) && Sane(run[0]) && Repeats(inputs, HostEncode(h)) && Answered(run, inputs, h, true, reply)
    ensures var e := run[|inputs|].engine;
      && (h.command == BEGIN_IMAGE ==> BegunBy(e, HostEncode(h)))
      && (h.command == BEGIN_FULL_FLASH ==> FullBegunBy(e, HostEncode(h)))
      && reply.session == e.session && e.expectedSequence == 1
  {
    hide HostEncode, EngineStep, Sane, Cached, Matches, HostDecode, Process;
    EncodedCommand(h);
    BeginArrives(run, inputs, HostEncode(h));
    ReplySession(run[|inputs| - 1], inputs[|inputs| - 1]);
  }

  /** The fields of a RecoveryInfo the commands look at. */
  datatype Info = Info(confirmed: uint8, selected: uint8, capabilities: uint32, flashSize: uint32)

  /** Each field is where the packed struct has them. */
  lemma InfoFields(e: Engine)
    ensures Word8(InfoBytes(e), 20) == e.bootState.confirmed && Word8(InfoBytes(e), 22) == SelectedSlot(e.bootState)
    ensures Word32(InfoBytes(e), 24) == Capabilities(e) && Word32(InfoBytes(e), 0) == FLASH_SIZE
    ensures Word32(InfoBytes(e), 4) == SLOT_SIZE && Word32(InfoBytes(e), 8) == APPLICATION_A_OFFSET
    ensures Word32(InfoBytes(e), 12) == APPLICATION_B_OFFSET && Word32(InfoBytes(e), 16) == MANIFEST_SIZE
    ensures Word8(InfoBytes(e), 21) == e.bootState.pending && Word8(InfoBytes(e), 23) == e.phase && Word32(InfoBytes(e), 28) == PAYLOAD_SIZE
  {
    hide Le, Word32, Capabilities;
    var b := InfoBytes(e);
    assert b[24..28] == Le(Capabilities(e), 4);
    assert b[0..4] == Le(FLASH_SIZE, 4);
    Field32(b, 24, Capabilities(e));
    Field32(b, 0, FLASH_SIZE);
    assert b[4..8] == Le(SLOT_SIZE, 4) && b[8..12] == Le(APPLICATION_A_OFFSET, 4) && b[12..16] == Le(APPLICATION_B_OFFSET, 4);
    assert b[16..20] == Le(MANIFEST_SIZE, 4) && b[28..32] == Le(PAYLOAD_SIZE, 4);
    Field32(b, 4, SLOT_SIZE); Field32(b, 8, APPLICATION_A_OFFSET); Field32(b, 12, APPLICATION_B_OFFSET);
    Field32(b, 16, MANIFEST_SIZE); Field32(b, 28, PAYLOAD_SIZE);
    assert b[21] == Byte(e.bootState.pending) && b[23] == Byte(e.phase);
    ByteOfInt(e.bootState.pending);
    ByteOfInt(e.phase);
    assert b[20] == Byte(e.bootState.confirmed) && b[22] == Byte(SelectedSlot(e.bootState));
    ByteOfInt(e.bootState.confirmed);
    ByteOfInt(SelectedSlot(e.bootState));
  }

  lemma FreshInfoPayload(e: Engine, request: Packet)
    requires Formed(request)
    ensures Formed(FreshInfo(e, request))
    ensures HostDecode(FreshInfo(e, request)).Some? ==> HostDecode(FreshInfo(e, request)).value.payload == InfoBytes(e)
  {
    hide Validate, InfoBytes;
  }

  /** An answered GET_INFO, cached or not, describes the engine as it is. */
  lemma InfoAnswered(run: seq<Snap>, inputs: seq<Input>, reply: HostPacket)
    requires EngineRun(run, inputs) && Sane(run[0]) && Repeats(inputs, HostEncode(INFO_REQUEST))
    requires Answered(run, inputs, INFO_REQUEST, false, reply)
    ensures reply.payload == InfoBytes(run[|inputs|].engine)
  {
    hide HostEncode, EngineStep, Matches, HostDecode, Process, Sound, Vouched, FreshInfo, InfoBytes, CacheBehind, Answers;
    EncodedCommand(INFO_REQUEST);
    var n, request := |inputs|, HostEncode(INFO_REQUEST);
    CopiesExecuteOnce(run, inputs, request);
    var earlier := inputs[..n - 1];
    forall k | 0 <= k < |earlier| ensures earlier[k].request == request { assert inputs[k].request == request; }
    CopiesExecuteOnce(run[..n], earlier, request);
    assert EngineStep(run[n - 1], inputs[n - 1], run[n - 1 + 1]);
    assert inputs[n - 1].request == request;
    AnswerIsCached(run[n - 1], inputs[n - 1], run[n]);
    FreshInfoPayload(run[n].engine, request);
  }

  /** Everything an upload has the device execute once its session has begun. */
  function UploadScript(image: Bytes, target: uint8, session: uint32): seq<HostPacket>
    requires |image| < WORD
  {
    var pieces := WriteScript(image, 0, PAYLOAD_SIZE, target, session, 2);
    [SessionPacket(ERASE_SLOT, target, session, 1, 0, [])]
    + pieces
    + [SessionPacket(FINALIZE_IMAGE, target, session, Wrap32(2 + |pieces|), 0, [])]
    + [SessionPacket(SET_PENDING, target, session, Wrap32(3 + |pieces|), 0, [])]
  }

  const CAPABILITY_FULL_FLASH_RAM: nat := 0x20
  const CAPABILITY_PROGRESSIVE_FULL_ERASE: nat := 0x40
  const CAPABILITY_VERIFIED_FULL_PROGRAM: nat := 0x80
  const BOOT_REGION_SIZE: nat := 0x1_0000

  predicate Has(capabilities: uint32, bit: nat)
    requires bit != 0
  {
    capabilities / bit % 2 == 1
  }

  /** What this engine advertises. */
  lemma Advertised(e: Engine)
    ensures Has(Capabilities(e), CAPABILITY_FULL_FLASH_RAM) <==> e.fullEnabled
    ensures Has(Capabilities(e), CAPABILITY_PROGRESSIVE_FULL_ERASE) <==> e.fullEnabled
    ensures !Has(Capabilities(e), CAPABILITY_VERIFIED_FULL_PROGRAM)
    ensures Has(Capabilities(e), 0x100) <==> e.hasKnobs
    ensures Has(Capabilities(e), 0x1) && Has(Capabilities(e), 0x2) && Has(Capabilities(e), 0x4)
    ensures Has(Capabilities(e), 0x8) && Has(Capabilities(e), 0x10) && Capabilities(e) < 0x200
  {}

  function BeginFullPacket(sha: Bytes): HostPacket {
    HostPacket(BEGIN_FULL_FLASH, FLAG_FULL_FLASH, FULL_FLASH_UNLOCK, 0, FLASH_SIZE, Protocol.OK, sha)
  }

  /** The WRITE_CHUNK reports that carry image[from..], numbered from `sequence`. */
  function WriteScript(image: Bytes, from: nat, size: nat, flags: uint16, session: uint32, sequence: nat): seq<HostPacket>
    requires from <= |image| < WORD && 0 < size
    decreases |image| - from
  {
    if from == |image| then []
    else
      var end := PieceEnd(|image|, from, size);
      [SessionPacket(WRITE_CHUNK, flags, session, Wrap32(sequence), from, image[from..end])]
      + WriteScript(image, end, size, flags, session, sequence + 1)
  }

  lemma ScriptStep(image: Bytes, from: nat, size: nat, flags: uint16, session: uint32, sequence: nat)
    requires from < |image| && 0 < size
    ensures |image| < WORD ==>
      var end := PieceEnd(|image|, from, size);
      WriteScript(image, from, size, flags, session, sequence)
      == [SessionPacket(WRITE_CHUNK, flags, session, Wrap32(sequence), from, image[from..end])]
         + WriteScript(image, end, size, flags, session, sequence + 1)
  {}

  lemma ScriptEnds(image: Bytes, size: nat, flags: uint16, session: uint32, sequence: nat)
    requires |image| < WORD && 0 < size
    ensures WriteScript(image, |image|, size, flags, session, sequence) == []
  {}

  function PieceEnd(total: nat, from: nat, size: nat): (end: nat)
    requires from < total && 0 < size
    ensures from < end <= total && end - from <= size
  {
    if from + size < total then from + size else total
  }

  /** Copies of one report went out from `from`, and one was answered with OK. */
  ghost predicate Sent(run: seq<Snap>, inputs: seq<Input>, request: Packet) {
    && EngineRun(run, inputs) && Sane(run[0]) && Repeats(inputs, request) && Formed(request)
    && |inputs| > 0 && Answers(run[|inputs| - 1], inputs[|inputs| - 1])
  }

  /** After an answered session command both sides have moved on by one. */
  lemma AnswerKeepsStep(run: seq<Snap>, inputs: seq<Input>, h: HostPacket)
    requires Encodable(h) && UsesSession(h.command) && Sent(run, inputs, HostEncode(h))
    ensures var e, e' := run[0].engine, run[|inputs|].engine;
      && e'.session == h.session && e'.expectedSequence == Wrap32(h.sequence + 1)
      && (e.session == h.session && e.expectedSequence == h.sequence ==>
            !Cached(e, HostEncode(h)) && Executions(run, inputs) == 1)
  {
    hide EngineStep, Answers, Trusted, HostEncode, BegunBy, FullBegunBy, Executes;
    EncodedCommand(h);
    CopiesExecuteOnce(run, inputs, HostEncode(h));
  }

  /** A whole-flash session erased up to `offset`, and untouched beyond. */
  ghost predicate ErasedTo(s: Snap, mem: Bytes, offset: nat) {
    && |s.mem| == |mem| == FLASH_SIZE && offset <= FLASH_SIZE
    && s.engine.fullSession && s.engine.fullErase == offset && (offset < FLASH_SIZE ==> s.engine.phase == PHASE_BEGUN)
    && Erased(s.mem[..offset]) && s.mem[offset..] == mem[offset..]
  }

  lemma ErasedFurther(a: Snap, b: Snap, mem: Bytes, offset: nat)
    requires ErasedTo(a, mem, offset) && offset + FULL_ERASE_CHUNK <= FLASH_SIZE
    requires |b.mem| == FLASH_SIZE && ErasedOn(a.engine, b.engine) && b.engine.fullErase <= FLASH_SIZE
    requires Erased(b.mem[..b.engine.fullErase]) && b.mem[b.engine.fullErase..] == a.mem[b.engine.fullErase..]
    ensures ErasedTo(b, mem, offset + FULL_ERASE_CHUNK)
  {
    hide Erased;
    var next := offset + FULL_ERASE_CHUNK;
    assert b.engine.fullErase == next;
    SuffixAgrees(a.mem, mem, offset, next);
  }

  lemma PieceErased(run: seq<Snap>, inputs: seq<Input>, h: HostPacket, offset: nat, mem: Bytes)
    requires Encodable(h) && h.command == ERASE_FULL_FLASH
    requires Sent(run, inputs, HostEncode(h)) && !Cached(run[0].engine, HostEncode(h))
    requires ErasedTo(run[0], mem, offset) && offset + FULL_ERASE_CHUNK <= FLASH_SIZE
    ensures ErasedTo(run[|inputs|], mem, offset + FULL_ERASE_CHUNK)
  {
    hide EngineStep, Sane, Answers, Cached, Erased, ErasedOn;
    EncodedCommand(h);
    hide HostEncode;
    FullEraseArrives(run, inputs, HostEncode(h));
    hide ErasedTo;
    ErasedFurther(run[0], run[|inputs|], mem, offset);
  }

  class RecoveryClient {
    const link: Link
    const retries: nat
    var session: uint32
    var sequence: nat
    var slot: Option<uint8>
    var sessionFlags: uint16
    /** The reports of this client the device has executed, in order. */
    ghost var history: seq<HostPacket>

    constructor (link: Link, retries: nat)
      ensures this.link == link && this.retries == retries
      ensures session == 0 && sequence == 0 && slot == None && sessionFlags == 0 && history == []
    {
      this.link, this.retries := link, retries;
      session, sequence, slot, sessionFlags, history := 0, 0, None, 0, [];
    }

    ghost predicate Ready()
      reads link.device, link.device.nor
    {
      link.Valid() && Sane(link.Now())
    }

    /** Both sides expect the same next command. */
    ghost predicate Agrees()
      reads this, link.device
    {
      session == link.device.engine.session && Wrap32(sequence) == link.device.engine.expectedSequence
    }

    /** Every copy of this report will be answered with OK. */
    ghost predicate Served(request: HostPacket, begin: bool)
      reads link.device, link.device.nor
      requires Encodable(request)
    {
      link.device.Steady() && Serves(link.Now(), request, begin) && (OpensSession(request.command) ==> begin)
    }

    /** One try of an exchange; nothing usable may come back. */
    method Attempt(request: HostPacket, begin: bool, ghost before: seq<Snap>, ghost earlier: seq<Input>)
      returns (result: Option<Result<HostPacket>>, ghost run: seq<Snap>, ghost inputs: seq<Input>)
      requires Ready() && Encodable(request) && Cacheable(request.command)
      requires EngineRun(before, earlier) && Repeats(earlier, HostEncode(request)) && before[|earlier|] == link.Now()
      modifies link`tries, link.device, link.device.nor
      ensures Ready()
      ensures EngineRun(run, inputs) && Repeats(inputs, HostEncode(request)) && |run| == |inputs| + 1 && |inputs| <= |earlier| + 1
      ensures run[0] == before[0] && run[|inputs|] == link.Now()
      ensures result.Some? && result.value.Ok? ==> Answered(run, inputs, request, begin, result.value.value)
      ensures Gives(old(link.tries), link.tries, request, begin, result)
      ensures old(Served(request, begin)) ==>
        && link.device.Steady() && Served(request, begin) && Progress(old(link.Now()), request, link.Now())
        && (result.Some? ==> result.value.Ok? && Cached(link.device.engine, HostEncode(request)))
      ensures |link.tries| == |old(link.tries)| + 1
      ensures old(Served(request, begin)) && link.tries[|old(link.tries)|].Some? ==> result.Some?
    {
      hide HostEncode, EngineStep, Sane, Process, Answers, HostDecode, Serves, Performed, Cached, MayFail, Matches;
      run, inputs := before, earlier;
      ghost var start := link.Now();
      var reply;
      ghost var delivered;
      reply, delivered := link.Exchange(HostEncode(request));
      if delivered.Some? {
        RunGrows(run, inputs, HostEncode(request), delivered.value, link.Now());
        EncodedCommand(request);
        SaneStep(start, delivered.value, link.Now());
        if old(Served(request, begin)) { CopyIsServed(start, delivered.value, link.Now(), request, begin); }
        run, inputs := run + [link.Now()], inputs + [delivered.value];
      }
      if reply.None? { return None, run, inputs; }
      StepIsFormed(start, delivered.value, link.Now());
      RepliesCarryStatus(start, delivered.value);
      DecodedStatus(reply.value);
      var decoded := HostDecode(reply.value);
      if decoded.None? { return None, run, inputs; }
      var judged := Judge(request, begin, decoded.value);
      if judged.Ok? { GoodReply(run, inputs, request, begin, start, delivered.value, reply.value); }
      result := Some(judged);
    }

    /** The retry loop: the same bytes until a reply that decodes comes back. */
    method Persist(request: HostPacket, begin: bool) returns (result: Result<HostPacket>, ghost run: seq<Snap>, ghost inputs: seq<Input>)
      requires Ready() && Encodable(request) && Cacheable(request.command)
      modifies link`tries, link.device, link.device.nor
      ensures Ready()
      ensures EngineRun(run, inputs) && Repeats(inputs, HostEncode(request)) && |inputs| <= retries + 1
      ensures run[0] == old(link.Now()) && run[|inputs|] == link.Now()
      ensures result.Ok? ==> Answered(run, inputs, request, begin, result.value)
      ensures Settles(old(link.tries), link.tries, retries + 1, request, begin, result)
      ensures old(Served(request, begin)) ==>
        && link.device.Steady()
        && (result.Ok? ==> Delivered(old(link.Now()), request, link.Now()))
        && (result.Err? ==> Stalled(link.tries, |old(link.tries)|, retries + 1))
    {
      hide HostEncode, EngineRun, EngineStep, Repeats, Sane, Answered, Cached, Serves, Delivered, Progress, InVain, Gives, Settles, Stalled;
      result := Err(NoReply);
      run, inputs := [link.Now()], [];
      RunStarts(link.Now(), HostEncode(request));
      ghost var good, first, before := Served(request, begin), link.Now(), link.tries;
      ProgressHere(first, request);
      NothingTried(before, good);
      var attempt := 0;
      while attempt < retries + 1
        invariant Ready()
        invariant |run| == |inputs| + 1 && |inputs| <= attempt <= retries + 1
        invariant EngineRun(run, inputs) && Repeats(inputs, HostEncode(request))
        invariant run[0] == first && run[|inputs|] == link.Now()
        invariant result == Err(NoReply) && InVain(before, link.tries, attempt, good)
        invariant good ==> Served(request, begin) && Progress(first, request, link.Now()) && link.device.Steady()
      {
        var answer;
        ghost var middle, tried := link.Now(), link.tries;
        answer, run, inputs := Attempt(request, begin, run, inputs);
        if good { ProgressOn(first, request, middle, link.Now()); }
        OneTryMore(before, tried, link.tries, attempt, retries + 1, good, request, begin, answer);
        attempt := attempt + 1;
        if answer.Some? { return answer.value, run, inputs; }
      }
      NoTryLeft(before, link.tries, retries + 1, good, request, begin);
    }

    /** _exchange: what comes back, and that the device has executed the report at
        most once for it. */
    method Exchange(request: HostPacket, begin: bool) returns (result: Result<HostPacket>, ghost run: seq<Snap>, ghost inputs: seq<Input>)
      requires Ready() && Encodable(request) && Cacheable(request.command)
      modifies this`history, link`tries, link.device, link.device.nor
      ensures Ready()
      ensures EngineRun(run, inputs) && Repeats(inputs, HostEncode(request)) && |inputs| <= retries + 1
      ensures run[0] == old(link.Now()) && run[|inputs|] == link.Now()
      ensures result.Ok? ==> Answered(run, inputs, request, begin, result.value)
      ensures Healthy(old(link.Now())) ==> Healthy(link.Now())
      ensures Quiet(request.command) ==> link.device.nor.mem == old(link.device.nor.mem)
      ensures Executions(run, inputs) <= 1
      ensures history == if Executions(run, inputs) == 1 then old(history) + [request] else old(history)
      ensures Settles(old(link.tries), link.tries, retries + 1, request, begin, result)
      ensures old(Served(request, begin)) ==>
        && link.device.Steady()
        && (result.Ok? ==> Delivered(old(link.Now()), request, link.Now()))
        && (result.Err? ==> Stalled(link.tries, |old(link.tries)|, retries + 1))
    {
      hide HostEncode, EngineStep, Sane, Answered, Executes, Cached, Answers, Served, Delivered, Settles, Stalled;
      result, run, inputs := Persist(request, begin);
      EncodedCommand(request);
      hide Healthy;
      CopiesExecuteOnce(run, inputs, HostEncode(request));
      if Healthy(run[0]) { CopiesKeepHealthy(run, inputs, HostEncode(request)); }
      if Quiet(request.command) { QuietCopies(run, inputs, HostEncode(request)); }
      if Executions(run, inputs) == 1 { history := history + [request]; }
    }

    /** The next report of the session. */
    ghost function Next(command: uint8, offset: uint32, payload: Bytes): HostPacket
      reads this
      requires sequence < WORD
    {
      SessionPacket(command, sessionFlags, session, sequence, offset, payload)
    }

    /** The device is sure to take it. */
    ghost predicate Poised(command: uint8, offset: uint32, payload: Bytes)
      reads this, link.device, link.device.nor
    {
      && session != 0 && sequence < WORD && Encodable(Next(command, offset, payload))
      && Served(Next(command, offset, payload), false)
      && !Cached(link.device.engine, HostEncode(Next(command, offset, payload)))
    }

    /** How such a command ends: executed and answered, or given up on because
        nothing came back of retries + 1 tries in a row. */
    twostate predicate Went(ok: bool, request: HostPacket)
      reads link, link.device, link.device.nor
      requires Encodable(request)
    {
      && link.device.Steady()
      && if ok then Performed(old(link.Now()), request, link.Now()) else Stalled(link.tries, |old(link.tries)|, retries + 1)
    }

    /** _session_command */
    method SessionCommand(command: uint8, offset: uint32, payload: Bytes)
      returns (result: Result<HostPacket>, ghost run: seq<Snap>, ghost inputs: seq<Input>)
      requires Ready() && UsesSession(command) && GET_INFO <= command <= READ_KNOBS && |payload| <= PAYLOAD_SIZE
      modifies this`sequence, this`history, link`tries, link.device, link.device.nor
      ensures Ready()
      ensures |run| == |inputs| + 1 && run[0] == old(link.Now()) && run[|inputs|] == link.Now()
      ensures EngineRun(run, inputs)
      ensures Healthy(old(link.Now())) ==> Healthy(link.Now())
      ensures Quiet(command) ==> link.device.nor.mem == old(link.device.nor.mem)
      ensures result.Err? ==> sequence == old(sequence)
      ensures old(sequence) < WORD ==>
        var request := SessionPacket(command, sessionFlags, session, old(sequence), offset, payload);
        && Repeats(inputs, HostEncode(request))
        && (history == old(history) || history == old(history) + [request])
        && (result.Ok? ==>
              && sequence == old(sequence) + 1 && Agrees() && Sent(run, inputs, HostEncode(request))
              && Answered(run, inputs, request, false, result.value)
              && (old(Agrees()) ==> history == old(history) + [request] && !Cached(run[0].engine, HostEncode(request))))
      ensures old(sequence) >= WORD ==> result.Err? && history == old(history)
      ensures old(link.tries) <= link.tries
      ensures old(Poised(command, offset, payload)) ==> Went(result.Ok?, old(Next(command, offset, payload)))
    {
      hide HostEncode, EngineStep, Sane, Executes, Executions, Cached, Answers, ReplyOf, Matches, Healthy, Settles, Served, Delivered, Stalled, Performed;
      run, inputs := [link.Now()], [];
      if session == 0 { return Err(Invalid), run, inputs; }
      if sequence >= WORD { return Err(Invalid), run, inputs; }
      var request := SessionPacket(command, sessionFlags, session, sequence, offset, payload);
      EncodedCommand(request);
      result, run, inputs := Exchange(request, false);
      SettlesOn(old(link.tries), link.tries, retries + 1, request, false, result);
      if result.Ok? {
        if old(Poised(command, offset, payload)) { DeliveredIsPerformed(run[0], request, link.Now()); }
        AnswerKeepsStep(run, inputs, request);
        sequence := sequence + 1;
      }
    }

    /** erase */
    method Erase() returns (result: Result<()>)
      requires Ready()
      modifies this`sequence, this`history, link`tries, link.device, link.device.nor
      ensures Ready() && (Healthy(old(link.Now())) ==> Healthy(link.Now()))
      ensures result.Ok? && old(Agrees()) ==>
        && Agrees() && sequence == old(sequence) + 1
        && Advanced(old(link.device.engine), link.device.engine, PHASE_ERASED, 0)
        && Holds(link.device.engine, link.device.nor.mem, [])
        && history == old(history) + [SessionPacket(ERASE_SLOT, sessionFlags, session, Wrap32(old(sequence)), 0, [])]
      ensures old(link.tries) <= link.tries
      ensures old(Poised(ERASE_SLOT, 0, [])) ==> Went(result.Ok?, old(Next(ERASE_SLOT, 0, [])))
    {
      hide HostEncode, EngineStep, Sane, Healthy, Answered, Cached, Holds, Advanced, EngineRun, Answers, Went, Poised;
      var reply, run, inputs := SessionCommand(ERASE_SLOT, 0, []);
      if reply.Err? { return Err(reply.error); }
      ghost var request := SessionPacket(ERASE_SLOT, sessionFlags, session, old(sequence), 0, []);
      EncodedCommand(request);
      if old(Agrees()) { EraseArrives(run, inputs, HostEncode(request)); }
      return Ok(());
    }

    /** What a write has done by the time image[..offset] has been accepted. */
    ghost predicate Written(e: Engine, image: Bytes, offset: nat)
      reads link.device, link.device.nor
    {
      var now := link.device.engine;
      && offset <= |image| && |link.device.nor.mem| == FLASH_SIZE
      && SameSession(e, now) && now.nextWrite == offset
      && (now.phase == PHASE_WRITING || now == e)
      && Holds(now, link.device.nor.mem, image[..offset])
    }

    /** Both sides are at the same place of one session, on a chip that never
        fails, and its slot holds the first n bytes of the image. */
    ghost predicate Sending(mem0: Bytes, slot: uint8, image: Bytes, n: nat)
      reads this, link.device, link.device.nor
    {
      link.device.Steady() && InStep(slot) && Sessions.Sent(link.Now(), mem0, slot, image, n)
    }

    ghost predicate InStep(slot: uint8)
      reads this, link.device
    {
      var e := link.device.engine;
      session == e.session && session != 0 && sequence == e.expectedSequence && sessionFlags == e.target == slot
    }

    lemma SendingFacts(mem0: Bytes, slot: uint8, image: Bytes, n: nat)
      requires Sending(mem0, slot, image, n)
      ensures link.device.Steady() && InStep(slot) && n <= |image| <= SLOT_SIZE && sequence <= n + 2
      ensures SlotValid(slot) && link.device.engine.target == slot && link.device.engine.nextWrite == n
    {
      hide Sound, Holds, SameOutside;
    }

    lemma PieceIsPoised(mem0: Bytes, slot: uint8, image: Bytes, n: nat, m: nat)
      requires Sending(mem0, slot, image, n) && n < m <= |image| && m <= n + PAYLOAD_SIZE
      ensures Poised(WRITE_CHUNK, n, image[n..m])
      ensures slot <= 1 && sequence < WORD && Next(WRITE_CHUNK, n, image[n..m]) == Sessions.WriteReport(link.device.engine, image[n..m])
    {
      hide HostEncode, Serves, Cached, Sound, Holds, Bounded, SameOutside;
      WriteIsServed(link.Now(), mem0, slot, image, n, m);
    }

    /** write, from any offset and in pieces of any allowed size */
    method Write(image: Bytes, size: nat, start: nat) returns (result: Result<()>)
      requires Ready()
      modifies this`sequence, this`history, link`tries, link.device, link.device.nor
      ensures Ready() && (Healthy(old(link.Now())) ==> Healthy(link.Now()))
      ensures result.Ok? ==> 1 <= size <= PAYLOAD_SIZE && start <= |image|
      ensures result.Ok? && old(Agrees()) && |image| < WORD
              && old(link.device.engine).phase >= PHASE_ERASED && old(Written(link.device.engine, image, start)) ==>
        && Agrees() && Written(old(link.device.engine), image, |image|)
        && history == old(history) + WriteScript(image, start, size, sessionFlags, session, old(sequence))
        && sequence == old(sequence) + |WriteScript(image, start, size, sessionFlags, session, old(sequence))|
      ensures old(link.tries) <= link.tries
      ensures old(Sending(link.device.nor.mem, link.device.engine.target, image, start)) && 1 <= size <= PAYLOAD_SIZE ==>
        && link.device.Steady()
        && if result.Ok? then Sending(old(link.device.nor.mem), old(link.device.engine).target, image, |image|)
                              && Sessions.SameBoot(old(link.device.engine), link.device.engine)
           else Stalled(link.tries, |old(link.tries)|, retries + 1)
    {
      hide HostEncode, EngineStep, Sane, Healthy, EngineRun, Written, WriteScript, Sending, Stalled;
      ghost var mem0, slot := link.device.nor.mem, link.device.engine.target;
      ghost var sure := Sending(mem0, slot, image, start);
      if sure { SendingFacts(mem0, slot, image, start); }
      if !(1 <= size <= PAYLOAD_SIZE) { return Err(Invalid); }
      if start > |image| { return Err(Invalid); }
      ghost var e, first, before := link.device.engine, sequence, history;
      ghost var good := Agrees() && |image| < WORD && e.phase >= PHASE_ERASED && Written(e, image, start);
      var offset := start;
      while offset < |image|
        invariant Ready() && (Healthy(old(link.Now())) ==> Healthy(link.Now()))
        invariant start <= offset <= |image|
        invariant good ==> Agrees() && Written(e, image, offset)
        invariant old(link.tries) <= link.tries
        invariant sure ==> link.device.Steady() && Sending(mem0, slot, image, offset) && Sessions.SameBoot(e, link.device.engine)
        invariant good ==> history + WriteScript(image, offset, size, sessionFlags, session, sequence)
                           == before + WriteScript(image, start, size, sessionFlags, session, first)
        invariant good ==> sequence + |WriteScript(image, offset, size, sessionFlags, session, sequence)|
                           == first + |WriteScript(image, start, size, sessionFlags, session, first)|
      {
        ScriptStep(image, offset, size, sessionFlags, session, sequence);
        ghost var tried := link.tries;
        var written := WriteNext(image, size, offset, e, mem0, slot);
        if written.Err? {
          if sure { StalledEarlier(link.tries, |old(link.tries)|, |tried|, retries + 1); }
          return Err(written.error);
        }
        offset := written.value;
      }
      if good { ScriptEnds(image, size, sessionFlags, session, sequence); }
      return Ok(());
    }

    /** One turn of the write loop. */
    method WriteNext(image: Bytes, size: nat, offset: nat, ghost e: Engine, ghost mem0: Bytes, ghost slot: uint8) returns (result: Result<nat>)
      requires Ready() && offset < |image| && 1 <= size <= PAYLOAD_SIZE
      modifies this`sequence, this`history, link`tries, link.device, link.device.nor
      ensures Ready() && (Healthy(old(link.Now())) ==> Healthy(link.Now()))
      ensures result.Ok? ==> result.value == PieceEnd(|image|, offset, size) && offset < WORD
      ensures result.Ok? && old(Agrees()) && |image| < WORD && e.phase >= PHASE_ERASED && old(Written(e, image, offset)) ==>
        && Agrees() && Written(e, image, result.value) && sequence == old(sequence) + 1
        && history == old(history)
           + [SessionPacket(WRITE_CHUNK, sessionFlags, session, Wrap32(old(sequence)), offset, image[offset..result.value])]
      ensures old(link.tries) <= link.tries
      ensures old(Sending(mem0, slot, image, offset)) ==>
        && link.device.Steady()
        && if result.Ok? then Sending(mem0, slot, image, result.value) && Sessions.SameBoot(old(link.device.engine), link.device.engine)
           else Stalled(link.tries, |old(link.tries)|, retries + 1)
    {
      hide HostEncode, EngineStep, Sane, Healthy, Answered, Cached, Holds, EngineRun, Answers, Poised, Performed, Stalled, Sessions.Sent;
      ghost var sure, start := Sending(mem0, slot, image, offset), link.Now();
      if sure { SendingFacts(mem0, slot, image, offset); }
      if offset >= WORD { return Err(Invalid); }
      var end := PieceEnd(|image|, offset, size);
      ghost var good := Agrees() && |image| < WORD && e.phase >= PHASE_ERASED && Written(e, image, offset);
      ghost var sent := sequence;
      if sure { PieceIsPoised(mem0, slot, image, offset, end); }
      var reply, run, inputs := SessionCommand(WRITE_CHUNK, offset, image[offset..end]);
      if reply.Err? { return Err(reply.error); }
      if sure {
        WriteLeaves(start, mem0, slot, image, offset, end, link.Now());
        SentTarget(link.Now(), mem0, slot, image, end);
      }
      if good { PieceWritten(run, inputs, sent, image, offset, end, e); }
      return Ok(end);
    }

    lemma PieceWritten(run: seq<Snap>, inputs: seq<Input>, sent: nat, image: Bytes, offset: nat, end: nat, e: Engine)
      requires offset < end <= |image| < WORD && end - offset <= PAYLOAD_SIZE && sent < WORD
      requires |run| == |inputs| + 1 && run[|inputs|] == link.Now() && e.phase >= PHASE_ERASED
      requires var request := HostEncode(SessionPacket(WRITE_CHUNK, sessionFlags, session, sent, offset, image[offset..end]));
        Sent(run, inputs, request) && !Cached(run[0].engine, request)
      requires |run[0].mem| == FLASH_SIZE && SameSession(e, run[0].engine) && run[0].engine.nextWrite == offset
      requires run[0].engine.phase == PHASE_WRITING || run[0].engine == e
      requires Holds(run[0].engine, run[0].mem, image[..offset])
      ensures Written(e, image, end)
    {
      hide EngineStep, Sane, Holds, Answers, EngineRun, Cached;
      var h := SessionPacket(WRITE_CHUNK, sessionFlags, session, sent, offset, image[offset..end]);
      EncodedCommand(h);
      hide HostEncode;
      assert Piece(HostEncode(h)) == image[offset..end];
      assert image[..offset] + image[offset..end] == image[..end];
      WriteArrives(run, inputs, HostEncode(h), image[..offset]);
    }

    /** finalize */
    method Finalize() returns (result: Result<()>)
      requires Ready()
      modifies this`sequence, this`history, link`tries, link.device, link.device.nor
      ensures Ready() && (Healthy(old(link.Now())) ==> Healthy(link.Now()))
      ensures result.Ok? && old(Agrees()) ==>
        && Agrees() && sequence == old(sequence) + 1 && link.device.nor.mem == old(link.device.nor.mem)
        && Advanced(old(link.device.engine), link.device.engine, PHASE_FINALIZED, old(link.device.engine).imageSize)
        && old(link.device.engine).nextWrite == old(link.device.engine).imageSize
        && history == old(history) + [SessionPacket(FINALIZE_IMAGE, sessionFlags, session, Wrap32(old(sequence)), 0, [])]
      ensures old(link.tries) <= link.tries
      ensures old(Poised(FINALIZE_IMAGE, 0, [])) ==> Went(result.Ok?, old(Next(FINALIZE_IMAGE, 0, [])))
    {
      hide HostEncode, EngineStep, Sane, Healthy, Answered, Cached, Advanced, EngineRun, Answers, Went, Poised;
      var reply, run, inputs := SessionCommand(FINALIZE_IMAGE, 0, []);
      if reply.Err? { return Err(reply.error); }
      ghost var request := SessionPacket(FINALIZE_IMAGE, sessionFlags, session, old(sequence), 0, []);
      EncodedCommand(request);
      if old(Agrees()) { FinalizeArrives(run, inputs, HostEncode(request)); }
      return Ok(());
    }

    /** set_pending */
    method SetPending() returns (result: Result<()>)
      requires Ready() && Healthy(link.Now())
      modifies this`sequence, this`history, link`tries, link.device, link.device.nor
      ensures Ready() && Healthy(link.Now())
      ensures var target := old(link.device.engine).target;
        result.Ok? && old(Agrees()) && SlotValid(target) ==>
        && Agrees() && sequence == old(sequence) + 1
        && |link.device.nor.mem| == |old(link.device.nor.mem)| == FLASH_SIZE
        && SlotBytes(link.device.nor.mem, target) == SlotBytes(old(link.device.nor.mem), target)
        && Offered(Current(link.device.nor.mem), target)
        && Advanced(old(link.device.engine), link.device.engine, PHASE_PENDING, old(link.device.engine).nextWrite)
        && history == old(history) + [SessionPacket(SET_PENDING, sessionFlags, session, Wrap32(old(sequence)), 0, [])]
      ensures old(link.tries) <= link.tries
      ensures old(Poised(SET_PENDING, 0, [])) ==> Went(result.Ok?, old(Next(SET_PENDING, 0, [])))
    {
      hide HostEncode, EngineStep, Sane, Healthy, Answered, Cached, Advanced, EngineRun, Answers, Newest, Went, Poised;
      var reply, run, inputs := SessionCommand(SET_PENDING, 0, []);
      if reply.Err? { return Err(reply.error); }
      ghost var request := SessionPacket(SET_PENDING, sessionFlags, session, old(sequence), 0, []);
      EncodedCommand(request);
      if old(Agrees()) && SlotValid(old(link.device.engine).target) { PendingArrives(run, inputs, HostEncode(request)); }
      return Ok(());
    }

    /** The device is sure to open this slot for an image of this size. */
    ghost predicate Opens(target: uint8, size: nat)
      reads link.device, link.device.nor
    {
      var e := link.device.engine;
      && link.device.Steady() && Sessions.Free(e, target) && MINIMUM_IMAGE <= size <= SLOT_SIZE
      && (e.previous.Some? ==> e.previous.value.request.command != BEGIN_IMAGE)
    }

    /** begin */
    method Begin(target: uint8, imageSize: nat) returns (result: Result<uint32>)
      requires Ready()
      modifies this, link`tries, link.device, link.device.nor
      ensures Ready() && (Healthy(old(link.Now())) ==> Healthy(link.Now()))
      ensures result.Err? ==> session == old(session) && sequence == old(sequence)
      ensures result.Ok? ==>
        && SlotValid(target) && MINIMUM_IMAGE <= imageSize <= SLOT_SIZE
        && Agrees() && session == result.value && sequence == 1 && slot == Some(target) && sessionFlags == target
        && BegunBy(link.device.engine, HostEncode(BeginPacket(target, imageSize)))
      ensures history == old(history)
              || (SlotValid(target) && imageSize < WORD && history == old(history) + [BeginPacket(target, imageSize)])
      ensures old(link.tries) <= link.tries
      ensures old(Opens(target, imageSize)) ==>
        Went(result.Ok?, Sessions.BeginReport(target, imageSize)) && (result.Ok? ==> session != 0)
    {
      hide HostEncode, EngineStep, Sane, Healthy, EngineRun, Answered, BegunBy, Executions, Settles, Delivered, Stalled, Performed, Serves, Sound, Cached, Matches;
      if target != SLOT_A && target != SLOT_B { return Err(Invalid); }
      if !(MINIMUM_IMAGE <= imageSize <= SLOT_SIZE) { return Err(Invalid); }
      var request := BeginPacket(target, imageSize);
      ghost var start := link.Now();
      ghost var good := Opens(target, imageSize);
      if good {
        SaneIsBounded(start);
        BeginIsServed(start, target, imageSize);
      }
      var reply, run, inputs := Exchange(request, true);
      SettlesOn(old(link.tries), link.tries, retries + 1, request, true, reply);
      if good && reply.Ok? {
        DeliveredIsPerformed(start, request, link.Now());
        BeginLeaves(start, target, imageSize, link.Now());
      }
      if reply.Err? { return Err(reply.error); }
      BeginAnswered(run, inputs, request, reply.value);
      if reply.value.session == 0 { return Err(BadReply); }
      slot := Some(target);
      sessionFlags := target;
      session := reply.value.session;
      sequence := 1;
      return Ok(session);
    }

    /** get_info */
    method GetInfo() returns (result: Result<Info>)
      requires Ready()
      modifies this`history, link`tries, link.device, link.device.nor
      ensures Ready() && (Healthy(old(link.Now())) ==> Healthy(link.Now()))
      ensures link.device.nor.mem == old(link.device.nor.mem)
      ensures history == old(history) || history == old(history) + [INFO_REQUEST]
      ensures result.Ok? ==>
        var state := link.device.engine.bootState;
        result.value == Info(state.confirmed, SelectedSlot(state), Capabilities(link.device.engine), FLASH_SIZE)
      ensures old(link.tries) <= link.tries
      ensures old(link.device.Steady()) ==>
        && link.device.Steady()
        && if result.Ok? then Delivered(old(link.Now()), INFO_REQUEST, link.Now())
           else Stalled(link.tries, |old(link.tries)|, retries + 1)
    {
      hide HostEncode, EngineStep, Sane, Healthy, EngineRun, Answered, Executions, Settles, Serves, Delivered, Stalled, InfoBytes, Word8, Word32, SelectedSlot, Capabilities;
      InfoIsServed(link.Now());
      var reply, run, inputs := Exchange(INFO_REQUEST, false);
      SettlesOn(old(link.tries), link.tries, retries + 1, INFO_REQUEST, false, reply);
      if reply.Err? { return Err(reply.error); }
      InfoAnswered(run, inputs, reply.value);
      InfoFields(link.device.engine);
      var payload := reply.value.payload;
      if |payload| != PAYLOAD_SIZE { return Err(BadReply); }
      return Ok(Info(Word8(payload, 20), Word8(payload, 22), Word32(payload, 24), Word32(payload, 0)));
    }

    /** The slot command_upload writes to: the one asked for, or the one not
        confirmed. */
    method ChooseTarget(info: Info, choice: Option<uint8>) returns (result: Result<uint8>)
      ensures result.Ok? ==> result.value != info.confirmed && result.value != info.selected
      ensures result.Ok? && choice.Some? ==> result.value == choice.value
      ensures result.Ok? && choice.None? ==> SlotValid(info.confirmed) && result.value == OtherSlot(info.confirmed)
      ensures result.Err? ==>
        || (choice.None? && !SlotValid(info.confirmed))
        || (var target := if choice.Some? then choice.value else OtherSlot(info.confirmed);
            target == info.confirmed || target == info.selected)
    {
      var target: uint8;
      if choice.Some? {
        target := choice.value;
      } else {
        if info.confirmed != SLOT_A && info.confirmed != SLOT_B { return Err(Invalid); }
        target := if info.confirmed == SLOT_A then SLOT_B else SLOT_A;
      }
      if target == info.confirmed || target == info.selected { return Err(Invalid); }
      return Ok(target);
    }

    lemma BegunPoises(start: Snap, target: uint8, size: nat)
      requires Ready() && link.device.Steady() && Sane(start)
      requires Sessions.Free(start.engine, target) && MINIMUM_IMAGE <= size <= SLOT_SIZE
      requires start.engine.previous.Some? ==> start.engine.previous.value.request.command != BEGIN_IMAGE
      requires Performed(start, Sessions.BeginReport(target, size), link.Now())
      requires session == link.device.engine.session && sequence == 1 && sessionFlags == target
      ensures link.device.nor.mem == start.mem && Sessions.SameBoot(start.engine, link.device.engine)
      ensures Opened(link.Now(), target, size) && link.device.engine.target <= 1
      ensures Poised(ERASE_SLOT, 0, []) && Next(ERASE_SLOT, 0, []) == Sessions.EraseReport(link.device.engine)
    {
      hide HostEncode, Serves, Cached, Sound, Bounded, Sane, Performed;
      SaneIsBounded(start);
      BeginLeaves(start, target, size, link.Now());
      EraseIsServed(link.Now(), target, size);
    }

    lemma ErasedSends(open: Snap, target: uint8, image: Bytes)
      requires link.device.Steady() && Opened(open, target, |image|)
      requires Performed(open, Sessions.EraseReport(open.engine), link.Now())
      requires session == open.engine.session && session != 0 && sequence == 2 && sessionFlags == target
      ensures Sessions.Sent(link.Now(), open.mem, target, image, 0) && Sending(link.device.nor.mem, target, image, 0)
      ensures Sessions.SameBoot(open.engine, link.device.engine) && link.device.engine.target == target
    {
      hide HostEncode, Sound, Bounded, Performed, Sessions.Sent;
      EraseLeaves(open, target, image, link.Now());
      SentTarget(link.Now(), open.mem, target, image, 0);
    }

    lemma WrittenSends(empty: Snap, mem0: Bytes, target: uint8, image: Bytes)
      requires Sessions.Sent(empty, mem0, target, image, 0) && Sending(empty.mem, target, image, |image|)
      ensures Sending(mem0, target, image, |image|)
    {
      hide Sessions.Sent;
      SentThrough(link.Now(), empty.mem, mem0, target, image, |image|, empty, 0);
    }

    /** The first half of an upload: a session whose slot holds the image. */
    method Fill(image: Bytes, target: uint8) returns (result: Result<()>)
      requires Ready() && Healthy(link.Now())
      modifies this, link`tries, link.device, link.device.nor
      ensures Ready() && Healthy(link.Now())
      ensures result.Ok? ==>
        && SlotValid(target) && |image| <= SLOT_SIZE && Agrees() && sessionFlags == target
        && link.device.engine.target == target && !link.device.engine.fullSession
        && |link.device.nor.mem| == FLASH_SIZE && SlotBytes(link.device.nor.mem, target)[..|image|] == image
        && sequence == 2 + |WriteScript(image, 0, PAYLOAD_SIZE, target, session, 2)|
      ensures result.Ok? ==>
        exists before :: (before == old(history) || before == old(history) + [BeginPacket(target, |image|)])
                      && history == before + [SessionPacket(ERASE_SLOT, target, session, 1, 0, [])]
                                           + WriteScript(image, 0, PAYLOAD_SIZE, target, session, 2)
      ensures old(link.tries) <= link.tries
      ensures old(Opens(target, |image|)) ==>
        && link.device.Steady()
        && if result.Ok? then Sending(old(link.device.nor.mem), target, image, |image|)
                              && Sessions.SameBoot(old(link.device.engine), link.device.engine)
           else Stalled(link.tries, |old(link.tries)|, retries + 1)
    {
      hide EngineStep, Sane, Healthy, EngineRun, Holds, Newest, WriteScript, HostEncode, Sending, Poised, Stalled,
           Performed, Opened, Sessions.Sent, Sessions.Running;
      ghost var sure, start := Opens(target, |image|), link.Now();
      var begun := Begin(target, |image|);
      ghost var open, tried := link.Now(), link.tries;
      if sure && begun.Ok? { BegunPoises(start, target, |image|); }
      if begun.Err? { return Err(begun.error); }
      ghost var before := history;
      EncodedCommand(BeginPacket(target, |image|));
      assert link.device.engine.target == target && link.device.engine.imageSize == |image|;
      var erased := Erase();
      if sure {
        if erased.Ok? { ErasedSends(open, target, image); } else { StalledEarlier(link.tries, |old(link.tries)|, |tried|, retries + 1); }
      }
      if erased.Err? { return erased; }
      ghost var empty, used := link.Now(), link.tries;
      HoldsNothing(link.device.engine, link.device.nor.mem, image);
      ghost var e := link.device.engine;
      var written := Write(image, PAYLOAD_SIZE, 0);
      if sure {
        if written.Ok? { WrittenSends(empty, open.mem, target, image); } else { StalledEarlier(link.tries, |old(link.tries)|, |used|, retries + 1); }
      }
      if written.Err? { return written; }
      HoldsAll(link.device.engine, link.device.nor.mem, image, target);
      return Ok(());
    }

    /** The device is sure to take the image for this slot: it may open the slot,
        the image is one that boots, and its journal will take the engine's next
        state for newer than its own. */
    ghost predicate Takes(image: Bytes, target: uint8)
      reads link.device, link.device.nor
    {
      Opens(target, |image|) && Sessions.Complete(image) && TakesPending(link.device.engine, link.device.nor.mem, target)
    }

    lemma FinalizeIsPoised(mem0: Bytes, target: uint8, image: Bytes)
      requires Sending(mem0, target, image, |image|) && Sessions.Complete(image)
      ensures Poised(FINALIZE_IMAGE, 0, []) && Sessions.Sent(link.Now(), mem0, target, image, |image|)
      ensures link.device.Steady() && InStep(target)
      ensures target <= 1 && sequence < WORD && Next(FINALIZE_IMAGE, 0, []) == Sessions.FinalizeReport(link.device.engine)
    {
      hide HostEncode, Serves, Cached, Sound, Holds, Bounded, SameOutside, Sessions.Complete;
      Serving.FinalizeIsServed(link.Now(), mem0, target, image);
    }

    lemma PendingIsPoised(full: Snap, e0: Engine, mem0: Bytes, target: uint8, image: Bytes)
      requires link.device.Steady() && Sessions.Sent(full, mem0, target, image, |image|) && Sessions.Complete(image)
      requires Performed(full, Sessions.FinalizeReport(full.engine), link.Now())
      requires session == full.engine.session && session != 0 && sequence == full.engine.expectedSequence + 1 && sessionFlags == target
      requires Sessions.SameBoot(e0, full.engine) && Sessions.Free(e0, target) && TakesPending(e0, mem0, target)
      ensures Poised(SET_PENDING, 0, [])
    {
      hide HostEncode, Serves, Cached, Sound, Bounded, Performed, Sessions.Sent, Sessions.Complete, Journal.Advances, Sessions.Running;
      FinalizeLeaves(full, mem0, target, image, link.Now());
      SentElsewhere(full, mem0, target, image, |image|);
      hide BootState.Begun;
      Serving.PendingIsServed(link.Now(), target, |image|);
      RunningIs(link.device.engine, target, |image|);
    }

    /** The second half: the device checks the image and offers it. */
    method Offer(image: Bytes, target: uint8, ghost e0: Engine, ghost mem0: Bytes) returns (result: Result<()>)
      requires Ready() && Healthy(link.Now())
      modifies this`sequence, this`history, link`tries, link.device, link.device.nor
      ensures Ready() && Healthy(link.Now())
      ensures result.Ok? && old(Agrees()) && SlotValid(target) && |image| <= SLOT_SIZE && |old(link.device.nor.mem)| == FLASH_SIZE
              && old(link.device.engine).target == target && !old(link.device.engine).fullSession
              && SlotBytes(old(link.device.nor.mem), target)[..|image|] == image ==>
        && Agrees() && Arrived(image, target)
        && history == old(history) + [SessionPacket(FINALIZE_IMAGE, sessionFlags, session, Wrap32(old(sequence)), 0, [])]
                      + [SessionPacket(SET_PENDING, sessionFlags, session, Wrap32(old(sequence) + 1), 0, [])]
      ensures old(link.tries) <= link.tries
      ensures old(Sending(mem0, target, image, |image|)) && Sessions.Complete(image)
              && Sessions.SameBoot(e0, old(link.device.engine)) && Sessions.Free(e0, target) && TakesPending(e0, mem0, target)
              && result.Err? ==>
        Stalled(link.tries, |old(link.tries)|, retries + 1)
    {
      hide EngineStep, Sane, Healthy, EngineRun, Newest, Bootable, HostEncode, Sending, Poised, Performed, Stalled,
           Sessions.SameBoot, Sessions.Complete, Sessions.Free, Sessions.Sent, TakesPending;
      ghost var full, tried := link.Now(), link.tries;
      ghost var sure := Sending(mem0, target, image, |image|) && Sessions.Complete(image)
                        && Sessions.SameBoot(e0, full.engine) && Sessions.Free(e0, target) && TakesPending(e0, mem0, target);
      if sure { FinalizeIsPoised(mem0, target, image); }
      var finalized := Finalize();
      if sure && finalized.Ok? { PendingIsPoised(full, e0, mem0, target, image); }
      if finalized.Err? { return finalized; }
      ghost var used := link.tries;
      var pending := SetPending();
      if sure && pending.Err? { StalledEarlier(link.tries, |tried|, |used|, retries + 1); }
      if pending.Err? { return pending; }
      if SlotValid(target) && full.engine.target == target && !full.engine.fullSession && old(Agrees()) { PendingBoots(link.Now(), target); }
      return Ok(());
    }

    /** The session of command_upload, from BEGIN_IMAGE to SET_PENDING. */
    method Transfer(image: Bytes, target: uint8) returns (result: Result<()>)
      requires Ready() && Healthy(link.Now())
      modifies this, link`tries, link.device, link.device.nor
      ensures Ready() && Healthy(link.Now())
      ensures result.Ok? ==> Agrees() && Arrived(image, target)
      ensures result.Ok? ==>
        exists before :: (before == old(history) || before == old(history) + [BeginPacket(target, |image|)])
                      && |image| < WORD && history == before + UploadScript(image, target, session)
      ensures old(link.tries) <= link.tries
      ensures old(Takes(image, target)) && result.Err? ==> Stalled(link.tries, |old(link.tries)|, retries + 1)
    {
      hide EngineStep, Sane, Healthy, EngineRun, Newest, WriteScript, Bootable, HostEncode, Sending, Arrived, Agrees, Stalled,
           Sessions.SameBoot, Sessions.Complete, Sessions.Free, TakesPending;
      ghost var sure, mem0, e0 := Takes(image, target), link.device.nor.mem, link.device.engine;
      var filled := Fill(image, target);
      if filled.Err? { return filled; }
      ghost var tried := link.tries;
      ghost var before :| (before == old(history) || before == old(history) + [BeginPacket(target, |image|)])
                          && history == before + [SessionPacket(ERASE_SLOT, target, session, 1, 0, [])]
                                               + WriteScript(image, 0, PAYLOAD_SIZE, target, session, 2);
      result := Offer(image, target, e0, mem0);
      if sure && result.Err? { StalledEarlier(link.tries, |old(link.tries)|, |tried|, retries + 1); }
      if result.Err? { return; }
      assert history == before + UploadScript(image, target, session);
    }

    /** The image is in the slot, and the journal will try it next. */
    ghost predicate Arrived(image: Bytes, target: uint8)
      reads link.device, link.device.nor
    {
      var mem := link.device.nor.mem;
      && |mem| == FLASH_SIZE && SlotValid(target) && |image| <= SLOT_SIZE
      && SlotBytes(mem, target)[..|image|] == image
      && Offered(Current(mem), target) && Bootable(mem, target)
    }

    /** The slot an upload will choose. */
    ghost function Chosen(e: Engine, choice: Option<uint8>): uint8 {
      if choice.Some? then choice.value else OtherSlot(e.bootState.confirmed)
    }

    /** A device that is sure to take an upload: its chip runs and never fails, the
        image is one that boots, the slot is free and not the one a boot would
        try, and the journal will take the pending record. */
    ghost predicate Welcomes(image: Bytes, choice: Option<uint8>)
      reads link.device, link.device.nor
    {
      var e := link.device.engine;
      && link.device.Steady() && Sessions.Complete(image) && (choice.None? ==> SlotValid(e.bootState.confirmed))
      && Sessions.Free(e, Chosen(e, choice)) && Chosen(e, choice) != SelectedSlot(e.bootState)
      && TakesPending(e, link.device.nor.mem, Chosen(e, choice))
    }

    lemma InformedTakes(start: Snap, image: Bytes, choice: Option<uint8>)
      requires link.device.Steady() && Sane(start) && Delivered(start, INFO_REQUEST, link.Now())
      requires var e := start.engine;
        && Sessions.Complete(image) && Sessions.Free(e, Chosen(e, choice)) && TakesPending(e, start.mem, Chosen(e, choice))
      ensures link.device.engine.bootState == start.engine.bootState
      ensures Takes(image, Chosen(link.device.engine, choice))
    {
      hide HostEncode, Sane, Delivered, Journal.Advances, Cells;
      InfoLeaves(start, link.Now());
      Sessions.CompleteSize(image);
    }

    /** command_upload after the host's own checks of the image: whatever was lost
        on the way and whatever failed and was tried again, when it returns the
        image is in the target slot, that slot is pending and boots, and the
        device has executed each report of the session exactly once, in order. On
        a device that welcomes the upload it fails only if nothing came back of
        retries + 1 tries in a row. */
    method Upload(image: Bytes, choice: Option<uint8>) returns (result: Result<uint8>)
      requires Ready() && Healthy(link.Now())
      modifies this, link`tries, link.device, link.device.nor
      ensures Ready() && Healthy(link.Now())
      ensures result.Ok? ==>
        && Agrees() && Arrived(image, result.value)
        && (choice.Some? ==> result.value == choice.value)
      ensures result.Ok? ==>
        exists before :: old(history) <= before && |before| <= |old(history)| + 2
                      && |image| < WORD && history == before + UploadScript(image, result.value, session)
      ensures old(link.tries) <= link.tries
      ensures old(Welcomes(image, choice)) && result.Err? ==> Stalled(link.tries, |old(link.tries)|, retries + 1)
    {
      hide EngineStep, Sane, Healthy, EngineRun, Newest, UploadScript, Bootable, SelectedSlot, Delivered, Takes, TakesPending,
           Stalled, Sessions.Complete, Capabilities;
      ghost var sure, start := Welcomes(image, choice), link.Now();
      var info := GetInfo();
      if sure && info.Ok? { InformedTakes(start, image, choice); }
      if info.Err? { return Err(info.error); }
      var chosen := ChooseTarget(info.value, choice);
      if chosen.Err? { return Err(chosen.error); }
      ghost var informed, tried := history, link.tries;
      var target := chosen.value;
      var done := Transfer(image, target);
      if sure && done.Err? { StalledEarlier(link.tries, |old(link.tries)|, |tried|, retries + 1); }
      if done.Err? { return Err(done.error); }
      ghost var before :| (before == informed || before == informed + [BeginPacket(target, |image|)])
                          && |image| < WORD && history == before + UploadScript(image, target, session);
      assert old(history) <= before;
      return Ok(target);
    }

    /** reboot: true if acknowledged, false if the device was gone before its
        acknowledgement arrived. */
    method Reboot() returns (result: Result<bool>)
      requires Ready() && Healthy(link.Now())
      modifies this`sequence, this`history, link`tries, link.device, link.device.nor
      ensures Ready() && Healthy(link.Now()) && link.device.nor.mem == old(link.device.nor.mem)
      ensures history == old(history)
              || (old(sequence) < WORD && history == old(history) + [SessionPacket(REBOOT, sessionFlags, session, old(sequence), 0, [])])
      ensures result == Ok(true) && old(Agrees()) ==> Agrees() && sequence == old(sequence) + 1 && history != old(history)
      ensures old(link.tries) <= link.tries
    {
      hide HostEncode, EngineStep, Sane, Healthy, Answered, Cached, EngineRun, Answers;
      var reply, run, inputs := SessionCommand(REBOOT, 0, []);
      if reply.Ok? { return Ok(true); }
      var gone: bool := *;
      return if reply.error.NoReply? && gone then Ok(false) else Err(reply.error);
    }

    /** command_upload to its end. The reboot comes last: however it goes, a slot
        whose SET_PENDING was answered stays pending with the image in it. */
    method UploadAndReboot(image: Bytes, choice: Option<uint8>, noReboot: bool)
        returns (result: Result<uint8>, acknowledged: Option<bool>, offered: Option<uint8>)
      requires Ready() && Healthy(link.Now())
      modifies this, link`tries, link.device, link.device.nor
      ensures Ready() && Healthy(link.Now())
      ensures offered.Some? ==> Arrived(image, offered.value) && (choice.Some? ==> offered == choice)
      ensures result.Ok? ==> offered == Some(result.value) && (acknowledged.Some? <==> !noReboot)
      ensures old(link.tries) <= link.tries
      ensures old(Welcomes(image, choice)) && offered.None? ==> Stalled(link.tries, |old(link.tries)|, retries + 1)
    {
      hide Healthy, Newest, Bootable, UploadScript, Agrees, Welcomes, Stalled;
      acknowledged, offered := None, None;
      result := Upload(image, choice);
      if result.Err? { return; }
      offered := Some(result.value);
      if noReboot { return; }
      var rebooted := Reboot();
      if rebooted.Err? { return Err(rebooted.error), None, offered; }
      acknowledged := Some(rebooted.value);
    }

    /** begin_full_flash */
    method BeginFullFlash(imageSize: nat, sha: Bytes) returns (result: Result<uint32>)
      requires Ready()
      modifies this, link`tries, link.device, link.device.nor
      ensures Ready() && link.device.nor.mem == old(link.device.nor.mem)
      ensures result.Err? ==> session == old(session) && sequence == old(sequence)
      ensures result.Ok? ==>
        && imageSize == FLASH_SIZE && |sha| == Sha256Spec.DIGEST
        && Agrees() && session == result.value && sequence == 1 && slot == None && sessionFlags == FLAG_FULL_FLASH
        && FullBegunBy(link.device.engine, HostEncode(BeginFullPacket(sha)))
    {
      hide HostEncode, EngineStep, Sane, Healthy, EngineRun, Answered, FullBegunBy, Executions, Settles, Served, Delivered, Stalled;
      if imageSize != FLASH_SIZE { return Err(Invalid); }
      if |sha| != Sha256Spec.DIGEST { return Err(Invalid); }
      var request := BeginFullPacket(sha);
      var reply, run, inputs := Exchange(request, true);
      if reply.Err? { return Err(reply.error); }
      BeginAnswered(run, inputs, request, reply.value);
      if reply.value.session == 0 { return Err(BadReply); }
      slot := None;
      sessionFlags := FLAG_FULL_FLASH;
      session := reply.value.session;
      sequence := 1;
      return Ok(session);
    }

    /** erase_full_flash, of the whole chip or of its first `limit` bytes */
    method EraseFullFlash(limit: Option<nat>) returns (result: Result<()>)
      requires Ready()
      modifies this`sequence, this`history, link`tries, link.device, link.device.nor
      ensures Ready()
      ensures result.Ok? && old(Agrees()) && ErasedTo(old(link.Now()), old(link.device.nor.mem), 0) ==>
        Agrees() && ErasedTo(link.Now(), old(link.device.nor.mem), if limit.Some? then limit.value else FLASH_SIZE)
    {
      hide EngineStep, Sane, Healthy, EngineRun, Erased, ErasedTo, HostEncode, Answered, Cached;
      var total := FLASH_SIZE;
      if limit.Some? {
        if !(0 < limit.value <= total) { return Err(Invalid); }
        if limit.value % FULL_ERASE_CHUNK != 0 { return Err(Invalid); }
        total := limit.value;
      }
      ghost var mem := link.device.nor.mem;
      ghost var good := Agrees() && ErasedTo(link.Now(), mem, 0);
      var offset := 0;
      while offset < total
        invariant Ready() && offset <= total && offset % FULL_ERASE_CHUNK == 0
        invariant good ==> Agrees() && ErasedTo(link.Now(), mem, offset)
      {
        var erased := EraseNext(offset, mem);
        if erased.Err? { return erased; }
        offset := offset + FULL_ERASE_CHUNK;
      }
      return Ok(());
    }

    /** One step of erase_full_flash, with its check of the reported progress. */
    method EraseNext(offset: nat, ghost mem: Bytes) returns (result: Result<()>)
      requires Ready() && offset + FULL_ERASE_CHUNK <= FLASH_SIZE
      modifies this`sequence, this`history, link`tries, link.device, link.device.nor
      ensures Ready()
      ensures result.Ok? && old(Agrees()) && ErasedTo(old(link.Now()), mem, offset) ==>
        Agrees() && ErasedTo(link.Now(), mem, offset + FULL_ERASE_CHUNK)
    {
      hide EngineStep, Sane, Healthy, EngineRun, ErasedTo, HostEncode, Answered, Answers, Cached;
      ghost var good, request := Agrees() && ErasedTo(link.Now(), mem, offset), SessionPacket(ERASE_FULL_FLASH, sessionFlags, session, Wrap32(sequence), offset, []);
      var reply, run, inputs := SessionCommand(ERASE_FULL_FLASH, offset, []);
      if reply.Err? { return Err(reply.error); }
      if good { PieceErased(run, inputs, request, offset, mem); }
      if reply.value.offset != offset + FULL_ERASE_CHUNK { return Err(BadReply); }
      return Ok(());
    }

    /** command_handoff_to_rom: only the boot region goes. */
    method HandoffToRom(imageSize: nat, sha: Bytes) returns (result: Result<()>)
      requires Ready()
      modifies this, link`tries, link.device, link.device.nor
      ensures Ready()
      ensures result.Ok? ==>
        var before, after := old(link.device.nor.mem), link.device.nor.mem;
        && |before| == |after| == FLASH_SIZE
        && Erased(after[..BOOT_REGION_SIZE]) && after[BOOT_REGION_SIZE..] == before[BOOT_REGION_SIZE..]
    {
      hide EngineStep, Sane, Healthy, EngineRun, HostEncode, Capabilities;
      var info := GetInfo();
      if info.Err? { return Err(info.error); }
      if !Has(info.value.capabilities, CAPABILITY_FULL_FLASH_RAM) { return Err(Invalid); }
      if !Has(info.value.capabilities, CAPABILITY_PROGRESSIVE_FULL_ERASE) { return Err(Invalid); }
      if info.value.flashSize != imageSize { return Err(Invalid); }
      var begun := BeginFullFlash(imageSize, sha);
      if begun.Err? { return Err(begun.error); }
      result := EraseFullFlash(Some(BOOT_REGION_SIZE));
    }

    /** command_restore_full gets no further than its check of the capabilities:
        the engine never advertises verified programming, so nothing is erased. */
    method RestoreFull() returns (result: Result<()>)
      requires Ready()
      modifies this, link`tries, link.device, link.device.nor
      ensures Ready() && result.Err? && link.device.nor.mem == old(link.device.nor.mem)
    {
      hide EngineStep, Sane, Healthy, EngineRun, HostEncode, Capabilities;
      var info := GetInfo();
      if info.Err? { return Err(info.error); }
      Advertised(link.device.engine);
      if !Has(info.value.capabilities, CAPABILITY_FULL_FLASH_RAM) { return Err(Invalid); }
      if !Has(info.value.capabilities, CAPABILITY_PROGRESSIVE_FULL_ERASE) { return Err(Invalid); }
      if !Has(info.value.capabilities, CAPABILITY_VERIFIED_FULL_PROGRAM) { return Err(Invalid); }
      assert false;
      result := Err(Invalid);
    }

    /** The checks on a decoded reply. */
    method Judge(request: HostPacket, begin: bool, reply: HostPacket) returns (result: Result<HostPacket>)
      ensures result == Verdict(request, begin, reply)
    {
      if reply.command != request.command { return Err(BadReply); }
      if reply.flags != request.flags { return Err(BadReply); }
      if reply.sequence != request.sequence { return Err(BadReply); }
      if !begin && reply.session != request.session { return Err(BadReply); }
      if reply.status != 0 { return Err(Refused(reply.status)); }
      return Ok(reply);
    }
  }

  lemma GoodReply(run: seq<Snap>, inputs: seq<Input>, request: HostPacket, begin: bool, a: Snap, i: Input, response: Packet)
    requires |run| == |inputs| + 1 && |inputs| > 0 && run[|inputs| - 1] == a && inputs[|inputs| - 1] == i
    requires |a.mem| == FLASH_SIZE && Formed(i.request) && Bounded(a.engine) && Formed(response)
    requires var s := Process(a.engine, a.mem, i.request, i.io);
      s.response == response && response.status == s.status
    requires HostDecode(response).Some?
    requires var reply := HostDecode(response).value;
      Matches(request, begin, reply) && reply.status == Protocol.OK
    ensures Answered(run, inputs, request, begin, HostDecode(response).value)
  {
    hide Process;
  }

  /** An engine that has just opened a slot. */
  ghost predicate Opened(s: Snap, slot: uint8, size: nat) {
    && |s.mem| == FLASH_SIZE && Sound(s.engine) && Sessions.Running(s.engine, slot, size, 1) && SlotValid(slot)
    && s.engine.phase == PHASE_BEGUN && MINIMUM_IMAGE <= size <= SLOT_SIZE
  }

  /** The journal will take the engine's next state for newer than its own. */
  ghost predicate TakesPending(e: Engine, mem: Bytes, target: uint8) {
    |mem| == FLASH_SIZE && Journal.Advances(Cells(mem), BootState.Begun(e.bootState, target))
  }

  lemma RunningIs(e: Engine, slot: uint8, size: nat)
    requires Sessions.Running(e, slot, size, e.expectedSequence)
    ensures e.target == slot
  {}

  /** A slot in the filling leaves the journal alone. */
  lemma SentElsewhere(s: Snap, mem0: Bytes, slot: uint8, image: Bytes, n: nat)
    requires |mem0| == FLASH_SIZE && Sessions.Sent(s, mem0, slot, image, n)
    ensures |s.mem| == FLASH_SIZE && Cells(s.mem) == Cells(mem0) && SlotValid(slot) && |image| <= SLOT_SIZE
    ensures s.engine.target == slot && s.engine.expectedSequence <= n + 2
  {
    Sessions.SentOutside(s, mem0, slot, image, n);
    hide Sound, Holds, SameOutside, Cells;
    Journal.JournalUntouched(mem0, s.mem, SlotOffset(slot), SLOT_SIZE);
  }

  lemma SentTarget(s: Snap, mem0: Bytes, slot: uint8, image: Bytes, n: nat)
    requires Sessions.Sent(s, mem0, slot, image, n)
    ensures s.engine.target == slot && Sessions.Sent(s, s.mem, slot, image, n)
  {
    hide Sound, Holds;
  }

  /** Sent in two parts, and still nothing changed outside the slot. */
  lemma SentThrough(s: Snap, middle: Bytes, mem0: Bytes, slot: uint8, image: Bytes, n: nat, between: Snap, m: nat)
    requires Sessions.Sent(between, mem0, slot, image, m) && between.mem == middle && Sessions.Sent(s, middle, slot, image, n)
    ensures Sessions.Sent(s, mem0, slot, image, n)
  {
    hide Sound, Holds;
  }

  lemma HoldsNothing(e: Engine, mem: Bytes, image: Bytes)
    requires |mem| == FLASH_SIZE && Holds(e, mem, [])
    ensures image[..0] == [] && Holds(e, mem, image[..0])
  {}

  lemma HoldsAll(e: Engine, mem: Bytes, image: Bytes, target: uint8)
    requires |mem| == FLASH_SIZE && Holds(e, mem, image[..|image|]) && e.phase >= PHASE_ERASED
    requires !e.fullSession && e.target == target && SlotValid(target) && e.nextWrite == |image| <= SLOT_SIZE
    ensures SlotBytes(mem, target)[..|image|] == image
  {
    hide Erased, EraseLength;
    assert image[..|image|] == image;
    SliceOfSlice(mem, SlotOffset(target), SLOT_SIZE, 0, |image|);
  }

  lemma PendingBoots(s: Snap, target: uint8)
    requires Sane(s) && s.engine.phase == PHASE_PENDING && !s.engine.fullSession && s.engine.target == target
    ensures |s.mem| == FLASH_SIZE && Bootable(s.mem, target)
  {
    hide Bootable, CacheCurrent, CacheBehind;
  }

  lemma SuffixAgrees(a: Bytes, b: Bytes, from: nat, to: nat)
    requires |a| == |b| && from <= to <= |a| && a[from..] == b[from..]
    ensures a[to..] == b[to..]
  {
    assert a[to..] == a[from..][to - from..] && b[to..] == b[from..][to - from..];
  }

  // ---- Which devices and images that is ----

  /** Every image the host packs is complete, if its vectors are valid. */
  lemma PackedIsComplete(payload: Bytes, version: uint32, build: uint32)
    requires 8 <= |payload| <= PAYLOAD_CAPACITY && VectorsValid(|payload|, payload[..8])
    ensures Sessions.Complete(Package.BuildSlotImage(payload, version, build).value)
  {
    hide VectorsValid, ImageValid, Package.BuildSlotImage;
    var image := Package.BuildSlotImage(payload, version, build).value;
    forall slot: Bytes | |slot| == SLOT_SIZE && image <= slot
      ensures ImageValid(slot) && MANIFEST_SIZE + ImageSize(Manifest(slot)) <= |image|
    {
      Package.PackedImageBoots(payload, version, build, slot);
      Package.PackedSize(payload, version, build, slot);
    }
  }

  /** The journal takes a step on from its own state. */
  lemma OwnStateIsTaken(e: Engine, mem: Bytes, target: uint8)
    requires |mem| == FLASH_SIZE && e.bootState == Current(mem) && SlotValid(target) && target != e.bootState.confirmed
    ensures TakesPending(e, mem, target)
  {
    hide Newest;
    BootProofs.CurrentIsStorable(mem);
    TransitionsKeepStates(e.bootState, target);
  }

  /** A recovery entered with the journal's own state welcomes every complete
      image for the slot it is not confirmed on, exactly if no trial of that slot
      is still to come. */
  lemma EntryWelcomes(client: RecoveryClient, image: Bytes)
    requires client.link.Valid() && client.link.device.Steady() && Sessions.Complete(image)
    requires var mem := client.link.device.nor.mem;
      |mem| == FLASH_SIZE && IsEntry(client.link.device.engine, Current(mem))
    ensures var s := client.link.device.engine.bootState;
      client.Welcomes(image, None) <==> SelectedSlot(s) == s.confirmed
  {
    hide Newest, Sessions.Complete, Journal.Advances;
    var e, mem := client.link.device.engine, client.link.device.nor.mem;
    BootProofs.CurrentIsStorable(mem);
    OwnStateIsTaken(e, mem, OtherSlot(e.bootState.confirmed));
  }
}
