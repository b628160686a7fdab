/** What a device does with the copies of one report that a client sends again
    and again because requests and replies get lost. */
module Retry {
  import opened Words
  import opened BootState
  import opened Nor
  import opened Protocol
  import opened EngineSpec
  import opened RecoveryEngine
  import opened EngineProofs
  import Sha256Spec

  // ---- The retry cache never runs ahead ----

  /** The engine as BEGIN_IMAGE leaves it. */
  predicate BegunBy(e: Engine, request: Packet) {
    && e.phase == PHASE_BEGUN && !e.fullSession && e.expectedSequence == 1
    && e.target == PacketSlot(request.flags) && e.imageSize == request.offset
  }

  /** The engine as BEGIN_FULL_FLASH leaves it. */
  predicate FullBegunBy(e: Engine, request: Packet) {
    && e.phase == PHASE_BEGUN && e.fullSession && e.expectedSequence == 1 && e.fullErase == 0
    && e.imageSha == request.payload
  }

  /** The cached packet is the last one accepted. */
  ghost predicate CacheBehind(e: Engine) {
    e.previous.Some? ==>
      var x := e.previous.value;
      && (UsesSession(x.request.command) ==> x.request.session == e.session && e.expectedSequence == Wrap32(x.request.sequence + 1))
      && (x.request.command == BEGIN_IMAGE ==> BegunBy(e, x.request) && x.response.session == e.session)
      && (x.request.command == BEGIN_FULL_FLASH ==> FullBegunBy(e, x.request) && x.response.session == e.session)
  }

  lemma DispatchSessions(e: Engine, mem: Bytes, request: Packet, io: Io)
    requires Formed(request) && request.length <= PAYLOAD_SIZE && |mem| == FLASH_SIZE && Bounded(e)
    requires Dispatch(e, mem, request, io).status == OK
    ensures var s := Dispatch(e, mem, request, io);
      && (UsesSession(request.command) ==>
            s.engine.session == e.session && s.engine.expectedSequence == e.expectedSequence && s.engine.target == e.target
            && s.engine.imageSize == e.imageSize && s.engine.fullSession == e.fullSession)
      && (request.command == BEGIN_IMAGE ==> BegunBy(s.engine, request) && s.response.session == s.engine.session)
      && (request.command == BEGIN_FULL_FLASH ==> FullBegunBy(s.engine, request) && s.response.session == s.engine.session)
      && (!Cacheable(request.command) ==> s.engine == e)
  {
    hide StoredImageValid, Sha256Spec.Hash, NextSession, InfoBytes, MakeResponse, ResolveRange, Begun;
  }

  lemma CommitCacheBehind(s: Step, request: Packet)
    requires Formed(s.response) && s.status == OK && Cacheable(request.command)
    requires UsesSession(request.command) ==> request.session == s.engine.session && request.sequence == s.engine.expectedSequence
    requires request.command == BEGIN_IMAGE ==> BegunBy(s.engine, request) && s.response.session == s.engine.session
    requires request.command == BEGIN_FULL_FLASH ==> FullBegunBy(s.engine, request) && s.response.session == s.engine.session
    ensures CacheBehind(Commit(s, request).engine)
    ensures Cached(Commit(s, request).engine, request)
  {}

  // ---- One copy ----

  ghost predicate Sane(s: Snap) { Trusted(s) && CacheBehind(s.engine) }

  /** The device runs the command, and accepts it. */
  ghost predicate Executes(a: Snap, i: Input) {
    && |a.mem| == FLASH_SIZE && Formed(i.request) && Bounded(a.engine)
    && Reaches(a.engine, i.request) && Process(a.engine, a.mem, i.request, i.io).status == OK
  }

  /** The reply says OK. */
  ghost predicate Answers(a: Snap, i: Input) {
    && |a.mem| == FLASH_SIZE && Formed(i.request) && Bounded(a.engine)
    && Process(a.engine, a.mem, i.request, i.io).status == OK
  }

  lemma AcceptedStep(a: Snap, i: Input, b: Snap)
    requires EngineStep(a, i, b) && Sane(a) && Cacheable(i.request.command) && Executes(a, i)
    ensures CacheBehind(b.engine) && Cached(b.engine, i.request) && !Cached(a.engine, i.request)
    ensures UsesSession(i.request.command) ==>
      && i.request.session == a.engine.session == b.engine.session && i.request.sequence == a.engine.expectedSequence
      && b.engine.expectedSequence == Wrap32(i.request.sequence + 1)
      && b.engine.target == a.engine.target && b.engine.imageSize == a.engine.imageSize && b.engine.fullSession == a.engine.fullSession
  {
    var e, request := a.engine, i.request;
    hide Dispatch, ValidateCommon, Protocol.Finalize, MakeResponse, Acts, Sound, Vouched, CacheCurrent, BegunBy, FullBegunBy;
    LengthFits(request);
    HandlersFormResponses(e, a.mem, request, i.io);
    DispatchSessions(e, a.mem, request, i.io);
    if UsesSession(request.command) { SessionsStaySeparate(e, request); }
    CommitCacheBehind(Dispatch(e, a.mem, request, i.io), request);
  }

  lemma UnreachedStep(a: Snap, i: Input, b: Snap)
    requires EngineStep(a, i, b) && !Reaches(a.engine, i.request)
    ensures b == a && !Executes(a, i)
    ensures Answers(a, i) ==> Cached(a.engine, i.request)
  {
    hide Dispatch, ValidateCommon, Protocol.Finalize, MakeResponse, Admit;
  }

  lemma RefusedStep(a: Snap, i: Input, b: Snap)
    requires EngineStep(a, i, b) && Reaches(a.engine, i.request) && !Executes(a, i)
    ensures b.engine == a.engine && !Answers(a, i)
  {
    hide Process, ValidateCommon, Admit, Acts, Cached;
    RejectedChangesNothing(a.engine, a.mem, i.request, i.io);
  }

  lemma SaneStep(a: Snap, i: Input, b: Snap)
    requires EngineStep(a, i, b) && Sane(a) && Cacheable(i.request.command)
    ensures Sane(b)
  {
    hide Trusted, EngineStep, Executes, CacheBehind;
    TrustedStep(a, i, b);
    StepIsFormed(a, i, b);
    if !Reaches(a.engine, i.request) { UnreachedStep(a, i, b); }
    else if Executes(a, i) { AcceptedStep(a, i, b); }
    else { RefusedStep(a, i, b); }
  }

  lemma StepIsFormed(a: Snap, i: Input, b: Snap)
    requires EngineStep(a, i, b)
    ensures |a.mem| == |b.mem| == FLASH_SIZE && Formed(i.request) && Bounded(a.engine)
  {
    hide Process;
  }

  // ---- All copies ----

  ghost predicate Repeats(inputs: seq<Input>, request: Packet) {
    forall k :: 0 <= k < |inputs| ==> inputs[k].request == request
  }

  ghost function Executions(run: seq<Snap>, inputs: seq<Input>): nat
    requires |run| == |inputs| + 1
    decreases |inputs|
  {
    var n := |inputs|;
    if n == 0 then 0 else Executions(run[..n], inputs[..n - 1]) + if Executes(run[n - 1], inputs[n - 1]) then 1 else 0
  }

  /** Exactly once: however many copies of a report arrive, and whatever the
      backend does, the device accepts at most one; and once a copy has been
      answered with OK, it has accepted exactly one, unless that very report was
      already the last one accepted before. */
  lemma {:induction false} CopiesExecuteOnce(run: seq<Snap>, inputs: seq<Input>, request: Packet)
    requires EngineRun(run, inputs) && Sane(run[0]) && Repeats(inputs, request) && Cacheable(request.command)
    ensures Sane(run[|inputs|])
    ensures Executions(run, inputs) <= 1
    ensures Executions(run, inputs) == 0 ==> run[|inputs|].engine == run[0].engine
    ensures Executions(run, inputs) == 1 ==> Cached(run[|inputs|].engine, request) && !Cached(run[0].engine, request)
    ensures |inputs| > 0 && Answers(run[|inputs| - 1], inputs[|inputs| - 1]) ==>
      && Cached(run[|inputs|].engine, request)
      && Executions(run, inputs) == if Cached(run[0].engine, request) then 0 else 1
    decreases |inputs|
  {
    hide Sane, EngineStep, Executes, Answers, Cached;
    var n := |inputs|;
    if n > 0 {
      var before, earlier := run[..n], inputs[..n - 1];
      assert EngineRun(before, earlier);
      forall k | 0 <= k < |earlier| ensures earlier[k].request == request { assert inputs[k].request == request; }
      CopiesExecuteOnce(before, earlier, request);
      var a, i, b := run[n - 1], inputs[n - 1], run[n];
      assert EngineStep(run[n - 1], inputs[n - 1], run[n - 1 + 1]);
      assert i.request == request && before[n - 1] == a;
      CopyStep(a, i, b);
    }
  }

  lemma CopyStep(a: Snap, i: Input, b: Snap)
    requires EngineStep(a, i, b) && Sane(a) && Cacheable(i.request.command)
    ensures Sane(b)
    ensures Executes(a, i) ==> Cached(b.engine, i.request) && !Cached(a.engine, i.request)
    ensures !Executes(a, i) ==> b.engine == a.engine
    ensures Answers(a, i) ==> Cached(b.engine, i.request)
  {
    hide Sane, EngineStep, Answers, Cached;
    SaneStep(a, i, b);
    StepIsFormed(a, i, b);
    hide Executes;
    if !Reaches(a.engine, i.request) { UnreachedStep(a, i, b); }
    else if Executes(a, i) { AcceptedStep(a, i, b); }
    else { RefusedStep(a, i, b); }
  }

  /** What every copy keeps, the last one has kept. */
  lemma {:induction false} CopiesKeep(run: seq<Snap>, inputs: seq<Input>, request: Packet, keeps: Snap -> bool)
    requires EngineRun(run, inputs) && Repeats(inputs, request) && keeps(run[0])
    requires forall a, i, b :: keeps(a) && EngineStep(a, i, b) && i.request == request ==> keeps(b)
    ensures keeps(run[|inputs|])
    decreases |inputs|
  {
    hide EngineStep;
    var n := |inputs|;
    if n > 0 {
      assert EngineRun(run[..n], inputs[..n - 1]);
      var earlier := inputs[..n - 1];
      forall k | 0 <= k < |earlier| ensures earlier[k].request == request { assert inputs[k].request == request; }
      CopiesKeep(run[..n], inputs[..n - 1], request, keeps);
      assert EngineStep(run[n - 1], inputs[n - 1], run[n - 1 + 1]);
      assert inputs[n - 1].request == request;
    }
  }
}
