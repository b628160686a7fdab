/** The session numbers of the recovery engine: no session ever follows itself,
    so nothing sent for an abandoned one is taken by the next. */
module SessionNumbers {
  import opened Words
  import opened BootState
  import opened Nor
  import opened Protocol
  import opened EngineSpec
  import opened RecoveryEngine
  import opened EngineProofs
  import opened Retry
  import Sha256Spec

  // ---- The generator on its own words ----

  lemma Left13Injective(x: bv32, y: bv32)
    requires Left13(x) == Left13(y)
    ensures x == y
  {}

  lemma Right17Differs(x: bv32, y: bv32)
    requires Right17(x) == Right17(y)
    ensures Right17(x ^ y) == 0
  {}

  lemma Right17Vanishes(d: bv32)
    requires Right17(d) == 0
    ensures d == 0
  {}

  lemma NoDifference(x: bv32, y: bv32)
    requires x ^ y == 0
    ensures x == y
  {}

  lemma Right17Injective(x: bv32, y: bv32)
    requires Right17(x) == Right17(y)
    ensures x == y
  {
    hide Right17;
    Right17Differs(x, y);
    Right17Vanishes(x ^ y);
    NoDifference(x, y);
  }

  lemma Left5Injective(x: bv32, y: bv32)
    requires Left5(x) + 0x9E37_79B9 == Left5(y) + 0x9E37_79B9
    ensures x == y
  {}

  lemma MixInjective(x: bv32, y: bv32)
    requires Mix(x) == Mix(y)
    ensures x == y
  {
    hide Left13, Right17, Left5;
    Left5Injective(Right17(Left13(x)), Right17(Left13(y)));
    Right17Injective(Left13(x), Left13(y));
    Left13Injective(x, y);
  }

  lemma MixMoves(x: bv32)
    ensures Mix(x) != x
  {}

  // ---- On the session numbers ----

  lemma Doubled(b: bv32)
    requires b < 0x8000_0000
    ensures (b << 1) as int == 2 * (b as int) && ((b << 1) | 1) as int == 2 * (b as int) + 1
  {}

  lemma SmallWord(b: bv32)
    requires (b as int) < 0x8000_0000
    ensures b < 0x8000_0000
  {}

  lemma WordThatIs(x: uint32, b: bv32)
    requires b as int == x
    ensures (x as bv32) as int == x
  {}

  /** Every number below 2^32 is a word's, digit by digit. */
  lemma {:induction false} WordOfInt(x: uint32)
    ensures (x as bv32) as int == x
  {
    if x > 0 {
      var half := x / 2;
      WordOfInt(half);
      SmallWord(half as bv32);
      Doubled(half as bv32);
      if x % 2 == 0 { WordThatIs(x, (half as bv32) << 1); } else { WordThatIs(x, ((half as bv32) << 1) | 1); }
    } else {
      assert (0 as bv32) as int == 0;
    }
  }

  /** Different seeds give different numbers, before zero is replaced. */
  lemma ScrambleInjective(x: uint32, y: uint32)
    requires Scramble(x) == Scramble(y)
    ensures x == y
  {
    hide Mix;
    SameWord(Mix(x as bv32), Mix(y as bv32));
    MixInjective(x as bv32, y as bv32);
    WordOfInt(x);
    WordOfInt(y);
  }

  lemma SameWord(a: bv32, b: bv32)
    requires a as int == b as int
    ensures a == b
  {
    IntOfWord(a);
    IntOfWord(b);
  }

  lemma IntOfWord(a: bv32)
    ensures (a as int) as bv32 == a
  {}

  /** No session follows itself, whatever the seed. */
  lemma NextSessionMoves(seed: uint32)
    ensures NextSession(seed) != seed
  {
    MixMoves(seed as bv32);
    FirstNumber();
    hide Mix;
  }

  lemma FirstNumber()
    ensures Scramble(1) == 0x9E3B_99DA
  {
    assert Mix(1) == 0x9E3B_99DA;
  }

  /** Two steps of the generator from its default seed. */
  lemma FirstSessions()
    ensures NextSession(DEFAULT_SEED) == 0x3337_40EA
    ensures NextSession(0x3337_40EA) == 0x5C9F_3C58
  {
    assert Mix(0x4E58_4658) == 0x3337_40EA;
    assert Mix(0x3337_40EA) == 0x5C9F_3C58;
  }

  // ---- Sessions that follow one another ----

  /** The engine's seed is its last session number. */
  predicate Seeded(e: Engine) { e.session != 0 ==> e.seed == e.session }

  lemma DispatchSeeds(e: Engine, mem: Bytes, request: Packet, io: Io)
    requires Formed(request) && request.length <= PAYLOAD_SIZE && |mem| == FLASH_SIZE && Bounded(e)
    ensures var s := Dispatch(e, mem, request, io);
      if OpensSession(request.command) && s.status == OK
      then s.engine.session == s.engine.seed == NextSession(e.seed)
      else s.engine.session == e.session && s.engine.seed == e.seed
  {
    hide StoredImageValid, Sha256Spec.Hash, NextSession, InfoBytes, MakeResponse, ResolveRange, Begun;
  }

  /** A session number moves exactly with an accepted BEGIN. */
  lemma SessionStep(a: Snap, i: Input, b: Snap)
    requires EngineStep(a, i, b)
    ensures if Executes(a, i) && OpensSession(i.request.command)
            then b.engine.session == b.engine.seed == NextSession(a.engine.seed)
            else b.engine.session == a.engine.session && b.engine.seed == a.engine.seed
  {
    var e, request := a.engine, i.request;
    if Reaches(e, request) {
      LengthFits(request);
      hide Dispatch, ValidateCommon, Protocol.Finalize, Admit, Cached, Acts, Bounded, NextSession;
      HandlersFormResponses(e, a.mem, request, i.io);
      DispatchSeeds(e, a.mem, request, i.io);
    } else {
      UnreachedStep(a, i, b);
    }
  }

  /** An accepted BEGIN opens a session with another number than the last. */
  lemma BeginMovesOn(a: Snap, i: Input, b: Snap)
    requires EngineStep(a, i, b) && Seeded(a.engine) && Executes(a, i) && OpensSession(i.request.command)
    ensures Seeded(b.engine) && b.engine.session != a.engine.session && b.engine.session != 0
  {
    hide EngineStep, Executes, NextSession;
    SessionStep(a, i, b);
    NextSessionMoves(a.engine.seed);
  }

  lemma NotTheCached(e: Engine, request: Packet)
    requires CacheBehind(e) && UsesSession(request.command) && request.session != e.session
    ensures !Cached(e, request)
  {
    hide BegunBy, FullBegunBy;
  }

  /** A session command with another session's number is refused and changes
      nothing. */
  lemma WrongSessionIsRefused(a: Snap, i: Input, b: Snap)
    requires EngineStep(a, i, b) && Sane(a) && UsesSession(i.request.command) && i.request.session != a.engine.session
    ensures !Answers(a, i) && b == a
  {
    hide Trusted, CacheBehind, Process, Acts;
    NotTheCached(a.engine, i.request);
    assert !Reaches(a.engine, i.request) by { hide ValidateCommon, Cached; }
    hide ValidateCommon, Admit, Cached, Reaches;
    UnreachedStep(a, i, b);
  }

  lemma SaneStepAny(a: Snap, i: Input, b: Snap)
    requires EngineStep(a, i, b) && Sane(a)
    ensures Sane(b)
  {
    if Cacheable(i.request.command) {
      SaneStep(a, i, b);
    } else {
      hide EngineStep, Trusted, CacheBehind;
      TrustedStep(a, i, b);
      UncachedStep(a, i, b);
    }
  }

  lemma UncachedStep(a: Snap, i: Input, b: Snap)
    requires EngineStep(a, i, b) && !Cacheable(i.request.command)
    ensures b.engine == a.engine
  {
    var e, request := a.engine, i.request;
    if !Reaches(e, request) {
      UnreachedStep(a, i, b);
    } else if Executes(a, i) {
      LengthFits(request);
      hide Dispatch, ValidateCommon, Protocol.Finalize, Admit, Cached, Acts, Bounded;
      HandlersFormResponses(e, a.mem, request, i.io);
      DispatchSessions(e, a.mem, request, i.io);
    } else {
      RefusedStep(a, i, b);
    }
  }

  /** Whatever was sent for the session before an accepted BEGIN is refused, and
      changes nothing, for as long as no further BEGIN is accepted. */
  lemma {:induction false} OldSessionStaysOut(run: seq<Snap>, inputs: seq<Input>, k: nat)
    requires EngineRun(run, inputs) && 0 < k < |inputs| && Sane(run[0]) && Seeded(run[0].engine)
    requires Executes(run[0], inputs[0]) && OpensSession(inputs[0].request.command)
    requires forall j :: 0 < j < k ==> !(Executes(run[j], inputs[j]) && OpensSession(inputs[j].request.command))
    ensures UsesSession(inputs[k].request.command) && inputs[k].request.session == run[0].engine.session ==>
      !Answers(run[k], inputs[k]) && run[k + 1] == run[k]
  {
    hide EngineStep, Sane, Executes, Answers;
    assert EngineStep(run[0], inputs[0], run[0 + 1]);
    BeginMovesOn(run[0], inputs[0], run[1]);
    SaneStepAny(run[0], inputs[0], run[1]);
    for j := 1 to k
      invariant Sane(run[j]) && run[j].engine.session == run[1].engine.session
    {
      assert EngineStep(run[j], inputs[j], run[j + 1]);
      SaneStepAny(run[j], inputs[j], run[j + 1]);
      SessionStep(run[j], inputs[j], run[j + 1]);
    }
    assert EngineStep(run[k], inputs[k], run[k + 1]);
    if UsesSession(inputs[k].request.command) && inputs[k].request.session == run[0].engine.session {
      WrongSessionIsRefused(run[k], inputs[k], run[k + 1]);
    }
  }

  /** An engine just initialised is where such runs start. */
  lemma FreshIsSeeded(state: State, active: uint8, seed: uint32, hasKnobs: bool, hasLog: bool)
    ensures Seeded(Fresh(state, active, seed, hasKnobs, hasLog))
  {}

  lemma SeededStep(a: Snap, i: Input, b: Snap)
    requires EngineStep(a, i, b) && Seeded(a.engine)
    ensures Seeded(b.engine)
  {
    hide EngineStep, Executes, NextSession;
    SessionStep(a, i, b);
  }
}
