/** Which faults the never-bricked guarantee covers: all of them, as long as
    recovery is entered with a state that agrees with the journal. */
module BootFaults {
  import opened Words
  import opened BootState
  import opened Nor
  import opened Journal
  import opened JournalProofs
  import opened Trial
  import opened Image
  import opened Protocol
  import opened EngineSpec
  import opened RecoveryEngine
  import opened EngineProofs
  import opened BootMachine
  import opened BootProofs

  // ---- Power loss alone always leaves recovery in agreement ----

  /** A stage that ended because the journal backend reported an error while the
      device kept running. */
  predicate BackendFault(l: Label) {
    match l
    case Force(loaded) => !loaded
    case Confirm(o) => o == ReadFailed || o == StoreFailed
    case Prepare(o) => o == ReadFailed || o == StoreFailed
    case TryFirst(loads, o) => o == ReadFailed || o == StoreFailed
    case _ => false
  }

  lemma CurrentIsNear(e: Engine, mem: Bytes)
    requires |mem| == FLASH_SIZE && e.bootState == Current(mem)
    ensures Near(e, mem)
  {
    hide Newest;
    CurrentIsStorable(mem);
    var slot := OtherSlot(Current(mem).confirmed);
    OneStep(Cells(mem), Begun(e.bootState, slot));
  }

  lemma PowerLossEntersInAgreement(w: World, l: Label, v: World)
    requires |v.mem| == FLASH_SIZE
    requires Moves(w, l, v)
    requires !BackendFault(l)
    requires Safe(w)
    ensures EntryNear(w, v)
  {
    hide Intact, Bootable, Newest, StepOk, Stores, Near;
    if !w.mode.Recovery? && v.mode.Recovery? {
      match l
      case Force(loaded) => CurrentIsNear(v.mode.engine, v.mem);
      case TrySecond(loads) => CurrentIsNear(v.mode.engine, v.mem);
      case TryFirst(loads, o) => CurrentIsNear(v.mode.engine, v.mem);
      case _ =>
    }
  }

  /** Never bricked by power loss: with resets and power failures at any flash
      call and any two mailbox writes, but no backend error on a running device,
      no assumption about recovery entries is needed. */
  lemma {:induction false} NeverBrickedByPowerLoss(worlds: seq<World>, labels: seq<Label>)
    requires Path(worlds, labels) && Safe(worlds[0])
    requires forall k :: 0 <= k < |labels| ==> !BackendFault(labels[k])
    ensures forall k :: 0 <= k < |worlds| ==> Safe(worlds[k])
  {
    hide Safe, Moves, EntryNear, BackendFault;
    var n := |labels|;
    if n > 0 {
      var before, earlier := worlds[..n], labels[..n - 1];
      assert Path(before, earlier);
      NeverBrickedByPowerLoss(before, earlier);
      var w, l, v := worlds[n - 1], labels[n - 1], worlds[n];
      assert w == before[n - 1];
      assert Moves(worlds[n - 1], labels[n - 1], worlds[n - 1 + 1]);
      MovesKeepSize(w, l, v);
      PowerLossEntersInAgreement(w, l, v);
      StepSafe(w, l, v);
      forall k | 0 <= k < |worlds| ensures Safe(worlds[k]) {
        if k < n { assert worlds[k] == before[k]; }
      }
    }
  }

  lemma MovesKeepSize(w: World, l: Label, v: World)
    requires Moves(w, l, v)
    ensures |w.mem| == |v.mem| == FLASH_SIZE
  {
    hide Bootable, Newest, Stores;
  }

  // ---- Without agreement the guarantee is lost ----

  function BeginPacket(slot: uint8): (p: Packet)
    requires SlotValid(slot)
    ensures Formed(p)
  {
    HostEncode(HostPacket(BEGIN_IMAGE, slot, 0, 0, MINIMUM_IMAGE, OK, []))
  }

  function ErasePacket(slot: uint8, session: uint32): (p: Packet)
    requires SlotValid(slot)
    ensures Formed(p)
  {
    HostEncode(HostPacket(ERASE_SLOT, slot, session, 1, 0, OK, []))
  }

  lemma HostPacketFields(h: HostPacket)
    requires Encodable(h)
    ensures var p := HostEncode(h);
      && p.command == h.command && p.flags == h.flags && p.session == h.session && p.sequence == h.sequence
      && p.offset == h.offset && p.length == |h.payload| && p.status == h.status
  {}

  lemma BareCommandIsValid(h: HostPacket)
    requires Encodable(h) && h.flags <= 1 && h.status == OK && h.payload == []
    requires h.command == BEGIN_IMAGE || h.command == ERASE_SLOT
    ensures ValidateCommon(HostEncode(h)) == OK
  {
    hide HostEncode, Validate;
    HostRoundTrip(h);
    HostPacketFields(h);
  }

  lemma BeginStep(e: Engine, mem: Bytes, p: Packet, slot: uint8, size: nat, io: Io)
    requires |mem| == FLASH_SIZE && Bounded(e) && SlotValid(slot)
    requires slot != e.bootState.confirmed && slot != e.active
    requires e.previous.Some? ==> e.previous.value.request != p
    requires Formed(p) && ValidateCommon(p) == OK
    requires p.command == BEGIN_IMAGE && p.flags == slot && p.session == p.sequence == 0
    requires p.offset == size && MINIMUM_IMAGE <= size <= SLOT_SIZE && p.length == 0
    ensures var s := Process(e, mem, p, io);
      && s.action == NoAction
      && s.engine == e.(session := NextSession(e.seed), seed := NextSession(e.seed), expectedSequence := 1, nextWrite := 0,
                        imageSize := size, target := slot, fullSession := false, phase := PHASE_BEGUN,
                        previous := s.engine.previous)
      && s.engine.previous.Some? && s.engine.previous.value.request == p
  {
    hide Dispatch, ValidateCommon, Protocol.Finalize, NextSession, MakeResponse, HandleBegin;
    LengthFits(p);
    DispatchTo(e, mem, p, io);
    HandlersFormResponses(e, mem, p, io);
    BeginHandled(e, p, slot, size);
  }

  lemma BeginHandled(e: Engine, p: Packet, slot: uint8, size: nat)
    requires SlotValid(slot) && slot != e.bootState.confirmed && slot != e.active
    requires p.flags == slot && p.offset == size && MINIMUM_IMAGE <= size <= SLOT_SIZE
    ensures var s := HandleBegin(e, p);
      && s.status == OK && s.action == NoAction
      && s.engine == e.(session := NextSession(e.seed), seed := NextSession(e.seed), expectedSequence := 1, nextWrite := 0,
                        imageSize := size, target := slot, fullSession := false, phase := PHASE_BEGUN, previous := None)
  {
    hide NextSession, MakeResponse;
  }

  lemma EraseStep(e: Engine, mem: Bytes, p: Packet, slot: uint8, io: Io)
    requires |mem| == FLASH_SIZE && Bounded(e) && SlotValid(slot)
    requires e.phase == PHASE_BEGUN && e.target == slot && !e.fullSession
    requires e.imageSize == MINIMUM_IMAGE && e.expectedSequence == 1
    requires e.previous.Some? && e.previous.value.request != p
    requires Formed(p) && ValidateCommon(p) == OK
    requires p.command == ERASE_SLOT && p.flags == slot && p.session == e.session && p.sequence == 1 && p.length == 0
    requires io.ok
    ensures Process(e, mem, p, io).action == EraseFlash(SlotOffset(slot), 2 * NOR_SECTOR_SIZE)
  {
    hide Dispatch, ValidateCommon, Protocol.Finalize, MakeResponse, HandleEraseSlot;
    LengthFits(p);
    DispatchTo(e, mem, p, io);
    HandlersFormResponses(e, mem, p, io);
    MinimumErase(e, p, slot, io);
  }

  lemma MinimumErase(e: Engine, p: Packet, slot: uint8, io: Io)
    requires SlotValid(slot) && e.phase == PHASE_BEGUN && e.target == slot && e.imageSize == MINIMUM_IMAGE && io.ok
    ensures HandleEraseSlot(e, p, io).action == EraseFlash(SlotOffset(slot), 2 * NOR_SECTOR_SIZE)
  {
    hide MakeResponse;
  }

  lemma BeginPacketIs(slot: uint8)
    requires SlotValid(slot)
    ensures var p := BeginPacket(slot);
      && ValidateCommon(p) == OK
      && p.command == BEGIN_IMAGE && p.flags == slot && p.session == p.sequence == 0
      && p.offset == MINIMUM_IMAGE && p.length == 0
  {
    var h := HostPacket(BEGIN_IMAGE, slot, 0, 0, MINIMUM_IMAGE, OK, []);
    hide HostEncode, ValidateCommon;
    BareCommandIsValid(h);
    HostPacketFields(h);
  }

  lemma ErasePacketIs(slot: uint8, session: uint32)
    requires SlotValid(slot)
    ensures var p := ErasePacket(slot, session);
      && ValidateCommon(p) == OK
      && p.command == ERASE_SLOT && p.flags == slot && p.session == session && p.sequence == 1 && p.length == 0
  {
    var h := HostPacket(ERASE_SLOT, slot, session, 1, 0, OK, []);
    hide HostEncode, ValidateCommon;
    BareCommandIsValid(h);
    HostPacketFields(h);
  }

  function Wiped(mem: Bytes, at: nat, n: nat): (r: Bytes)
    requires |mem| == FLASH_SIZE && at + n <= FLASH_SIZE
    ensures |r| == FLASH_SIZE
  {
    mem[..at] + Filled(n, 0xFF) + mem[at + n..]
  }

  lemma WipedIsErased(mem: Bytes, at: nat, n: nat)
    requires |mem| == FLASH_SIZE && at + n <= FLASH_SIZE
    ensures EraseEffect(mem, Wiped(mem, at, n), at, n, true)
  {
    assert Wiped(mem, at, n)[at..at + n] == Filled(n, 0xFF);
  }

  lemma ErasedIsNotBootable(mem: Bytes, slot: uint8)
    requires |mem| == FLASH_SIZE && SlotValid(slot)
    requires Erased(mem[SlotOffset(slot)..SlotOffset(slot) + NOR_SECTOR_SIZE])
    ensures !Bootable(mem, slot)
  {
    hide VectorsValid, Sha256Spec.Hash;
    var image := SlotBytes(mem, slot);
    var sector := mem[SlotOffset(slot)..SlotOffset(slot) + NOR_SECTOR_SIZE];
    SliceOfSlice(mem, SlotOffset(slot), SLOT_SIZE, 0, 4);
    assert Manifest(image)[0..4] == image[0..4] == sector[0..4];
    ErasedWord(Manifest(image)[0..4]);
  }

  lemma ErasedWord(b: Bytes)
    requires |b| == 4 && Erased(b)
    ensures FromLe(b) % 256 == 0xFF
  {
    assert FromLe(b) == 255 + 256 * FromLe(b[1..]);
  }

  /** An engine that does not protect a slot can be told to erase it. */
  lemma UnprotectedSlotCanBeErased(e: Engine, mem: Bytes, slot: uint8) returns (run: seq<Snap>, inputs: seq<Input>)
    requires |mem| == FLASH_SIZE && Sound(e) && SlotValid(slot)
    requires e.previous.Some? ==> e.previous.value.request.command != BEGIN_IMAGE
    requires slot != e.bootState.confirmed && slot != e.active
    ensures EngineRun(run, inputs) && |inputs| == 2 && run[0] == Snap(e, mem)
    ensures |run[2].mem| == FLASH_SIZE
    ensures Current(run[2].mem) == Current(mem) && Current(run[1].mem) == Current(mem)
    ensures !Bootable(run[2].mem, slot)
  {
    hide Process, Bootable, Sound, Bounded, Newest, Wiped, EraseEffect, EngineStep, Cells, Acts;
    var e1, e2, p, q := BeginThenErase(e, mem, slot);
    var io := Io(true, []);
    var after := Wiped(mem, SlotOffset(slot), 2 * NOR_SECTOR_SIZE);
    WipedUnbootable(mem, slot);
    QuietStep(e, mem, p, io);
    EraseActs(mem, SlotOffset(slot), 2 * NOR_SECTOR_SIZE, after);
    StepWith(e1, mem, q, io, after);
    run := [Snap(e, mem), Snap(e1, mem), Snap(e2, after)];
    inputs := [Input(p, io), Input(q, io)];
    RunOfTwo(run, inputs);
  }

  lemma RunOfTwo(run: seq<Snap>, inputs: seq<Input>)
    requires |run| == 3 && |inputs| == 2
    requires EngineStep(run[0], inputs[0], run[1]) && EngineStep(run[1], inputs[1], run[2])
    ensures EngineRun(run, inputs)
  {
    hide EngineStep;
  }

  lemma StepWith(e: Engine, mem: Bytes, request: Packet, io: Io, after: Bytes)
    requires |mem| == |after| == FLASH_SIZE && Formed(request) && Bounded(e)
    requires Acts(mem, Process(e, mem, request, io).action, io.ok, after)
    ensures EngineStep(Snap(e, mem), Input(request, io), Snap(Process(e, mem, request, io).engine, after))
  {
    hide Process, Acts;
  }

  lemma QuietStep(e: Engine, mem: Bytes, request: Packet, io: Io)
    requires |mem| == FLASH_SIZE && Formed(request) && Bounded(e)
    requires Process(e, mem, request, io).action == NoAction
    ensures EngineStep(Snap(e, mem), Input(request, io), Snap(Process(e, mem, request, io).engine, mem))
  {
    hide Process;
  }

  lemma EraseActs(mem: Bytes, at: nat, n: nat, after: Bytes)
    requires |mem| == FLASH_SIZE && at + n <= FLASH_SIZE && EraseEffect(mem, after, at, n, true)
    ensures Acts(mem, EraseFlash(at, n), true, after)
  {
    hide EraseEffect;
  }

  lemma BeginThenErase(e: Engine, mem: Bytes, slot: uint8) returns (e1: Engine, e2: Engine, p: Packet, q: Packet)
    requires |mem| == FLASH_SIZE && Sound(e) && SlotValid(slot)
    requires e.previous.Some? ==> e.previous.value.request.command != BEGIN_IMAGE
    requires slot != e.bootState.confirmed && slot != e.active
    ensures Formed(p) && Formed(q) && Bounded(e) && Bounded(e1)
    ensures var s := Process(e, mem, p, Io(true, []));
      s.engine == e1 && s.action == NoAction
    ensures var s := Process(e1, mem, q, Io(true, []));
      s.engine == e2 && s.action == EraseFlash(SlotOffset(slot), 2 * NOR_SECTOR_SIZE)
  {
    var io := Io(true, []);
    SoundIsBounded(e);
    hide Process, Sound, Bounded, BeginPacket, ErasePacket, ValidateCommon;
    p := BeginPacket(slot);
    BeginPacketIs(slot);
    e1 := Process(e, mem, p, io).engine;
    BeginStep(e, mem, p, slot, MINIMUM_IMAGE, io);
    ProcessIsSound(e, mem, p, io);
    SoundIsBounded(e1);
    q := ErasePacket(slot, e1.session);
    ErasePacketIs(slot, e1.session);
    EraseStep(e1, mem, q, slot, io);
    e2 := Process(e1, mem, q, io).engine;
  }

  lemma WipedUnbootable(mem: Bytes, slot: uint8)
    requires |mem| == FLASH_SIZE && SlotValid(slot)
    ensures var after := Wiped(mem, SlotOffset(slot), 2 * NOR_SECTOR_SIZE);
      && EraseEffect(mem, after, SlotOffset(slot), 2 * NOR_SECTOR_SIZE, true)
      && Cells(after) == Cells(mem)
      && !Bootable(after, slot)
  {
    hide Bootable, Wiped;
    var at, n := SlotOffset(slot), 2 * NOR_SECTOR_SIZE;
    var after := Wiped(mem, at, n);
    WipedIsErased(mem, at, n);
    JournalUntouched(mem, after, at, n);
    ErasedHalf(after, at);
    ErasedIsNotBootable(after, slot);
  }

  lemma ErasedHalf(mem: Bytes, at: nat)
    requires at + 2 * NOR_SECTOR_SIZE <= |mem| && Erased(mem[at..at + 2 * NOR_SECTOR_SIZE])
    ensures Erased(mem[at..at + NOR_SECTOR_SIZE])
  {
    ErasedPiece(mem, at, at + 2 * NOR_SECTOR_SIZE, at, at + NOR_SECTOR_SIZE);
  }

  /** What an entry protects, read off before the engine starts. If the state
      handed to the engine names another confirmed slot than the journal, some
      reports make the confirmed slot unbootable. If it names the same one and
      the record the engine would store next is a short step on, none can, with
      any backend fault. BootEntries says which entries take that step. */
  lemma EntryProtectsIffConfirmedAgrees(e: Engine, mem: Bytes)
    requires |mem| == FLASH_SIZE && Intact(Cells(mem)) && Storable(e.bootState) && IsEntry(e, e.bootState)
    requires Bootable(mem, Current(mem).confirmed)
    ensures e.bootState.confirmed != Current(mem).confirmed ==> !Protects(e, mem)
    ensures StepOk(Cells(mem), Begun(e.bootState, OtherSlot(Current(mem).confirmed))) ==>
      (e.bootState.confirmed == Current(mem).confirmed <==> Protects(e, mem))
  {
    hide Intact, Bootable, Newest, StepOk, Sound, Fresh;
    EntryIsFresh(e);
    if e.bootState.confirmed == Current(mem).confirmed {
      if StepOk(Cells(mem), Begun(e.bootState, OtherSlot(Current(mem).confirmed))) {
        forall run, inputs | EngineRun(run, inputs) && run[0] == Snap(e, mem)
          ensures StillBoots(run[|inputs|])
        {
          AgreedRunBoots(run, inputs);
        }
      }
    } else {
      BootableIsValid(mem, Current(mem).confirmed);
      var run, inputs := UnprotectedSlotCanBeErased(e, mem, Current(mem).confirmed);
      assert !StillBoots(run[|inputs|]);
    }
  }

  ghost predicate StillBoots(s: Snap) {
    |s.mem| == FLASH_SIZE && Bootable(s.mem, Current(s.mem).confirmed)
  }

  /** No run of the engine from here can make the confirmed slot unbootable. */
  ghost predicate Protects(e: Engine, mem: Bytes) {
    forall run, inputs :: EngineRun(run, inputs) && run[0] == Snap(e, mem) ==> StillBoots(run[|inputs|])
  }

  lemma EntryIsFresh(e: Engine)
    requires IsEntry(e, e.bootState) && Storable(e.bootState)
    ensures Sound(e) && e.previous == None && !e.fullEnabled && e.active == e.bootState.confirmed
    ensures forall mem: Bytes | |mem| == FLASH_SIZE :: Vouched(e, mem)
  {}

  ghost predicate Agreed(s: Snap) {
    && |s.mem| == FLASH_SIZE
    && Intact(Cells(s.mem))
    && Bootable(s.mem, Current(s.mem).confirmed)
    && Sound(s.engine) && !s.engine.fullEnabled && Near(s.engine, s.mem)
  }

  lemma AgreedStep(a: Snap, i: Input, b: Snap)
    requires EngineStep(a, i, b)
    requires Agreed(a)
    ensures Agreed(b)
  {
    hide Intact, Bootable, Newest, Process, Acts, Near, Sound, Bounded;
    ProcessIsSound(a.engine, a.mem, i.request, i.io);
    SoundIsBounded(a.engine);
    ProcessBootState(a.engine, a.mem, i.request, i.io);
    ReportKeepsJournal(a.engine, a.mem, i.request, i.io, b.mem);
    ReportKeepsNear(a.engine, a.mem, i.request, i.io, b.mem);
  }

  lemma {:induction false} AgreedRun(run: seq<Snap>, inputs: seq<Input>)
    requires EngineRun(run, inputs) && Agreed(run[0])
    ensures Agreed(run[|inputs|])
    decreases |inputs|
  {
    hide Agreed, EngineStep;
    var n := |inputs|;
    if n > 0 {
      assert EngineRun(run[..n], inputs[..n - 1]);
      AgreedRun(run[..n], inputs[..n - 1]);
      assert EngineStep(run[n - 1], inputs[n - 1], run[n - 1 + 1]);
      AgreedStep(run[n - 1], inputs[n - 1], run[n]);
    }
  }

  lemma AgreedRunBoots(run: seq<Snap>, inputs: seq<Input>)
    requires EngineRun(run, inputs)
    requires |run[0].mem| == FLASH_SIZE && Intact(Cells(run[0].mem)) && Sound(run[0].engine) && !run[0].engine.fullEnabled
    requires Storable(run[0].engine.bootState)
    requires run[0].engine.bootState.confirmed == Current(run[0].mem).confirmed
    requires StepOk(Cells(run[0].mem), Begun(run[0].engine.bootState, OtherSlot(Current(run[0].mem).confirmed)))
    requires Bootable(run[0].mem, Current(run[0].mem).confirmed)
    ensures StillBoots(run[|inputs|])
  {
    hide Intact, Bootable, Newest, StepOk, EngineStep, Sound;
    AgreedRun(run, inputs);
  }

  /** A reachable case: slot B is confirmed and boots, recovery is requested, and
      the one journal read of that boot fails. The engine starts from the default
      state, takes slot A for confirmed, and two ordinary reports erase slot B. */
  lemma ReadErrorCanBrick(w: World, seed: uint32) returns (worlds: seq<World>, labels: seq<Label>)
    requires |w.mem| == FLASH_SIZE && seed != 0
    requires w.mode.Consumed? && Current(w.mem).confirmed == SLOT_B
    requires Safe(w)
    ensures Path(worlds, labels) && worlds[0] == w && |labels| == 3 && labels[0] == Force(false)
    ensures |worlds[3].mem| == FLASH_SIZE && Current(worlds[3].mem).confirmed == SLOT_B
    ensures !Bootable(worlds[3].mem, SLOT_B)
  {
    hide Safe, Bootable, Newest, EngineStep, Silent;
    var e := Fresh(DEFAULT, SLOT_A, seed, false, true);
    EntryIsFresh(e);
    var run, inputs := UnprotectedSlotCanBeErased(e, w.mem, SLOT_B);
    var w1 := w.(mode := Recovery(e), events := w.events + [EntersRecovery]);
    var w2 := w1.(mode := Recovery(run[1].engine), mem := run[1].mem);
    var w3 := w1.(mode := Recovery(run[2].engine), mem := run[2].mem);
    worlds := [w, w1, w2, w3];
    labels := [Force(false), Report(inputs[0]), Report(inputs[1])];
    assert EngineStep(run[0], inputs[0], run[0 + 1]);
    assert EngineStep(run[1], inputs[1], run[1 + 1]);
    assert w1.events + [] == w1.events;
    StepSizes(run[0], inputs[0], run[1]);
    assert Moves(w, labels[0], w1);
    assert Moves(w1, labels[1], w2);
    assert Moves(w2, labels[2], w3);
  }

  lemma StepSizes(a: Snap, i: Input, b: Snap)
    requires EngineStep(a, i, b)
    ensures |a.mem| == |b.mem| == FLASH_SIZE
  {}
}
