/** What the event log of a run says: confirmations are earned one by one, and
    trials are bounded. */
module BootHistory {
  import opened Words
  import opened BootState
  import opened Nor
  import opened Trial
  import opened Image
  import opened RecoveryEngine
  import opened EngineProofs
  import opened BootMachine

  // ---- Freshness of confirmations ----

  predicate IsTrial(e: Event, t: Token) { e.HandsOff? && e.slot == t.slot && e.trial == Some(t) }

  predicate HandedOff(events: seq<Event>, t: Token) {
    var n := |events|;
    n >= 1 && IsTrial(events[n - 1], t)
  }

  predicate Armed(events: seq<Event>, t: Token) {
    var n := |events|;
    n >= 2 && events[n - 1] == Arms(t) && HandedOff(events[..n - 1], t)
  }

  /** The last three events: handed off on trial, armed by that application, and
      read back by the next boot. Nothing came between. */
  predicate Earned(events: seq<Event>, t: Token) {
    var n := |events|;
    n >= 3 && events[n - 1] == Consumes(Some(t)) && Armed(events[..n - 1], t)
  }

  ghost predicate EachEarned(events: seq<Event>) {
    forall i :: 0 <= i < |events| && events[i].Confirms? ==> Earned(events[..i], events[i].token)
  }

  /** What the retained words and the mode say about the end of the log. */
  ghost predicate Story(w: World) {
    && EachEarned(w.events)
    && (Booting(w.mode) ==> Silent(w.mail))
    && (Confirmation(w.mail).Some? ==> Armed(w.events, Confirmation(w.mail).value))
    && (w.mode.App? && Handoff(w.mail).Some? ==> HandedOff(w.events, Handoff(w.mail).value))
    && (w.mode.Consumed? && w.mode.confirmation.Some? ==> Earned(w.events, w.mode.confirmation.value))
  }

  lemma EarnedAppend(events: seq<Event>, e: Event)
    requires EachEarned(events)
    requires e.Confirms? ==> Earned(events, e.token)
    ensures EachEarned(events + [e])
  {
    forall i | 0 <= i < |events + [e]| && (events + [e])[i].Confirms?
      ensures Earned((events + [e])[..i], (events + [e])[i].token)
    {
      if i < |events| { assert (events + [e])[..i] == events[..i]; } else { assert (events + [e])[..i] == events; }
    }
  }

  lemma EarnedNothing(events: seq<Event>)
    requires EachEarned(events)
    ensures EachEarned(events + [])
  {
    assert events + [] == events;
  }

  lemma LastOf(events: seq<Event>, e: Event)
    ensures (events + [e])[|events|] == e && (events + [e])[..|events|] == events
  {}

  lemma StoryConsume(w: World, running: bool, v: World)
    requires Story(w) && Moves(w, Consume(running), v)
    ensures Story(v)
  {
    hide EachEarned;
    ClearSilences(w.mail, v.mail, running);
    var note := Consumes(Confirmation(w.mail));
    EarnedAppend(w.events, note);
    LastOf(w.events, note);
    if running { NoToken(v.mail); }
  }

  lemma StoryStage(w: World, state: State, o: Outcome, next: Mode, note: seq<Event>, v: World)
    requires |w.mem| == FLASH_SIZE && Story(w) && Silent(w.mail) && StoreStage(w, state, o, next, note, v)
    requires note == [] || (|note| == 1 && (note[0].Confirms? ==> Earned(w.events, note[0].token)))
    requires !next.App? && !next.Consumed?
    ensures Story(v)
  {
    hide EachEarned, Stores, Newest, Earned;
    EarnedNothing(w.events);
    if note != [] {
      assert note == [note[0]];
      EarnedAppend(w.events, note[0]);
      EarnedAppend(w.events + note, EntersRecovery);
    }
    EarnedAppend(w.events + [], EntersRecovery);
  }

  lemma StoryRecovers(w: World, v: World, state: State)
    requires Story(w) && Silent(w.mail) && Recovers(w, v, state)
    ensures Story(v)
  {
    hide EachEarned;
    EarnedAppend(w.events, EntersRecovery);
  }

  lemma StoryConfirm(w: World, o: Outcome, v: World)
    requires Story(w) && Moves(w, Confirm(o), v)
    ensures Story(v)
  {
    hide EachEarned, Stores, Newest, Earned, StoreStage, Recovers;
    var current := Current(w.mem);
    if w.mode.confirmation.Some? {
      var t := w.mode.confirmation.value;
      if o == ReadFailed {
        if Recovers(w, v, DEFAULT) { StoryRecovers(w, v, DEFAULT); } else { StoryRecovers(w, v, current); }
      } else if !(o == PowerLost && v == w.(mode := Off)) && current.pending == t.slot && current.sequence == t.sequence {
        StoryStage(w, Confirmed(current), o, Preparing(Confirmed(current)), [Confirms(t)], v);
      }
    }
  }

  lemma StoryPrepare(w: World, o: Outcome, v: World)
    requires Story(w) && Moves(w, Prepare(o), v)
    ensures Story(v)
  {
    hide EachEarned, Stores, Newest, Earned, StoreStage, Recovers;
    var current := Current(w.mem);
    if o == ReadFailed {
      StoryRecovers(w, v, w.mode.state);
    } else if o == PowerLost && v == w.(mode := Off) {
    } else if current.pending != SLOT_NONE && current.trials >= current.maxTrials {
      StoryStage(w, RolledBack(current), o, First(RolledBack(current), current.confirmed), [], v);
    } else if current.pending != SLOT_NONE {
      StoryStage(w, Tried(current), o, First(Tried(current), current.pending), [], v);
    }
  }

  lemma StoryFirst(w: World, loads: bool, o: Outcome, v: World)
    requires Story(w) && Moves(w, TryFirst(loads, o), v)
    ensures Story(v)
  {
    hide EachEarned, Stores, Newest, Earned, StoreStage, Recovers, Bootable;
    var state, slot, current := w.mode.state, w.mode.slot, Current(w.mem);
    if !loads && state.pending == slot {
      if o == ReadFailed {
        StoryRecovers(w, v, state);
      } else if o == PowerLost && v == w.(mode := Off) {
      } else if current.pending == SLOT_NONE {
        StoryRecovers(w, v, current);
      } else {
        StoryStage(w, RolledBack(current), o, Second(RolledBack(current), current.confirmed), [], v);
      }
    }
  }

  lemma StoryHandOff(w: World, running: bool, v: World)
    requires Story(w) && Moves(w, HandOff(running), v)
    requires SlotValid(w.mode.slot)
    ensures Story(v)
  {
    hide EachEarned, Cut, Newest, PublishWrites;
    var state, slot := w.mode.state, w.mode.slot;
    if state.pending == slot {
      PublishIsAtomic(w.mail, slot, state.sequence, v.mail, running);
    } else {
      ClearSilences(w.mail, v.mail, running);
      if running { NoToken(v.mail); }
    }
    if running {
      var note := HandsOff(slot, if state.pending == slot then Some(Token(slot, state.sequence)) else None, Current(w.mem));
      EarnedAppend(w.events, note);
      LastOf(w.events, note);
    }
  }

  lemma StoryArm(w: World, running: bool, v: World)
    requires Story(w) && Moves(w, Arm(running), v)
    ensures Story(v)
  {
    hide EachEarned, Cut, ArmWrites;
    ArmIsAtomic(w.mail, v.mail, running);
    if Handoff(w.mail).Some? {
      var note := Arms(Handoff(w.mail).value);
      EarnedAppend(w.events, note);
      LastOf(w.events, note);
    }
  }

  lemma StoryQuiet(w: World, l: Label, v: World)
    requires Story(w) && Moves(w, l, v)
    requires l == Reset || l == Forget || l.Force? || l.TrySecond? || l.Report?
    ensures Story(v)
  {
    hide EachEarned, Newest, Bootable, EngineStep, Earned, Armed, HandedOff;
    EarnedNothing(w.events);
    EarnedAppend(w.events, EntersRecovery);
    if w.mode.Recovery? { EarnedAppend(w.events, Begins(w.mode.engine.target)); }
  }

  /** A loaded slot is one of the two. */
  ghost predicate ChosenValid(w: World) { w.mode.Chosen? ==> SlotValid(w.mode.slot) }

  lemma StoryStep(w: World, l: Label, v: World)
    requires Moves(w, l, v) && Story(w) && ChosenValid(w)
    ensures Story(v) && ChosenValid(v)
  {
    StepChoosesValid(w, l, v);
    hide Moves, Story;
    match l
    case Consume(running) => StoryConsume(w, running, v);
    case Confirm(o) => StoryConfirm(w, o, v);
    case Prepare(o) => StoryPrepare(w, o, v);
    case TryFirst(loads, o) => StoryFirst(w, loads, o, v);
    case HandOff(running) => ChosenFrom(w, running, v); StoryHandOff(w, running, v);
    case Arm(running) => StoryArm(w, running, v);
    case _ => StoryQuiet(w, l, v);
  }

  lemma ChosenFrom(w: World, running: bool, v: World)
    requires Moves(w, HandOff(running), v)
    ensures w.mode.Chosen?
  {}

  lemma StepChoosesValid(w: World, l: Label, v: World)
    requires Moves(w, l, v) && ChosenValid(w)
    ensures ChosenValid(v)
  {
    hide ImageValid, Newest, Stores, EngineStep, Cut;
  }

  /** Confirmation freshness: in every run, with every fault and a reset between
      any two mailbox writes, each durable confirmation in the log comes directly
      after the trial handoff, the arming and the reading back of that very token.
      So a token confirms at most once, and never after a boot that entered
      recovery. */
  lemma {:induction false} ConfirmationsAreEarned(worlds: seq<World>, labels: seq<Label>)
    requires Path(worlds, labels) && Story(worlds[0]) && ChosenValid(worlds[0])
    ensures forall k :: 0 <= k < |worlds| ==> Story(worlds[k]) && ChosenValid(worlds[k])
    ensures EachEarned(worlds[|labels|].events)
  {
    hide Story, Moves, ChosenValid, EachEarned;
    var n := |labels|;
    if n > 0 {
      var before, earlier := worlds[..n], labels[..n - 1];
      assert Path(before, earlier);
      ConfirmationsAreEarned(before, earlier);
      assert worlds[n - 1] == before[n - 1];
      assert Moves(worlds[n - 1], labels[n - 1], worlds[n - 1 + 1]);
      StoryStep(worlds[n - 1], labels[n - 1], worlds[n]);
      forall k | 0 <= k < |worlds| ensures Story(worlds[k]) && ChosenValid(worlds[k]) {
        if k < n { assert worlds[k] == before[k]; }
      }
    }
    StoryEarned(worlds[n]);
  }

  lemma StoryEarned(w: World)
    requires Story(w)
    ensures EachEarned(w.events)
  {}

  /** Two confirmations never share a handoff. */
  lemma TokensAreUsedOnce(events: seq<Event>, i: nat, j: nat)
    requires EachEarned(events) && i < j < |events| && events[i].Confirms? && events[j].Confirms?
    ensures i + 4 <= j
    ensures IsTrial(events[j - 3], events[j].token) && IsTrial(events[i - 3], events[i].token)
  {
    assert Earned(events[..i], events[i].token);
    assert Earned(events[..j], events[j].token);
    assert events[..j][j - 1] == events[j - 1];
    assert events[..j][..j - 1][j - 2] == events[j - 2];
    assert events[..j][..j - 1][..j - 2][j - 3] == events[j - 3];
    assert events[..i][..i - 1][..i - 2][i - 3] == events[i - 3];
  }
}
