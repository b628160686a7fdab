/** boot_trial.c: the four-word retained mailbox between the bootloader and a
    trial application. A reset may come between any two word writes. */
module Trial {
  import opened Words
  import opened BootState

  const HANDOFF_MAGIC: uint32 := 0x484E_4400
  const CONFIRM_MAGIC: uint32 := 0x4346_4D00

  datatype Status = Ok | InvalidArgument | NoHandoff | NoConfirmation

  /** The four retained words. */
  datatype Mail = Mail(token: uint32, tokenInverse: uint32, sequence: uint32, sequenceInverse: uint32)

  /** What a valid token says: a slot, at one exact journal sequence. */
  datatype Token = Token(slot: uint8, sequence: uint32)

  datatype Write =
    | SetToken(value: uint32)
    | SetTokenInverse(value: uint32)
    | SetSequence(value: uint32)
    | SetSequenceInverse(value: uint32)

  function Complement(x: uint32): uint32 { 0xFFFF_FFFF - x }

  /** make_token; both magics have a zero low byte, so or-ing a slot adds it. */
  function MakeToken(magic: uint32, slot: uint8): uint32
    requires magic % 0x100 == 0
  {
    magic + slot
  }

  /** token_is_valid together with the sequence pair check. */
  function Read(m: Mail, magic: uint32): Option<Token>
    requires magic % 0x100 == 0
  {
    var candidate: uint8 := m.token % 0x100;
    if m.tokenInverse == Complement(m.token)
       && SlotValid(candidate)
       && m.token == MakeToken(magic, candidate)
       && m.sequenceInverse == Complement(m.sequence)
    then Some(Token(candidate, m.sequence))
    else None
  }

  /** Exactly one mailbox says each token. */
  lemma TokenIsWords(m: Mail, magic: uint32, slot: uint8, sequence: uint32)
    requires magic % 0x100 == 0 && magic < 0xFFFF_FF00
    ensures Read(m, magic) == Some(Token(slot, sequence)) <==>
      SlotValid(slot) && m == Mail(magic + slot, 0xFFFF_FFFF - magic - slot, sequence, 0xFFFF_FFFF - sequence)
  {}

  /** A token with any one of its four words altered says nothing any more,
      whatever it said before. */
  lemma OneWordIsGuarded(m: Mail, word: Write)
    requires !Silent(m) && Apply(m, word) != m
    ensures Silent(Apply(m, word))
  {}

  function Handoff(m: Mail): Option<Token> { Read(m, HANDOFF_MAGIC) }

  function Confirmation(m: Mail): Option<Token> { Read(m, CONFIRM_MAGIC) }

  predicate Silent(m: Mail) { Handoff(m) == None && Confirmation(m) == None }

  function Apply(m: Mail, w: Write): Mail {
    match w
    case SetToken(v) => m.(token := v)
    case SetTokenInverse(v) => m.(tokenInverse := v)
    case SetSequence(v) => m.(sequence := v)
    case SetSequenceInverse(v) => m.(sequenceInverse := v)
  }

  function ApplyAll(m: Mail, ws: seq<Write>): Mail {
    if ws == [] then m else Apply(ApplyAll(m, ws[..|ws| - 1]), ws[|ws| - 1])
  }

  function ClearWrites(): seq<Write> {
    [SetToken(0), SetTokenInverse(0), SetSequence(0), SetSequenceInverse(0)]
  }

  function PublishWrites(slot: uint8, sequence: uint32): seq<Write> {
    var token := MakeToken(HANDOFF_MAGIC, slot);
    ClearWrites() + [SetSequenceInverse(Complement(sequence)), SetSequence(sequence),
                     SetTokenInverse(Complement(token)), SetToken(token)]
  }

  function ArmWrites(m: Mail): seq<Write> {
    match Handoff(m)
    case None => ClearWrites()
    case Some(t) =>
      var token := MakeToken(CONFIRM_MAGIC, t.slot);
      [SetToken(0), SetTokenInverse(Complement(token)), SetToken(token)]
  }

  /** The words after the first k of a series of writes, all of them if no reset
      came. */
  ghost predicate Cut(before: Mail, ws: seq<Write>, after: Mail, running: bool) {
    exists k :: 0 <= k <= |ws| && (running ==> k == |ws|) && after == ApplyAll(before, ws[..k])
  }

  class Mailbox {
    var words: Mail
    /** False once a reset has stopped the code that is writing. */
    var running: bool

    constructor (words: Mail)
      ensures this.words == words && running
    {
      this.words, running := words, true;
    }

    /** One volatile word write, or the reset that comes before it. */
    method Put(w: Write, ghost start: Mail, ghost done: seq<Write>)
      requires Cut(start, done, words, running)
      modifies this
      ensures Cut(start, done + [w], words, running)
      ensures running ==> old(running)
    {
      var reset: bool := *;
      if running && reset { running := false; }
      ghost var k :| 0 <= k <= |done| && (running ==> k == |done|) && words == ApplyAll(start, done[..k]);
      assert (done + [w])[..k] == done[..k];
      if running {
        words := Apply(words, w);
        assert done[..k] == done;
        assert (done + [w])[..|done| + 1] == done + [w];
        assert words == ApplyAll(start, (done + [w])[..|done| + 1]);
      }
    }

    /** boot_trial_clear */
    method Clear()
      modifies this
      ensures Cut(old(words), ClearWrites(), words, running)
      ensures running ==> old(running)
    {
      ghost var start := words;
      CutNothing(start, running);
      Put(SetToken(0), start, []);
      Put(SetTokenInverse(0), start, [] + [SetToken(0)]);
      Put(SetSequence(0), start, [] + [SetToken(0)] + [SetTokenInverse(0)]);
      Put(SetSequenceInverse(0), start, [] + [SetToken(0)] + [SetTokenInverse(0)] + [SetSequence(0)]);
      assert [] + [SetToken(0)] + [SetTokenInverse(0)] + [SetSequence(0)] + [SetSequenceInverse(0)] == ClearWrites();
    }

    /** boot_trial_publish: the token word goes last. */
    method Publish(slot: uint8, sequence: uint32) returns (status: Status)
      modifies this
      ensures status == if SlotValid(slot) then Ok else InvalidArgument
      ensures Cut(old(words), if SlotValid(slot) then PublishWrites(slot, sequence) else ClearWrites(), words, running)
      ensures running ==> old(running)
    {
      if !SlotValid(slot) {
        Clear();
        return InvalidArgument;
      }
      ghost var start := words;
      var token := MakeToken(HANDOFF_MAGIC, slot);
      Clear();
      ghost var done := ClearWrites();
      Put(SetSequenceInverse(Complement(sequence)), start, done);
      done := done + [SetSequenceInverse(Complement(sequence))];
      Put(SetSequence(sequence), start, done);
      done := done + [SetSequence(sequence)];
      Put(SetTokenInverse(Complement(token)), start, done);
      done := done + [SetTokenInverse(Complement(token))];
      Put(SetToken(token), start, done);
      done := done + [SetToken(token)];
      assert done == PublishWrites(slot, sequence);
      return Ok;
    }

    /** boot_trial_arm_confirmation: the old token goes first, the new one last. */
    method ArmConfirmation() returns (status: Status)
      modifies this
      ensures status == if Handoff(old(words)).Some? then Ok else NoHandoff
      ensures Cut(old(words), ArmWrites(old(words)), words, running)
      ensures running ==> old(running)
    {
      ghost var start := words;
      var handoff := Handoff(words);
      if handoff.None? {
        Clear();
        return NoHandoff;
      }
      var token := MakeToken(CONFIRM_MAGIC, handoff.value.slot);
      CutNothing(start, running);
      Put(SetToken(0), start, []);
      Put(SetTokenInverse(Complement(token)), start, [] + [SetToken(0)]);
      Put(SetToken(token), start, [] + [SetToken(0)] + [SetTokenInverse(Complement(token))]);
      assert [] + [SetToken(0)] + [SetTokenInverse(Complement(token))] + [SetToken(token)] == ArmWrites(start);
      return Ok;
    }

    /** boot_trial_consume_confirmation: whatever it holds, the mailbox is cleared. */
    method ConsumeConfirmation() returns (status: Status, token: Token)
      modifies this
      ensures status == if Confirmation(old(words)).Some? then Ok else NoConfirmation
      ensures token == match Confirmation(old(words)) case Some(t) => t case None => Token(SLOT_NONE, 0)
      ensures Cut(old(words), ClearWrites(), words, running)
      ensures running ==> old(running)
    {
      var confirmation := Confirmation(words);
      Clear();
      if confirmation.None? { return NoConfirmation, Token(SLOT_NONE, 0); }
      return Ok, confirmation.value;
    }
  }

  lemma CutNothing(m: Mail, running: bool)
    ensures Cut(m, [], m, running)
  {
    var none: seq<Write> := [];
    assert m == ApplyAll(m, none[..0]);
  }

  // ---- No torn mailbox says anything ----

  lemma {:induction false} ApplyAppend(m: Mail, a: seq<Write>, b: seq<Write>)
    ensures ApplyAll(m, a + b) == ApplyAll(ApplyAll(m, a), b)
  {
    if b == [] {
      assert a + b == a;
    } else {
      assert (a + b)[..|a + b| - 1] == a + b[..|b| - 1];
      ApplyAppend(m, a, b[..|b| - 1]);
    }
  }

  lemma ApplyOne(m: Mail, w: Write)
    ensures ApplyAll(m, [w]) == Apply(m, w)
  {
    assert [w][..0] == [];
  }

  /** Each prefix of a series of four or fewer writes, word by word. */
  lemma ApplyFour(m: Mail, a: Write, b: Write, c: Write, d: Write)
    ensures ApplyAll(m, [a, b]) == Apply(Apply(m, a), b)
    ensures ApplyAll(m, [a, b, c]) == Apply(Apply(Apply(m, a), b), c)
    ensures ApplyAll(m, [a, b, c, d]) == Apply(Apply(Apply(Apply(m, a), b), c), d)
  {
    ApplyOne(m, a);
    assert [a, b][..1] == [a];
    assert [a, b, c][..2] == [a, b];
    assert [a, b, c, d][..3] == [a, b, c];
  }

  lemma NoToken(m: Mail)
    requires m.token == 0
    ensures Silent(m)
  {}

  /** One write into a cleared mailbox leaves it saying nothing once any write
      has been done; a finished clear is all zeros. */
  lemma ClearSilences(m: Mail, after: Mail, running: bool)
    requires Cut(m, ClearWrites(), after, running)
    ensures after == m || Silent(after)
    ensures running ==> after == Mail(0, 0, 0, 0)
  {
    var ws := ClearWrites();
    var k :| 0 <= k <= |ws| && (running ==> k == |ws|) && after == ApplyAll(m, ws[..k]);
    ApplyFour(m, ws[0], ws[1], ws[2], ws[3]);
    ApplyOne(m, ws[0]);
    if k == 0 { assert ws[..0] == []; }
    if k == 1 { assert ws[..1] == [ws[0]]; }
    if k == 2 { assert ws[..2] == [ws[0], ws[1]]; }
    if k == 3 { assert ws[..3] == [ws[0], ws[1], ws[2]]; }
    if k == 4 { assert ws[..4] == [ws[0], ws[1], ws[2], ws[3]]; }
    if k > 0 { assert after.token == 0; NoToken(after); }
  }

  /** A publish cut off anywhere never confirms anything, and hands off only its
      own token, only when it is complete. */
  lemma PublishIsAtomic(m: Mail, slot: uint8, sequence: uint32, after: Mail, running: bool)
    requires SlotValid(slot) && Cut(m, PublishWrites(slot, sequence), after, running)
    ensures after == m || Silent(after) || (Handoff(after) == Some(Token(slot, sequence)) && Confirmation(after) == None)
    ensures running ==> Handoff(after) == Some(Token(slot, sequence))
  {
    var ws := PublishWrites(slot, sequence);
    var clear, rest := ws[..4], ws[4..];
    var k :| 0 <= k <= |ws| && (running ==> k == |ws|) && after == ApplyAll(m, ws[..k]);
    assert clear == ClearWrites();
    if k <= 4 {
      assert ws[..k] == clear[..k];
      CutPrefix(m, clear, k);
      ClearSilences(m, after, false);
    } else {
      assert ws[..k] == clear + rest[..k - 4];
      ApplyAppend(m, clear, rest[..k - 4]);
      assert clear == clear[..4];
      CutPrefix(m, clear, 4);
      ClearDone(m);
      PublishTail(slot, sequence, k - 4);
    }
  }

  lemma ClearDone(m: Mail)
    ensures ApplyAll(m, ClearWrites()) == Mail(0, 0, 0, 0)
  {
    var ws := ClearWrites();
    ApplyFour(m, ws[0], ws[1], ws[2], ws[3]);
  }

  lemma CutPrefix(m: Mail, ws: seq<Write>, k: nat)
    requires k <= |ws|
    ensures Cut(m, ws, ApplyAll(m, ws[..k]), false)
  {}

  lemma PublishTail(slot: uint8, sequence: uint32, k: nat)
    requires SlotValid(slot) && 0 < k <= 4
    ensures
      var after := ApplyAll(Mail(0, 0, 0, 0), PublishWrites(slot, sequence)[4..][..k]);
      if k < 4 then Silent(after)
      else Handoff(after) == Some(Token(slot, sequence)) && Confirmation(after) == None
  {
    var m := Mail(0, 0, 0, 0);
    var ws := PublishWrites(slot, sequence)[4..];
    ApplyFour(m, ws[0], ws[1], ws[2], ws[3]);
    ApplyOne(m, ws[0]);
    if k == 1 { assert ws[..1] == [ws[0]]; }
    if k == 2 { assert ws[..2] == [ws[0], ws[1]]; }
    if k == 3 { assert ws[..3] == [ws[0], ws[1], ws[2]]; }
    if k == 4 { assert ws[..4] == [ws[0], ws[1], ws[2], ws[3]]; }
    var after := ApplyAll(m, ws[..k]);
    if k < 4 { assert after.token == 0; NoToken(after); }
  }

  /** Arming cut off anywhere confirms nothing until its last write, and then
      confirms exactly the slot and sequence that were handed off. */
  lemma ArmIsAtomic(m: Mail, after: Mail, running: bool)
    requires Cut(m, ArmWrites(m), after, running)
    ensures after == m || Silent(after) || (Handoff(m).Some? && Confirmation(after) == Handoff(m) && Handoff(after) == None)
    ensures running && Handoff(m).Some? ==> Confirmation(after) == Handoff(m)
  {
    if Handoff(m) == None {
      ClearSilences(m, after, running);
    } else {
      var ws := ArmWrites(m);
      var k :| 0 <= k <= |ws| && (running ==> k == |ws|) && after == ApplyAll(m, ws[..k]);
      ApplyFour(m, ws[0], ws[1], ws[2], ws[2]);
      ApplyOne(m, ws[0]);
      if k == 0 { assert ws[..0] == []; }
      if k == 1 { assert ws[..1] == [ws[0]]; }
      if k == 2 { assert ws[..2] == [ws[0], ws[1]]; }
      if k == 3 { assert ws[..3] == [ws[0], ws[1], ws[2]]; }
      if 0 < k < 3 { assert after.token == 0; NoToken(after); }
    }
  }
}
