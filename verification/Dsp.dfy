/** The 32 effects of main.c in fixed point. Every value of a C int32 or uint32
    type is one of Dafny's subset types, so that each assignment is a proof that
    the narrowing keeps the value. */
module Dsp {
  import opened Words
  import opened DspMath
  import opened EffectSelection

  const FRAMES: int := 32768
  const SLOTS: nat := 4
  const WHAMMY_WINDOW: int := 1536
  const WHAMMY_MIN_DELAY: int := 96
  const WHAMMY_INCREMENT: uint32 := 2796203

  const SHINE_DRIVE: nat := 8
  const WALL_FUZZ: nat := 9
  const RAGE_DRIVE: nat := 10
  const COCKED_WAH: nat := 11
  const STUDIO_COMP: nat := 12
  const OCTAVE_FUZZ: nat := 13
  const STRING_ENSEMBLE: nat := 14
  const NOISE_GATE: nat := 15
  const BREATHE_VIBE: nat := 16
  const GUERRILLA_TREM: nat := 17
  const DIMENSION_CHORUS: nat := 18
  const JET_FLANGER: nat := 19
  const PHASE_ORBIT: nat := 20
  const ROTARY_CAB: nat := 21
  const AUTO_WAH: nat := 22
  const WHAMMY_FUZZ: nat := 23
  const ECHOES_TAPE: nat := 24
  const DIGITAL_DELAY: nat := 25
  const ANALOG_DELAY: nat := 26
  const REVERSE_DELAY: nat := 27
  const HALL_REVERB: nat := 28
  const PLATE_REVERB: nat := 29
  const SHIMMER_SPACE: nat := 30
  const SPRING_TANK: nat := 31

  type filterState = x: int | -4 * PEAK <= x <= 4 * PEAK
  type distance = x: int | 0 < x <= FRAMES witness 1
  type level = x: int | 0 <= x <= 2 * ONE
  /** A value on its way to a final clamp, far inside 64 bits. */
  type mix = x: int | -WIDE <= x <= WIDE

  /** ncr2_effect_parameters_t */
  datatype Parameters = Parameters(
    amount: weight, character: weight, output: level,
    shineDrive: drive, wallFuzz: drive, rageDrive: drive,
    vibeIncrement: uint32, tapeIncrement: uint32, tremoloIncrement: uint32,
    tapeDelay: distance, wahCoefficient: weight)

  predicate Usable(p: Parameters) { 5760 <= p.tapeDelay <= 30000 && p.wahCoefficient <= 9000 }

  /** make_effect_parameters: every knob position gives parameters in range. */
  function MakeParameters(amount: knob, character: knob, output: knob): (p: Parameters)
    ensures Usable(p)
  {
    Parameters(
      KnobPart(amount, ONE), KnobPart(character, ONE), KnobPart(output, 2 * ONE),
      DRIVE_ONE + KnobPart(amount, 94208), 16384 + KnobPart(amount, 376832), 8192 + KnobPart(amount, 155648),
      PhaseIncrement(350 + KnobPart(amount, 4650)), PhaseIncrement(350), PhaseIncrement(1000 + KnobPart(amount, 15000)),
      5760 + KnobPart(amount, 24240), 1100 + KnobPart(amount, 7900))
  }

  /** From one end of the knobs to the other each parameter covers its range, */
  lemma ParameterEnds()
    ensures MakeParameters(0, 0, 0) == Parameters(0, 0, 0, 4096, 16384, 8192, PhaseIncrement(350), PhaseIncrement(350), PhaseIncrement(1000), 5760, 1100)
    ensures MakeParameters(4095, 4095, 4095)
         == Parameters(32768, 32768, 65536, 98304, 393216, 163840, PhaseIncrement(5000), PhaseIncrement(350), PhaseIncrement(16000), 30000, 9000)
  {}

  /** and it never falls when its knob is turned up. */
  lemma ParametersRise(amount: knob, character: knob, output: knob, a: knob, c: knob, o: knob)
    requires amount <= a && character <= c && output <= o
    ensures var p, q := MakeParameters(amount, character, output), MakeParameters(a, c, o);
      && p.amount <= q.amount && p.character <= q.character && p.output <= q.output
      && p.shineDrive <= q.shineDrive && p.wallFuzz <= q.wallFuzz && p.rageDrive <= q.rageDrive
      && p.vibeIncrement <= q.vibeIncrement && p.tremoloIncrement <= q.tremoloIncrement
      && p.tapeDelay <= q.tapeDelay && p.wahCoefficient <= q.wahCoefficient
  {
    ShareRises(amount, a, ONE); ShareRises(character, c, ONE); ShareRises(output, o, 2 * ONE);
    ShareRises(amount, a, 94208); ShareRises(amount, a, 376832); ShareRises(amount, a, 155648);
    ShareRises(amount, a, 4650); ShareRises(amount, a, 15000); ShareRises(amount, a, 24240); ShareRises(amount, a, 7900);
    hide KnobPart;
  }

  lemma ShareRises(x: knob, y: knob, range: nat)
    requires x <= y && range <= 0x10_0000
    ensures KnobPart(x, range) <= KnobPart(y, range)
  {
    ProductMonotone(x, y, range);
  }

  /** clamp_knob */
  function ClampKnob(value: uint32): knob { if value > KNOB_MAX then KNOB_MAX else value }

  // ---- Two thresholds whose products wrap in unsigned 32 bits ----

  /** The level above which the string ensemble bows. */
  function BowThreshold(amount: weight): int32 {
    0x4_0000 + Wrap32((ONE - amount) * 0x18_0000) / ONE
  }

  /** The level above which the noise gate opens. */
  function GateThreshold(amount: weight): int32 {
    0x10_0000 + Wrap32(amount * 0x280_0000) / ONE
  }

  lemma WrappedProduct(x: nat, k: nat)
    ensures Wrap32(x * (k * ONE)) / ONE == (x * k) % 0x2_0000
  {
    var y := x * k;
    assert x * (k * ONE) == y * ONE;
    assert y == 0x2_0000 * (y / 0x2_0000) + y % 0x2_0000;
    assert y * ONE == WORD * (y / 0x2_0000) + (y % 0x2_0000) * ONE;
  }

  /** The bow threshold in closed form. It is the one the formula asks for
      exactly while the amount knob is within 2730 of its top. */
  lemma BowThresholdIs(amount: weight)
    ensures BowThreshold(amount) == 0x4_0000 + (48 * (ONE - amount)) % 0x2_0000
    ensures BowThreshold(amount) == 0x4_0000 + ((ONE - amount) * 0x18_0000) / ONE <==> ONE - amount <= 2730
  {
    WrappedProduct(ONE - amount, 48);
  }

  /** The gate threshold in closed form. It is the one the formula asks for
      exactly up to an amount of 102. */
  lemma GateThresholdIs(amount: weight)
    ensures GateThreshold(amount) == 0x10_0000 + (1280 * amount) % 0x2_0000
    ensures GateThreshold(amount) == 0x10_0000 + (amount * 0x280_0000) / ONE <==> amount <= 102
  {
    WrappedProduct(amount, 1280);
  }

  /** So turning the gate up can lower its threshold, as from 102 to 103. */
  lemma GateThresholdFalls()
    ensures GateThreshold(103) < GateThreshold(102)
  {
    GateThresholdIs(102);
    GateThresholdIs(103);
  }

  // ---- State ----

  /** The filter, oscillator and cabinet state. */
  datatype State = State(
    tone: sample, pre: sample, aux: sample, delayFilter: sample,
    wahLow: filterState, wahBand: filterState,
    vibe: uint32, tape: uint32, tremolo: uint32, whammy: uint32,
    cabinetWrite: int)

  const RESET: State := State(0, 0, 0, 0, 0, 0, 0, 0, 0, 0, 0)

  /** Effects whose auxiliary filter follows a magnitude. */
  predicate KeepsMagnitude(current: nat) {
    current == STUDIO_COMP || current == OCTAVE_FUZZ || current == STRING_ENSEMBLE || current == NOISE_GATE || current == AUTO_WAH
  }

  /** Effects whose pre-filter smooths a gain. */
  predicate KeepsGain(current: nat) { current == STRING_ENSEMBLE || current == NOISE_GATE }

  /** Where the delay line keeps the sample of d frames ago. */
  function Slot(write: nat, d: int): (k: int)
    ensures 0 <= k < FRAMES
  {
    (write - d) % FRAMES
  }

  function Ago(history: seq<sample>, d: distance): sample
    requires FRAMES <= |history|
  {
    history[|history| - d]
  }

  lemma SlotNext(write: nat, d: distance)
    requires write < FRAMES
    ensures d == 1 ==> Slot((write + 1) % FRAMES, d) == write
    ensures d > 1 ==> Slot((write + 1) % FRAMES, d) == Slot(write, d - 1) != write
  {}

  /** What the effects that store magnitudes and gains in a shared filter rely on. */
  predicate Tuned(s: State, current: nat) {
    && 0 <= s.cabinetWrite < 8
    && (KeepsMagnitude(current) ==> s.aux >= 0)
    && (KeepsGain(current) ==> 0 <= s.pre <= ONE)
  }

  function Sweep(phase: uint32): (sweep: nat)
    ensures sweep <= 65535
  {
    Triangle(phase) + 32768
  }

  function Advance(phase: uint32, step: uint32): uint32 { Wrap32(phase + step) }

  // ---- The amp tables ----

  const BASE_DRIVE: seq<nat> := [4096, 6144, 7168, 10240, 12288, 16384, 5120, 4096]
  const DRIVE_RANGE: seq<nat> := [12288, 24576, 28672, 53248, 69632, 94208, 20480, 8192]
  const PRE_ALPHA: seq<nat> := [2600, 3400, 5200, 7000, 8200, 9600, 1800, 12000]
  const TONE_ALPHA: seq<nat> := [13000, 9000, 17000, 10500, 12500, 8500, 6500, 22000]
  const CABINET_IR: seq<seq<int>> := [
    [2200, 5600, 9000, 7800, 5000, 2300, -900, -2200],
    [1200, 4800, 9400, 8500, 5600, 1000, -2600, -4200],
    [1800, 7000, 9800, 6000, 1000, -2800, -2100, 2400],
    [800, 4000, 8500, 8800, 5000, 0, -3300, -3600],
    [500, 3000, 7600, 9300, 6500, 800, -3900, -4800],
    [300, 2400, 6500, 9000, 7400, 2300, -3300, -6300],
    [3200, 7400, 9000, 5900, 2600, 200, -900, -600],
    [6200, 10500, 7200, 1800, -3000, -3000, -200, 1800]]

  lemma AmpTables(voice: nat)
    requires voice < 8
    ensures BASE_DRIVE[voice] <= 16384 && DRIVE_RANGE[voice] <= 94208
    ensures PRE_ALPHA[voice] <= ONE && TONE_ALPHA[voice] <= ONE
  {}

  lemma CabinetRow(voice: nat, tap: nat)
    requires voice < 8 && tap < 8
    ensures |CABINET_IR[voice]| == 8 && Abs(CABINET_IR[voice][tap]) <= 10500
  {
    if voice == 0 {} else if voice == 1 {} else if voice == 2 {} else if voice == 3 {}
    else if voice == 4 {} else if voice == 5 {} else if voice == 6 {} else {}
  }

  lemma TermBound(x: sample, c: int)
    requires Abs(c) <= 10500
    ensures Abs(x * c) <= PEAK * 10500
  {
    if c >= 0 { ProductBound(x, c, 10500); } else { ProductBound(x, -c, 10500); assert x * -c == -(x * c); }
    ProductMonotone(Abs(x), PEAK, 10500);
  }

  // ---- What one frame of an effect makes of the state, the input and the delay line ----

  /** The effects that write something other than their input to the delay line. */
  predicate FeedsBack(current: nat) {
    || current == STRING_ENSEMBLE || current == JET_FLANGER || current == ECHOES_TAPE || current == DIGITAL_DELAY
    || current == ANALOG_DELAY || current == HALL_REVERB || current == PLATE_REVERB || current == SHIMMER_SPACE
    || current == SPRING_TANK
  }

  /** One frame of the tone filter behind the drive curve. */
  function Toned(u: State, input: int, amount: drive, alpha: weight, character: weight): State
    requires Abs(input) <= 4 * PEAK
  {
    u.(tone := Moved(Shape(input, amount, character), u.tone, alpha))
  }

  function WahLow(u: State, coefficient: weight): (low: int)
    ensures Abs(low) <= 8 * PEAK
  {
    u.wahLow + Scaled(u.wahBand, coefficient, ONE, 1)
  }

  function WahBand(u: State, input: sample, coefficient: weight, damping: weight): (band: int)
    ensures Abs(band) <= 20 * PEAK
  {
    u.wahBand + Scaled(input - WahLow(u, coefficient) - Scaled(u.wahBand, damping, ONE, 1), coefficient, ONE, 1)
  }

  /** One step of the state-variable filter of both wahs. */
  function Wahed(u: State, input: sample, coefficient: weight, damping: weight): State {
    u.(wahLow := Clamp(WahLow(u, coefficient), 4 * PEAK), wahBand := Clamp(WahBand(u, input, coefficient, damping), 4 * PEAK))
  }

  /** The cabinet ring k frames back from the newest value. */
  function Lately(ring: seq<sample>, at: int, k: nat): sample
    requires |ring| == 8
  {
    ring[(at - k) % 8]
  }

  /** The first taps of the cabinet's impulse response over the latest values. */
  function Convolution(ring: seq<sample>, at: int, voice: nat, taps: nat): (sum: int)
    requires |ring| == 8 && voice < 8 && taps <= 8
    ensures Abs(sum) <= taps * PEAK * 10500
  {
    if taps == 0 then 0
    else
      CabinetRow(voice, taps - 1);
      TermBound(Lately(ring, at, taps - 1), CABINET_IR[voice][taps - 1]);
      Convolution(ring, at, voice, taps - 1) + Lately(ring, at, taps - 1) * CABINET_IR[voice][taps - 1]
  }

  lemma NoTaps(ring: seq<sample>, at: int, voice: nat)
    requires |ring| == 8 && voice < 8
    ensures Convolution(ring, at, voice, 0) == 0
  {}

  lemma OneTap(ring: seq<sample>, at: nat, voice: nat, tap: nat)
    requires |ring| == 8 && at < 8 && voice < 8 && tap < 8
    ensures |CABINET_IR[voice]| == 8 && Wrap32(at - tap) % 8 == (at - tap) % 8
    ensures Convolution(ring, at, voice, tap + 1)
         == Convolution(ring, at, voice, tap) + ring[(at - tap) % 8] * CABINET_IR[voice][tap]
  {
    hide Wrap32;
    RingIndex(at, tap);
    CabinetRow(voice, tap);
  }

  lemma RingIndex(at: nat, tap: nat)
    requires at < 8 && tap < 8
    ensures Wrap32(at - tap) % 8 == (at - tap) % 8
  {}

  /** The ring holds the last eight values in order: writing one moves every
      earlier one back by a frame and drops the eighth. */
  lemma CabinetMovesOn(ring: seq<sample>, at: nat, x: sample, k: nat)
    requires |ring| == 8 && at < 8 && k < 8
    ensures Lately(ring[at := x], at, k) == if k == 0 then x else Lately(ring, at - 1, k - 1)
  {}

  function Emphasized(body: sample, input: sample, voice: nat): sample {
    if voice == 6 then body else Clamp(input + Div(input - body, 2), PEAK)
  }

  predicate AmpVoiced(voice: nat, u: State, v: State, ring: seq<sample>, after: seq<sample>, input: sample, p: Parameters, out: int)
    requires voice < 8
  {
    AmpTables(voice);
    && |ring| == 8 && 0 <= u.cabinetWrite < 8
    && v.pre == LowPass(input, u.pre, PRE_ALPHA[voice])
    && v == Toned(u, Emphasized(v.pre, input, voice), BASE_DRIVE[voice] + Part(p.amount, DRIVE_RANGE[voice]), TONE_ALPHA[voice],
                  if voice == 7 then 2048 else p.amount / 2).(pre := v.pre, cabinetWrite := (u.cabinetWrite + 1) % 8)
    && after == ring[u.cabinetWrite := v.tone]
    && out == Blend(v.tone, Clamp(Div(Convolution(after, u.cabinetWrite, voice, 8), 32768), PEAK), 16384 + p.character / 2)
  }

  predicate ShineDriven(u: State, v: State, input: sample, p: Parameters, out: int) {
    && v == Toned(u, input, p.shineDrive, 1800 + Part(p.character, 13200), p.character / 2)
    && out == Div(Blend(input, v.tone, 8192), 2)
  }

  predicate WallFuzzed(u: State, v: State, input: sample, p: Parameters, out: int) {
    && v.pre == LowPass(input, u.pre, 3500)
    && v == Toned(u, v.pre, p.wallFuzz, 1000 + Part(p.character, 7000), 8192 + p.character / 2).(pre := v.pre)
    && out == Div(Blend(input, v.tone, 28672), 4)
  }

  predicate RageDriven(u: State, v: State, input: sample, p: Parameters, out: int) {
    && v.pre == LowPass(input, u.pre, 2200)
    && v == Toned(u, Clamp(input + Scaled(input - v.pre, 32768 + p.character, ONE, 2), PEAK), p.rageDrive,
                  7000 + Part(p.character, 18000), 16384 + p.character / 2).(pre := v.pre)
    && out == Div(Blend(input, v.tone, 28672), 4)
  }

  predicate WahCocked(u: State, v: State, input: sample, p: Parameters, out: int) {
    var damping, wet := 28672 - Part(p.character, 20480), 28672 + p.character / 8;
    var resonant := Clamp(Scaled(WahBand(u, input, p.wahCoefficient, damping), 16384 + p.character, ONE, 2), 2 * PEAK);
    && v == Toned(Wahed(u, input, p.wahCoefficient, damping), Blend(input, resonant, wet),
                  DRIVE_ONE + Part(p.character, 12288), 20000, p.character / 2)
    && out == Clamp(2 * Blend(input, Clamp(2 * v.tone, PEAK), wet), PEAK)
  }

  /** Above its threshold the compressor takes off half of what is over. */
  function CompressorGain(envelope: int, amount: weight): weight {
    var threshold := 0x10_0000 + (ONE - amount) * 0x80_0000 / 32768;
    if envelope > threshold then
      QuotientBound(ONE * threshold, ONE, envelope);
      16384 + ONE * threshold / envelope / 2
    else ONE
  }

  predicate StudioCompressed(u: State, v: State, input: sample, p: Parameters, out: int) {
    && v.aux == LowPass(Abs(input), u.aux, if Abs(input) > u.aux then 6000 + p.character / 2 else 80 + p.character / 128)
    && v == u.(aux := v.aux)
    && out == Clamp(Compressed(input, CompressorGain(v.aux, p.amount), 32768 + 2 * p.amount), PEAK)
  }

  predicate OctaveFuzzed(u: State, v: State, input: sample, p: Parameters, out: int) {
    && v.aux == LowPass(Abs(v.tone), u.aux, 900)
    && v == Toned(u, input, 32768 + p.amount * 3, 10000, 28672).(aux := v.aux)
    && out == Blend(v.tone, Abs(v.tone) - v.aux, 12288 + p.character / 2)
  }

  predicate Bowed(u: State, v: State, h: seq<sample>, input: sample, p: Parameters, out: int, write: int)
    requires FRAMES <= |h|
  {
    var target := if v.aux > BowThreshold(p.amount) then ONE else 0;
    && v.aux == LowPass(Abs(input), u.aux, if Abs(input) > u.aux then 6000 else 50)
    && v.pre == LowPass(target, u.pre, if target > u.pre then 24 + Part(ONE - p.amount, 120) else 8)
    && v.tone == LowPass(input, u.tone, 2600 + Part(p.character, 7200))
    && v.wahLow == LowPass(Abs(input), u.wahLow, 420)
    && v == u.(aux := v.aux, pre := v.pre, tone := v.tone, wahLow := v.wahLow, vibe := Advance(u.vibe, p.tapeIncrement))
    && 0 <= v.pre <= ONE
    && write == Blend(v.tone, Abs(input) - v.wahLow, 12288 + p.character / 4)
    && out == Clamp(Scaled(Blend(write, Ago(h, 480 + SweepPart(Sweep(u.vibe), 96 + p.character / 256)), 16384 + p.character / 4),
                           v.pre * 6, 32768, 6), PEAK)
  }

  predicate Gated(u: State, v: State, input: sample, p: Parameters, out: int) {
    var target := if v.aux > GateThreshold(p.amount) then ONE else 0;
    && v.aux == LowPass(Abs(input), u.aux, if Abs(input) > u.aux then 12000 else 160)
    && v.pre == LowPass(target, u.pre, if target > u.pre then 16000 else 400 + p.character / 16)
    && v == u.(aux := v.aux, pre := v.pre)
    && 0 <= v.pre <= ONE
    && out == Scaled(input, v.pre, 32768, 1)
  }

  predicate Vibed(u: State, v: State, h: seq<sample>, input: sample, p: Parameters, out: int)
    requires FRAMES <= |h|
  {
    var sweep, depth := Sweep(u.vibe), 2048 + Part(p.character, 6144);
    var swirled := Blend(input, Ago(h, 96 + SweepPart(sweep, 96 + Part(p.character, 576))), 8192 + Part(p.character, 12288));
    && v == u.(vibe := Advance(u.vibe, p.vibeIncrement))
    && out == Scaled(swirled, ONE - depth + SweepPart(sweep, depth), ONE, 1)
  }

  predicate Tremoloed(u: State, v: State, input: sample, p: Parameters, out: int) {
    var triangle, depth := Sweep(u.tremolo), 16384 + p.character / 2;
    && v == u.(tremolo := Advance(u.tremolo, p.tremoloIncrement))
    && out == Scaled(input, ONE - depth + SweepPart(Waveform(triangle, if triangle >= 32768 then 65535 else 0, p.character), depth), ONE, 1)
  }

  function Half(a: sample, b: sample): sample { Div(a + b, 2) }

  predicate Chorused(u: State, v: State, h: seq<sample>, input: sample, p: Parameters, out: int)
    requires FRAMES <= |h|
  {
    var sweep, depth := Sweep(u.vibe), 72 + Part(p.character, 240);
    var chorus := Half(Ago(h, 720 + SweepPart(sweep, depth)), Ago(h, 960 + SweepPart(65535 - sweep, depth)));
    && v == u.(vibe := Advance(u.vibe, PhaseIncrement(180 + Part(p.amount, 850))))
    && out == Blend(input, chorus, 8192 + p.character / 4)
  }

  /** What an echo adds to its input: the repeat, turned down to at most itself. */
  function FedBack(input: sample, repeat: int, feedback: nat): (write: int)
    requires feedback <= ONE && Abs(repeat) <= 2 * PEAK
    ensures Abs(write - input) <= Abs(repeat)
  {
    input + Scaled(repeat, feedback, ONE, 1)
  }

  predicate Flanged(u: State, v: State, h: seq<sample>, input: sample, p: Parameters, out: int, write: int)
    requires FRAMES <= |h|
  {
    var delayed := Ago(h, 24 + SweepPart(Sweep(u.vibe), 48 + p.character / 256));
    && v == u.(vibe := Advance(u.vibe, PhaseIncrement(80 + Part(p.amount, 1200))))
    && out == Blend(input, delayed, 16384)
    && write == FedBack(input, delayed, 8192 + p.character / 2)
  }

  /** The signal after the first stages of the phaser. */
  function Phased(x: sample, lows: seq<sample>, coefficient: weight, stages: nat): (y: int)
    requires stages <= 4 <= |lows|
    ensures Abs(y) <= (stages + 1) * PEAK
    decreases stages, 0
  {
    if stages == 0 then x
    else Phased(x, lows, coefficient, stages - 1) - StageLow(x, lows, coefficient, stages - 1)
  }

  /** What one stage keeps. */
  function StageLow(x: sample, lows: seq<sample>, coefficient: weight, stage: nat): sample
    requires stage < 4 <= |lows|
    decreases stage, 1
  {
    Clamp(Moved(Phased(x, lows, coefficient, stage), lows[stage], coefficient), PEAK)
  }

  lemma NoStages(x: sample, lows: seq<sample>, coefficient: weight)
    requires 4 <= |lows|
    ensures Phased(x, lows, coefficient, 0) == x
  {}

  lemma OneStage(x: sample, lows: seq<sample>, coefficient: weight, stage: nat)
    requires stage < 4 <= |lows|
    ensures Phased(x, lows, coefficient, stage + 1) == Phased(x, lows, coefficient, stage) - StageLow(x, lows, coefficient, stage)
    ensures StageLow(x, lows, coefficient, stage) == Clamp(Moved(Phased(x, lows, coefficient, stage), lows[stage], coefficient), PEAK)
  {}

  predicate PhasedOrbit(u: State, v: State, lows: seq<sample>, after: seq<sample>, input: sample, p: Parameters, out: int) {
    var coefficient := 2500 + SweepPart(Sweep(u.vibe), 11000 + p.character / 3);
    && |lows| == |after| == 8
    && v == u.(vibe := Advance(u.vibe, PhaseIncrement(70 + Part(p.amount, 1700))))
    && (forall stage :: 0 <= stage < 4 ==> after[stage] == StageLow(input, lows, coefficient, stage))
    && (forall k :: 4 <= k < 8 ==> after[k] == lows[k])
    && out == Blend(input, Phased(input, lows, coefficient, 4), 16384 + p.character / 4)
  }

  function Rotary(horn: sample, drum: sample, triangle: int): sample
    requires -32768 <= triangle <= 32767
  {
    Clamp(Div(horn * (24576 + Div(triangle, 4)) + drum * (24576 - Div(triangle, 8)), 49152), PEAK)
  }

  predicate Rotated(u: State, v: State, h: seq<sample>, input: sample, p: Parameters, out: int)
    requires FRAMES <= |h|
  {
    && v.aux == LowPass(input, u.aux, 1800)
    && v == u.(aux := v.aux, vibe := Advance(u.vibe, PhaseIncrement(450 + Part(p.amount, 6200))))
    && out == Blend(input, Rotary(Ago(h, 48 + SweepPart(Sweep(u.vibe), 120)), v.aux, Triangle(u.vibe)), 16384 + p.character / 4)
  }

  predicate AutoWahed(u: State, v: State, input: sample, p: Parameters, out: int) {
    var aux := LowPass(Abs(input), u.aux, if Abs(input) > u.aux then 9000 else 120);
    var damping := 18000 - p.character / 3;
    && aux >= 0
    && var coefficient := 900 + Part(Least(aux * 32768 / PEAK, ONE), 6000 + p.amount / 3);
       var w := u.(aux := aux);
       && v == Wahed(w, input, coefficient, damping)
       && out == Blend(input, Clamp(WahBand(w, input, coefficient, damping), PEAK), 24576)
  }

  /** A whammy head reads ever nearer to the write position. */
  function HeadDistance(position: nat): distance
    requires position <= 65535
  {
    WHAMMY_MIN_DELAY + (65535 - position) * WHAMMY_WINDOW / 65536
  }

  predicate WhammyFuzzed(u: State, v: State, h: seq<sample>, input: sample, p: Parameters, out: int)
    requires FRAMES <= |h|
  {
    var a, b := u.whammy / 0x1_0000, Advance(u.whammy, 0x8000_0000) / 0x1_0000;
    WindowsAddUp(u.whammy);
    && v.aux == LowPass(Weighted(Ago(h, HeadDistance(a)), Window(a), Ago(h, HeadDistance(b)), Window(b)), u.aux, 12000)
    && v == Toned(u, v.aux, DRIVE_ONE + Part(p.character, 126976), 5000 + Part(p.character, 12000), p.character * 3 / 4)
              .(aux := v.aux, whammy := Advance(u.whammy, WHAMMY_INCREMENT))
    && out == Blend(input, Blend(input, v.tone, p.amount), 8192)
  }

  /** The long head of the tape, with its flutter. */
  function TapeHead(u: State, p: Parameters): (d: distance)
    requires Usable(p)
    ensures 5741 <= d <= 30019
  {
    FlutterBound(Triangle(u.tape), 3 + p.character / 2048);
    p.tapeDelay + Div(Triangle(u.tape) * (3 + p.character / 2048), 32768)
  }

  lemma ShortHead(long: distance)
    requires long >= 2
    ensures 0 < long * 3 / 4 <= FRAMES
  {}

  function Heads(long: sample, short: sample): sample { Div(long * 3 + short * 2, 5) }

  predicate TapeEchoed(u: State, v: State, h: seq<sample>, input: sample, p: Parameters, out: int, write: int)
    requires FRAMES <= |h| && Usable(p)
  {
    var long := TapeHead(u, p);
    && v.delayFilter == LowPass(Heads(Ago(h, long), Ago(h, long * 3 / 4)), u.delayFilter, 6500 - Part(p.character, 3500))
    && v == u.(delayFilter := v.delayFilter, tape := Advance(u.tape, p.tapeIncrement))
    && out == Blend(input, v.delayFilter, 8192 + Part(p.character, 6144))
    && write == FedBack(input, v.delayFilter, 6554 + Part(p.character, 16384))
  }

  /** The time between two repeats of the digital delay, and what a repeat keeps. */
  function RepeatTime(p: Parameters): (d: distance)
    ensures 2400 <= d <= 28800
  {
    2400 + Part(p.amount, 26400)
  }

  function RepeatGain(p: Parameters): (g: weight)
    ensures 4096 <= g <= 27648
  {
    4096 + Part(p.character, 23552)
  }

  predicate DigitallyDelayed(u: State, v: State, h: seq<sample>, input: sample, p: Parameters, out: int, write: int)
    requires FRAMES <= |h|
  {
    && v == u
    && out == Blend(input, Ago(h, RepeatTime(p)), 12288)
    && write == FedBack(input, Ago(h, RepeatTime(p)), RepeatGain(p))
  }

  predicate AnalogDelayed(u: State, v: State, h: seq<sample>, input: sample, p: Parameters, out: int, write: int)
    requires FRAMES <= |h|
  {
    && v.delayFilter == LowPass(Ago(h, 3600 + Part(p.amount, 25200)), u.delayFilter, 1800 + (ONE - p.character) / 8)
    && v == u.(delayFilter := v.delayFilter)
    && out == Blend(input, v.delayFilter, 14336)
    && write == FedBack(input, v.delayFilter, 8192 + p.character / 2)
  }

  /** The reverse delay reads forward while the line is written: in the second
      half of a window its head is an ordinary tap, in the first half it still
      reads what the line kept from its last time round. */
  function ReverseDistance(phase: nat, window: nat): distance
    requires phase < window <= 16384
  {
    if 2 * phase + 1 > window then 2 * phase + 1 - window else FRAMES + 2 * phase + 1 - window
  }

  predicate ReverseDelayed(u: State, v: State, h: seq<sample>, input: sample, p: Parameters, out: int)
    requires FRAMES <= |h|
  {
    var window := 4096 + Part(p.amount, 12288);
    var phase := |h| % FRAMES % window;
    && v == u
    && out == Blend(input, Scaled(Ago(h, ReverseDistance(phase, window)), Fade(phase, window), 32768, 1), 12288 + p.character / 4)
  }

  function Field(h: seq<sample>): sample
    requires FRAMES <= |h|
  {
    Div(Ago(h, 1493) + Ago(h, 4217) + Ago(h, 7013) + Ago(h, 11003), 4)
  }

  predicate HallReverbed(u: State, v: State, h: seq<sample>, input: sample, p: Parameters, out: int, write: int)
    requires FRAMES <= |h|
  {
    && v.delayFilter == LowPass(Field(h), u.delayFilter, 2200 + p.character / 8)
    && v == u.(delayFilter := v.delayFilter)
    && out == Blend(input, v.delayFilter, 8192 + p.character / 4)
    && write == FedBack(input, v.delayFilter, 15000 + p.amount / 3)
  }

  function Diffusion(h: seq<sample>): sample
    requires FRAMES <= |h|
  {
    Clamp(Div(Ago(h, 1051) * 3 - Ago(h, 2203) * 2 + Ago(h, 3469) * 2 + Ago(h, 4787), 8), PEAK)
  }

  predicate PlateReverbed(u: State, v: State, h: seq<sample>, input: sample, p: Parameters, out: int, write: int)
    requires FRAMES <= |h|
  {
    && v == u
    && out == Blend(input, Diffusion(h), 10240 + p.character / 4)
    && write == FedBack(input, Diffusion(h), 13500 + p.amount / 3)
  }

  predicate Shimmered(u: State, v: State, h: seq<sample>, input: sample, p: Parameters, out: int, write: int)
    requires FRAMES <= |h|
  {
    var at := u.whammy / 0x1_0000;
    var shifted := Half(Ago(h, 160 + (65535 - at) * 1400 / 65536), Ago(h, 160 + at * 1400 / 65536));
    && v.delayFilter == LowPass(shifted, u.delayFilter, 5000)
    && v == u.(delayFilter := v.delayFilter, whammy := Advance(u.whammy, 4194304))
    && out == Blend(input, v.delayFilter, 8192 + p.character / 3)
    && write == FedBack(input, v.delayFilter, 13000 + p.amount / 3)
  }

  function Splash(h: seq<sample>): sample
    requires FRAMES <= |h|
  {
    Clamp(Div(Ago(h, 613) * 3 - Ago(h, 1297) * 2 + Ago(h, 2381), 4), PEAK)
  }

  predicate Sprung(u: State, v: State, h: seq<sample>, input: sample, p: Parameters, out: int, write: int)
    requires FRAMES <= |h|
  {
    && v.aux == LowPass(Splash(h), u.aux, 3200)
    && v == u.(aux := v.aux)
    && out == Blend(input, Splash(h) - v.aux, 8192 + p.character / 3)
    && write == FedBack(input, Splash(h) - v.aux, 10000 + p.amount / 4)
  }

  /** One frame of an effect that keeps nothing of its own in the delay line. */
  predicate Colored(current: nat, u: State, v: State, h: seq<sample>, input: sample, p: Parameters, out: int)
    requires FRAMES <= |h|
  {
    if current == SHINE_DRIVE then ShineDriven(u, v, input, p, out)
    else if current == WALL_FUZZ then WallFuzzed(u, v, input, p, out)
    else if current == RAGE_DRIVE then RageDriven(u, v, input, p, out)
    else if current == COCKED_WAH then WahCocked(u, v, input, p, out)
    else if current == STUDIO_COMP then StudioCompressed(u, v, input, p, out)
    else if current == OCTAVE_FUZZ then OctaveFuzzed(u, v, input, p, out)
    else if current == NOISE_GATE then Gated(u, v, input, p, out)
    else if current == BREATHE_VIBE then Vibed(u, v, h, input, p, out)
    else if current == GUERRILLA_TREM then Tremoloed(u, v, input, p, out)
    else if current == DIMENSION_CHORUS then Chorused(u, v, h, input, p, out)
    else if current == ROTARY_CAB then Rotated(u, v, h, input, p, out)
    else if current == AUTO_WAH then AutoWahed(u, v, input, p, out)
    else if current == WHAMMY_FUZZ then WhammyFuzzed(u, v, h, input, p, out)
    else if current == REVERSE_DELAY then ReverseDelayed(u, v, h, input, p, out)
    else v == u && out == input
  }

  /** One frame of an effect that does. */
  predicate Echoed(current: nat, u: State, v: State, h: seq<sample>, input: sample, p: Parameters, out: int, write: int)
    requires FRAMES <= |h| && Usable(p) && FeedsBack(current)
  {
    if current == STRING_ENSEMBLE then Bowed(u, v, h, input, p, out, write)
    else if current == JET_FLANGER then Flanged(u, v, h, input, p, out, write)
    else if current == ECHOES_TAPE then TapeEchoed(u, v, h, input, p, out, write)
    else if current == DIGITAL_DELAY then DigitallyDelayed(u, v, h, input, p, out, write)
    else if current == ANALOG_DELAY then AnalogDelayed(u, v, h, input, p, out, write)
    else if current == HALL_REVERB then HallReverbed(u, v, h, input, p, out, write)
    else if current == PLATE_REVERB then PlateReverbed(u, v, h, input, p, out, write)
    else if current == SHIMMER_SPACE then Shimmered(u, v, h, input, p, out, write)
    else Sprung(u, v, h, input, p, out, write)
  }

  /** Everything an effect keeps beside the delay line. */
  datatype Memory = Memory(s: State, multi: seq<sample>, cabinet: seq<sample>)

  /** What the selected effect makes of one frame: the two values it returns and
      the memory it leaves, each a function of the memory, the delay line, the
      input and the parameters. */
  predicate Played(current: nat, u: Memory, v: Memory, h: seq<sample>, input: sample, p: Parameters, out: int, write: int)
    requires FRAMES <= |h| && Usable(p)
  {
    && (current == PHASE_ORBIT || v.multi == u.multi)
    && (current < 8 || v.cabinet == u.cabinet)
    && (FeedsBack(current) || write == input)
    && if current < 8 then AmpVoiced(current, u.s, v.s, u.cabinet, v.cabinet, input, p, out)
       else if current == PHASE_ORBIT then PhasedOrbit(u.s, v.s, u.multi, v.multi, input, p, out)
       else if FeedsBack(current) then Echoed(current, u.s, v.s, h, input, p, out, write)
       else Colored(current, u.s, v.s, h, input, p, out)
  }

  /** What a frame leaves: with the effects on, what the selected effect made of
      it, and otherwise everything as it was; the memory is not said of a frame
      that changes the effect, which clears it. */
  ghost predicate Rendered(on: bool, stays: bool, current: nat, u: Memory, v: Memory, h: seq<sample>, after: seq<sample>,
                           input: sample, p: Parameters, out: sample)
    requires FRAMES <= |h| && Usable(p)
  {
    if on then
      exists kept: Memory, write: mix ::
        Played(current, u, kept, h, input, p, out, write) && after == h + [Clamp(write, PEAK)] && (stays ==> v == kept)
    else out == input && after == h && (stays ==> v == u)
  }

  /** The rest of the frame may clear the memory, if it changes the effect. */
  lemma StillRendered(on: bool, stays: bool, current: nat, u: Memory, kept: Memory, v: Memory, h: seq<sample>, after: seq<sample>,
                      input: sample, p: Parameters, out: sample)
    requires FRAMES <= |h| && Usable(p)
    requires Rendered(on, true, current, u, kept, h, after, input, p, out)
    requires stays ==> v == kept
    ensures Rendered(on, stays, current, u, v, h, after, input, p, out)
  {
    hide Played;
  }

  class Processor {
    var s: State
    var dc: int32
    var effectRamp: weight
    var selection: Selection
    /** g_hardware_app_input_peak */
    var peak: int32
    var delayWrite: nat
    const multi: array<sample>
    const cabinet: array<sample>
    const delay: array<sample>
    /** Everything ever written to the delay line, after the zeros it starts with. */
    ghost var history: seq<sample>

    ghost predicate Recorded()
      reads this`delayWrite, this`history, delay
    {
      && delay.Length == FRAMES <= |history| && delayWrite == |history| % FRAMES
      && forall d: distance :: delay[Slot(delayWrite, d)] == Ago(history, d)
    }

    ghost predicate Ready()
      reads this`s, this`selection, this`delayWrite, this`history, delay
    {
      && multi.Length == cabinet.Length == 8 && multi != cabinet && multi != delay && cabinet != delay
      && Recorded() && selection.current < EFFECTS && Tuned(s, selection.current)
    }

    /** initialize_effect_processor */
    constructor (requested: uint32)
      ensures Ready() && fresh(multi) && fresh(cabinet) && fresh(delay)
      ensures selection == Selection(if requested < EFFECTS then requested else 0, ONE) && effectRamp == 0 && peak == 0
      ensures history == seq(FRAMES, i => 0)
    {
      s, dc, effectRamp, peak := RESET, 0, 0, 0;
      selection := Selection(if requested < EFFECTS then requested else 0, ONE);
      delayWrite := 0;
      multi := new sample[8](i => 0);
      cabinet := new sample[8](i => 0);
      delay := new sample[FRAMES](i => 0);
      history := seq(FRAMES, i => 0);
    }

    /** reset_transient_effect_state */
    method ResetTransient()
      requires Ready()
      modifies this`s, multi, cabinet
      ensures Ready() && s == RESET
    {
      s := RESET;
      for index := 0 to 8 invariant Ready() && s == RESET { multi[index] := 0; }
      for index := 0 to 8 invariant Ready() && s == RESET { cabinet[index] := 0; }
    }

    /** A plain delay tap: the sample written exactly d processed frames ago. */
    function Tap(d: distance): (r: sample)
      requires Recorded()
      reads this`delayWrite, this`history, delay
      ensures r == Ago(history, d)
    {
      TapIndex(delayWrite, d);
      delay[Wrap32(delayWrite - d) % FRAMES]
    }

    /** The end of process_selected_effect: the delay line moves on by one frame. */
    method Record(value: mix) returns (kept: sample)
      requires Ready()
      modifies this`delayWrite, this`history, delay
      ensures Ready() && kept == Clamp(value, PEAK)
      ensures history == old(history) + [kept]
    {
      kept := Clamp(value, PEAK);
      ghost var write, before := delayWrite, history;
      delay[delayWrite] := kept;
      delayWrite := (delayWrite + 1) % FRAMES;
      history := history + [kept];
      forall d: distance ensures delay[Slot(delayWrite, d)] == Ago(history, d) {
        SlotNext(write, d);
        if d > 1 { assert Ago(history, d) == Ago(before, d - 1); }
      }
      WriteMovesOn(|before|);
    }

    /** shape_drive: the unclamped tone state never leaves the safe range. */
    method ShapeDrive(input: int32, amount: drive, alpha: weight, character: weight) returns (r: sample)
      requires Abs(input) <= 4 * PEAK
      modifies this`s
      ensures s == old(s).(tone := r)
      ensures r == Moved(Shape(input, amount, character), old(s).tone, alpha)
    {
      var filtered: int64 := Moved(Shape(input, amount, character), s.tone, alpha);
      s := s.(tone := filtered);
      r := Clamp(filtered, PEAK);
    }

    /** highpass_input: the offset estimate stays between what it was and the input. */
    method HighpassInput(dry: int32) returns (r: sample)
      modifies this`dc
      ensures old(dc) <= dry ==> old(dc) <= dc <= dry
      ensures dry <= old(dc) ==> dry <= dc <= old(dc)
      ensures dc == old(dc) + Div(dry - old(dc), 1024)
      ensures r == Clamp(dry - old(dc), PEAK)
    {
      var difference: int64 := (dry as int) - (dc as int);
      dc := (dc as int) + Div(difference, 1024);
      r := Clamp(difference, PEAK);
    }

    // ---- Engine slot 5: amplifiers ----

    /** process_amp_voice */
    method AmpVoice(input: sample, p: Parameters, voice: nat) returns (out: sample)
      requires Ready() && voice < 8 && selection.current == voice
      modifies this`s, cabinet
      ensures Ready()
      ensures AmpVoiced(voice, old(s), s, old(cabinet[..]), cabinet[..], input, p, out)
    {
      hide Recorded, Blend, Scaled, LowPass, Part, SweepPart, PhaseIncrement, Triangle, Div, Shape, Moved, Convolution;
      AmpTables(voice);
      s := s.(pre := LowPass(input, s.pre, PRE_ALPHA[voice]));
      var body := s.pre;
      var emphasized: sample := if voice == 6 then body else Clamp(input + Div(input - body, 2), PEAK);
      var preamp := ShapeDrive(emphasized, BASE_DRIVE[voice] + Part(p.amount, DRIVE_RANGE[voice]), TONE_ALPHA[voice],
                               if voice == 7 then 2048 else p.amount / 2);
      var convolved := Convolve(preamp, voice);
      var wet := Clamp(Div(convolved, 32768), PEAK);
      out := Blend(preamp, wet, 16384 + p.character / 2);
    }

    /** The eight-tap cabinet: its sum cannot leave 64 bits. */
    method Convolve(preamp: sample, voice: nat) returns (convolved: int64)
      requires Ready() && voice < 8
      modifies this`s, cabinet
      ensures Ready() && s == old(s).(cabinetWrite := (old(s).cabinetWrite + 1) % 8)
      ensures cabinet[..] == old(cabinet[..])[old(s).cabinetWrite := preamp]
      ensures convolved == Convolution(cabinet[..], old(s).cabinetWrite, voice, 8)
    {
      hide Recorded, Blend, Scaled, LowPass, Part, SweepPart, PhaseIncrement, Triangle, Div, Shape, Moved, Advance, Ago;
      hide Convolution;
      cabinet[s.cabinetWrite] := preamp;
      ghost var ring := cabinet[..];
      var sum := 0;
      NoTaps(ring, s.cabinetWrite, voice);
      for tap := 0 to 8
        invariant Ready() && s == old(s) && cabinet[..] == ring
        invariant sum == Convolution(ring, s.cabinetWrite, voice, tap)
      {
        CabinetRow(voice, tap);
        OneTap(ring, s.cabinetWrite, voice, tap);
        var index := Wrap32(s.cabinetWrite - tap) % 8;
        sum := sum + cabinet[index] * CABINET_IR[voice][tap];
      }
      s := s.(cabinetWrite := (s.cabinetWrite + 1) % 8);
      convolved := sum;
    }

    // ---- Engine slot 6: drive and dynamics ----

    method ShineDrive(input: sample, p: Parameters) returns (out: sample)
      requires Ready() && selection.current == SHINE_DRIVE
      modifies this`s
      ensures Ready() && Abs(out) <= PEAK / 2
      ensures ShineDriven(old(s), s, input, p, out)
    {
      hide Recorded, Blend, Scaled, LowPass, Part, SweepPart, PhaseIncrement, Triangle, Div, Shape, Moved, Advance, Ago;
      var driven := ShapeDrive(input, p.shineDrive, 1800 + Part(p.character, 13200), p.character / 2);
      out := Div(Blend(input, driven, 8192), 2);
    }

    method WallFuzz(input: sample, p: Parameters) returns (out: sample)
      requires Ready() && selection.current == WALL_FUZZ
      modifies this`s
      ensures Ready() && Abs(out) <= PEAK / 4
      ensures WallFuzzed(old(s), s, input, p, out)
    {
      hide Recorded, Blend, Scaled, LowPass, Part, SweepPart, PhaseIncrement, Triangle, Div, Shape, Moved, Advance, Ago;
      s := s.(pre := LowPass(input, s.pre, 3500));
      var fuzzed := ShapeDrive(s.pre, p.wallFuzz, 1000 + Part(p.character, 7000), 8192 + p.character / 2);
      out := Div(Blend(input, fuzzed, 28672), 4);
    }

    method RageDrive(input: sample, p: Parameters) returns (out: sample)
      requires Ready() && selection.current == RAGE_DRIVE
      modifies this`s
      ensures Ready() && Abs(out) <= PEAK / 4
      ensures RageDriven(old(s), s, input, p, out)
    {
      hide Recorded, Blend, Scaled, LowPass, Part, SweepPart, PhaseIncrement, Triangle, Div, Shape, Moved, Advance, Ago;
      s := s.(pre := LowPass(input, s.pre, 2200));
      var edge: int32 := (input as int) - s.pre;
      var tightened := Clamp(input + Scaled(edge, 32768 + p.character, ONE, 2), PEAK);
      var distorted := ShapeDrive(tightened, p.rageDrive, 7000 + Part(p.character, 18000), 16384 + p.character / 2);
      out := Div(Blend(input, distorted, 28672), 4);
    }

    /** One step of the state-variable filter of both wahs. */
    method WahStep(input: sample, coefficient: weight, damping: weight) returns (band: mix)
      modifies this`s
      ensures band == WahBand(old(s), input, coefficient, damping)
      ensures s == Wahed(old(s), input, coefficient, damping)
    {
      hide Recorded, Blend, Scaled, LowPass, Part, SweepPart, PhaseIncrement, Triangle, Div, Shape, Moved, Advance, Ago;
      var low: int64 := s.wahLow + Scaled(s.wahBand, coefficient, ONE, 1);
      var high: int64 := input - low - Scaled(s.wahBand, damping, ONE, 1);
      band := s.wahBand + Scaled(high, coefficient, ONE, 1);
      s := s.(wahLow := Clamp(low, 4 * PEAK), wahBand := Clamp(band, 4 * PEAK));
    }

    method CockedWah(input: sample, p: Parameters) returns (out: sample)
      requires Ready() && selection.current == COCKED_WAH
      modifies this`s
      ensures Ready()
      ensures WahCocked(old(s), s, input, p, out)
    {
      hide Recorded, Blend, Scaled, LowPass, Part, SweepPart, PhaseIncrement, Triangle, Div, Shape, Moved, Advance, Ago;
      var band := WahStep(input, p.wahCoefficient, 28672 - Part(p.character, 20480));
      var wet := 28672 + p.character / 8;
      var resonant := Clamp(Scaled(band, 16384 + p.character, ONE, 2), 2 * PEAK);
      var filtered := Blend(input, resonant, wet);
      var wah: int := ShapeDrive(filtered, DRIVE_ONE + Part(p.character, 12288), 20000, p.character / 2);
      var lifted := Clamp(2 * wah, PEAK);
      var again: int := Blend(input, lifted, wet);
      out := Clamp(2 * again, PEAK);
    }

    method StudioComp(input: sample, p: Parameters) returns (out: sample)
      requires Ready() && selection.current == STUDIO_COMP
      modifies this`s
      ensures Ready()
      ensures input >= 0 ==> out >= 0
      ensures input <= 0 ==> out <= 0
      ensures StudioCompressed(old(s), s, input, p, out)
    {
      hide Recorded, Blend, Scaled, LowPass, Part, SweepPart, PhaseIncrement, Triangle, Div, Shape, Moved, Advance, Ago;
      var magnitude := Abs(input);
      var coefficient := if magnitude > s.aux then 6000 + p.character / 2 else 80 + p.character / 128;
      s := s.(aux := LowPass(magnitude, s.aux, coefficient));
      hide CompressorGain, Compressed;
      var gain := CompressorGain(s.aux, p.amount);
      out := Clamp(Compressed(input, gain, 32768 + 2 * p.amount), PEAK);
    }

    method OctaveFuzz(input: sample, p: Parameters) returns (out: sample)
      requires Ready() && selection.current == OCTAVE_FUZZ
      modifies this`s
      ensures Ready()
      ensures OctaveFuzzed(old(s), s, input, p, out)
    {
      hide Recorded, Blend, Scaled, LowPass, Part, SweepPart, PhaseIncrement, Triangle, Div, Shape, Moved, Advance, Ago;
      var fuzz := ShapeDrive(input, 32768 + p.amount * 3, 10000, 28672);
      var rectified := Abs(fuzz);
      s := s.(aux := LowPass(rectified, s.aux, 900));
      var octave: int32 := (rectified as int) - s.aux;
      out := Blend(fuzz, octave, 12288 + p.character / 2);
    }

    /** The threshold's product may wrap in 32 bits: see BowThresholdIs. */
    method StringEnsemble(input: sample, p: Parameters) returns (out: sample, write: mix)
      requires Ready() && selection.current == STRING_ENSEMBLE
      modifies this`s
      ensures Ready()
      ensures Bowed(old(s), s, history, input, p, out, write)
    {
      hide Recorded, Blend, Scaled, LowPass, Part, SweepPart, PhaseIncrement, Triangle, Div, Shape, Moved, Advance, Ago;
      var magnitude := Abs(input);
      s := s.(aux := LowPass(magnitude, s.aux, if magnitude > s.aux then 6000 else 50));
      var threshold := BowThreshold(p.amount);
      var target := if s.aux > threshold then ONE else 0;
      var attack := 24 + Part(ONE - p.amount, 120);
      s := s.(pre := LowPass(target, s.pre, if target > s.pre then attack else 8));
      var bow: weight := s.pre;
      s := s.(tone := LowPass(input, s.tone, 2600 + Part(p.character, 7200)));
      var body := s.tone;
      s := s.(wahLow := LowPass(magnitude, s.wahLow, 420));
      var octave: int32 := (magnitude as int) - s.wahLow;
      var harmonized := Blend(body, octave, 12288 + p.character / 4);
      var ensemble := Tap(480 + SweepPart(Sweep(s.vibe), 96 + p.character / 256));
      var voice := Blend(harmonized, ensemble, 16384 + p.character / 4);
      s := s.(vibe := Advance(s.vibe, p.tapeIncrement));
      write := harmonized;
      out := Clamp(Scaled(voice, bow * 6, 32768, 6), PEAK);
    }

    /** The gate only ever turns its input down, whatever its threshold wraps to. */
    method NoiseGate(input: sample, p: Parameters) returns (out: sample)
      requires Ready() && selection.current == NOISE_GATE
      modifies this`s
      ensures Ready() && Abs(out) <= Abs(input)
      ensures input >= 0 ==> out >= 0
      ensures input <= 0 ==> out <= 0
      ensures Gated(old(s), s, input, p, out)
    {
      hide Recorded, Blend, Scaled, LowPass, Part, SweepPart, PhaseIncrement, Triangle, Div, Shape, Moved, Advance, Ago;
      var magnitude := Abs(input);
      s := s.(aux := LowPass(magnitude, s.aux, if magnitude > s.aux then 12000 else 160));
      var threshold := GateThreshold(p.amount);
      var target := if s.aux > threshold then ONE else 0;
      s := s.(pre := LowPass(target, s.pre, if target > Wrap32(s.pre) then 16000 else 400 + p.character / 16));
      out := Scaled(input, s.pre, 32768, 1);
    }

    // ---- Engine slot 7: motion and pitch ----

    /** Vibrato under a tremolo that never adds gain. */
    method BreatheVibe(input: sample, p: Parameters) returns (out: sample)
      requires Ready() && selection.current == BREATHE_VIBE
      modifies this`s
      ensures Ready()
      ensures Vibed(old(s), s, history, input, p, out)
    {
      hide Recorded, Blend, Scaled, LowPass, Part, SweepPart, PhaseIncrement, Triangle, Div, Shape, Moved, Advance, Ago;
      var sweep := Sweep(s.vibe);
      var delayed := Tap(96 + SweepPart(sweep, 96 + Part(p.character, 576)));
      var wet := 8192 + Part(p.character, 12288);
      var depth := 2048 + Part(p.character, 6144);
      var gain: weight := ONE - depth + SweepPart(sweep, depth);
      var swirled := Blend(input, delayed, wet);
      s := s.(vibe := Advance(s.vibe, p.vibeIncrement));
      out := Scaled(swirled, gain, ONE, 1);
    }

    /** A tremolo only ever turns its input down. */
    method GuerrillaTrem(input: sample, p: Parameters) returns (out: sample)
      requires Ready() && selection.current == GUERRILLA_TREM
      modifies this`s
      ensures Ready() && Abs(out) <= Abs(input)
      ensures Tremoloed(old(s), s, input, p, out)
    {
      hide Recorded, Blend, Scaled, LowPass, Part, SweepPart, PhaseIncrement, Triangle, Div, Shape, Moved, Advance, Ago;
      hide Waveform, Advance, Sweep;
      var triangle := Sweep(s.tremolo);
      var square := if triangle >= 32768 then 65535 else 0;
      var waveform := Waveform(triangle, square, p.character);
      var depth := 16384 + p.character / 2;
      var gain: weight := ONE - depth + SweepPart(waveform, depth);
      s := s.(tremolo := Advance(s.tremolo, p.tremoloIncrement));
      out := Scaled(input, gain, ONE, 1);
    }

    method DimensionChorus(input: sample, p: Parameters) returns (out: sample)
      requires Ready() && selection.current == DIMENSION_CHORUS
      modifies this`s
      ensures Ready()
      ensures Chorused(old(s), s, history, input, p, out)
    {
      hide Recorded, Blend, Scaled, LowPass, Part, SweepPart, PhaseIncrement, Triangle, Div, Shape, Moved, Advance, Ago;
      var sweep := Sweep(s.vibe);
      var depth := 72 + Part(p.character, 240);
      var a: int := Tap(720 + SweepPart(sweep, depth));
      var b: int := Tap(960 + SweepPart(65535 - sweep, depth));
      var chorus: sample := Div(a + b, 2);
      s := s.(vibe := Advance(s.vibe, PhaseIncrement(180 + Part(p.amount, 850))));
      out := Blend(input, chorus, 8192 + p.character / 4);
    }

    method JetFlanger(input: sample, p: Parameters) returns (out: sample, write: mix)
      requires Ready() && selection.current == JET_FLANGER
      modifies this`s
      ensures Ready()
      ensures Flanged(old(s), s, history, input, p, out, write)
    {
      hide Recorded, Blend, Scaled, LowPass, Part, SweepPart, PhaseIncrement, Triangle, Div, Shape, Moved, Advance, Ago;
      var delayed := Tap(24 + SweepPart(Sweep(s.vibe), 48 + p.character / 256));
      s := s.(vibe := Advance(s.vibe, PhaseIncrement(80 + Part(p.amount, 1200))));
      out := Blend(input, delayed, 16384);
      write := input + Scaled(delayed, 8192 + p.character / 2, 32768, 1);
    }

    method PhaseOrbit(input: sample, p: Parameters) returns (out: sample)
      requires Ready() && selection.current == PHASE_ORBIT
      modifies this`s, multi
      ensures Ready()
      ensures PhasedOrbit(old(s), s, old(multi[..]), multi[..], input, p, out)
    {
      hide Recorded, Blend, Scaled, LowPass, Part, SweepPart, PhaseIncrement, Triangle, Div, Phased, StageLow, Moved;
      var phased := FourStages(input, 2500 + SweepPart(Sweep(s.vibe), 11000 + p.character / 3));
      s := s.(vibe := Advance(s.vibe, PhaseIncrement(70 + Part(p.amount, 1700))));
      out := Blend(input, phased, 16384 + p.character / 4);
    }

    /** Four all-pass stages: the signal stays in 32 bits through every stage. */
    method FourStages(input: sample, coefficient: weight) returns (phased: int32)
      requires multi.Length == 8
      modifies multi
      ensures phased == Phased(input, old(multi[..]), coefficient, 4)
      ensures forall k :: 0 <= k < 4 ==> multi[k] == StageLow(input, old(multi[..]), coefficient, k)
      ensures forall k :: 4 <= k < 8 ==> multi[k] == old(multi[k])
    {
      hide Phased, StageLow, Moved;
      ghost var lows := multi[..];
      phased := input;
      NoStages(input, lows, coefficient);
      for stage := 0 to 4
        invariant phased == Phased(input, lows, coefficient, stage)
        invariant forall k :: 0 <= k < stage ==> multi[k] == StageLow(input, lows, coefficient, k)
        invariant forall k :: stage <= k < 8 ==> multi[k] == lows[k]
      {
        OneStage(input, lows, coefficient, stage);
        var low := Clamp(Moved(phased, multi[stage], coefficient), PEAK);
        multi[stage] := low;
        phased := (phased as int) - low;
      }
    }

    method RotaryCab(input: sample, p: Parameters) returns (out: sample)
      requires Ready() && selection.current == ROTARY_CAB
      modifies this`s
      ensures Ready()
      ensures Rotated(old(s), s, history, input, p, out)
    {
      hide Recorded, Blend, Scaled, LowPass, Part, SweepPart, PhaseIncrement, Triangle, Div, Shape, Moved, Advance, Ago;
      var triangle := Triangle(s.vibe);
      var horn := Tap(48 + SweepPart(Sweep(s.vibe), 120));
      s := s.(aux := LowPass(input, s.aux, 1800));
      var drum := s.aux;
      var hornGain, drumGain := 24576 + Div(triangle, 4), 24576 - Div(triangle, 8);
      GainBound(horn, hornGain);
      GainBound(drum, drumGain);
      var sum: int64 := horn * hornGain + drum * drumGain;
      var rotary := Clamp(Div(sum, 49152), PEAK);
      s := s.(vibe := Advance(s.vibe, PhaseIncrement(450 + Part(p.amount, 6200))));
      out := Blend(input, rotary, 16384 + p.character / 4);
    }

    method AutoWah(input: sample, p: Parameters) returns (out: sample)
      requires Ready() && selection.current == AUTO_WAH
      modifies this`s
      ensures Ready()
      ensures AutoWahed(old(s), s, input, p, out)
    {
      hide Recorded, Blend, Scaled, LowPass, Part, SweepPart, PhaseIncrement, Triangle, Div, Shape, Moved, Advance, Ago;
      var magnitude := Abs(input);
      s := s.(aux := LowPass(magnitude, s.aux, if magnitude > s.aux then 9000 else 120));
      var envelope: uint32 := s.aux;
      var raw := envelope * 32768 / PEAK;
      var normalized: weight := Least(raw, ONE);
      var coefficient := 900 + Part(normalized, 6000 + p.amount / 3);
      var band := WahStep(input, coefficient, 18000 - p.character / 3);
      out := Blend(input, Clamp(band, PEAK), 24576);
    }

    method WhammyFuzz(input: sample, p: Parameters) returns (out: sample)
      requires Ready() && selection.current == WHAMMY_FUZZ
      modifies this`s
      ensures Ready()
      ensures WhammyFuzzed(old(s), s, history, input, p, out)
    {
      hide Recorded, Blend, Scaled, LowPass, Part, SweepPart, PhaseIncrement, Triangle, Div, Shape, Moved, Advance, Ago;
      var a, b := s.whammy / 0x1_0000, Advance(s.whammy, 0x8000_0000) / 0x1_0000;
      WindowsAddUp(s.whammy);
      var headA := Tap(WHAMMY_MIN_DELAY + (65535 - a) * WHAMMY_WINDOW / 65536);
      var headB := Tap(WHAMMY_MIN_DELAY + (65535 - b) * WHAMMY_WINDOW / 65536);
      var shifted := Weighted(headA, Window(a), headB, Window(b));
      s := s.(aux := LowPass(shifted, s.aux, 12000));
      var pitched := ShapeDrive(s.aux, DRIVE_ONE + Part(p.character, 126976), 5000 + Part(p.character, 12000), p.character * 3 / 4);
      s := s.(whammy := Advance(s.whammy, WHAMMY_INCREMENT));
      out := Blend(input, Blend(input, pitched, p.amount), 8192);
    }

    // ---- Engine slot 8: echo and space ----

    method EchoesTape(input: sample, p: Parameters) returns (out: sample, write: mix)
      requires Ready() && Usable(p) && selection.current == ECHOES_TAPE
      modifies this`s
      ensures Ready()
      ensures TapeEchoed(old(s), s, history, input, p, out, write)
    {
      hide Recorded, Blend, Scaled, LowPass, Part, SweepPart, PhaseIncrement, Triangle, Div, Shape, Moved, Advance, Ago, Heads;
      hide TapeHead, FedBack;
      var long: int := TapeHead(s, p);
      ShortHead(long);
      var longTap, shortTap := Tap(long), Tap(long * 3 / 4);
      var heads := Heads(longTap, shortTap);
      s := s.(delayFilter := LowPass(heads, s.delayFilter, 6500 - Part(p.character, 3500)));
      var dark := s.delayFilter;
      s := s.(tape := Advance(s.tape, p.tapeIncrement));
      out := Blend(input, dark, 8192 + Part(p.character, 6144));
      write := FedBack(input, dark, 6554 + Part(p.character, 16384));
    }

    method DigitalDelay(input: sample, p: Parameters) returns (out: sample, write: mix)
      requires Ready() && selection.current == DIGITAL_DELAY
      ensures DigitallyDelayed(s, s, history, input, p, out, write)
    {
      hide Recorded, Blend, Scaled, LowPass, Part, SweepPart, PhaseIncrement, Triangle, Div, Shape, Moved, Advance, Ago;
      var delayed := Tap(2400 + Part(p.amount, 26400));
      out := Blend(input, delayed, 12288);
      write := input + Scaled(delayed, 4096 + Part(p.character, 23552), 32768, 1);
    }

    method AnalogDelay(input: sample, p: Parameters) returns (out: sample, write: mix)
      requires Ready() && selection.current == ANALOG_DELAY
      modifies this`s
      ensures Ready()
      ensures AnalogDelayed(old(s), s, history, input, p, out, write)
    {
      hide Recorded, Blend, Scaled, LowPass, Part, SweepPart, PhaseIncrement, Triangle, Div, Shape, Moved, Advance, Ago;
      var delayed := Tap(3600 + Part(p.amount, 25200));
      s := s.(delayFilter := LowPass(delayed, s.delayFilter, 1800 + (ONE - p.character) / 8));
      var dark := s.delayFilter;
      out := Blend(input, dark, 14336);
      write := input + Scaled(dark, 8192 + p.character / 2, 32768, 1);
    }

    /** Reads forward while the line is written, so not a tap of fixed distance. */
    method ReverseDelay(input: sample, p: Parameters) returns (out: sample)
      requires Ready() && selection.current == REVERSE_DELAY
      ensures ReverseDelayed(s, s, history, input, p, out)
    {
      hide Blend, Scaled, LowPass, Part, SweepPart, PhaseIncrement, Triangle, Div, Fade, Slot, ReverseDistance, Tuned;
      var window := 4096 + Part(p.amount, 12288);
      ReverseFits(delayWrite, window);
      ReverseHead(delayWrite, window);
      var phase := delayWrite % window;
      var reverse: uint32 := delayWrite + window - 1 - 2 * phase;
      var reversed := delay[reverse % FRAMES];
      var faded := Scaled(reversed, Fade(phase, window), 32768, 1);
      out := Blend(input, faded, 12288 + p.character / 4);
    }

    method HallReverb(input: sample, p: Parameters) returns (out: sample, write: mix)
      requires Ready() && selection.current == HALL_REVERB
      modifies this`s
      ensures Ready()
      ensures HallReverbed(old(s), s, history, input, p, out, write)
    {
      hide Recorded, Blend, Scaled, LowPass, Part, SweepPart, PhaseIncrement, Triangle, Div, Shape, Moved, Advance, Ago;
      var a: int, b: int := Tap(1493), Tap(4217);
      var c: int, d: int := Tap(7013), Tap(11003);
      var field: sample := Div(a + b + c + d, 4);
      s := s.(delayFilter := LowPass(field, s.delayFilter, 2200 + p.character / 8));
      var dark := s.delayFilter;
      out := Blend(input, dark, 8192 + p.character / 4);
      write := input + Scaled(dark, 15000 + p.amount / 3, 32768, 1);
    }

    method PlateReverb(input: sample, p: Parameters) returns (out: sample, write: mix)
      requires Ready() && selection.current == PLATE_REVERB
      ensures PlateReverbed(s, s, history, input, p, out, write)
    {
      hide Recorded, Blend, Scaled, LowPass, Part, SweepPart, PhaseIncrement, Triangle, Div, Shape, Moved, Advance, Ago;
      var a: int, b: int := Tap(1051), Tap(2203);
      var c: int, d: int := Tap(3469), Tap(4787);
      var diffusion := Clamp(Div(a * 3 - b * 2 + c * 2 + d, 8), PEAK);
      out := Blend(input, diffusion, 10240 + p.character / 4);
      write := input + Scaled(diffusion, 13500 + p.amount / 3, 32768, 1);
    }

    method ShimmerSpace(input: sample, p: Parameters) returns (out: sample, write: mix)
      requires Ready() && selection.current == SHIMMER_SPACE
      modifies this`s
      ensures Ready()
      ensures Shimmered(old(s), s, history, input, p, out, write)
    {
      hide Recorded, Blend, Scaled, LowPass, Part, SweepPart, PhaseIncrement, Triangle, Div, Shape, Moved, Advance, Ago;
      var at := s.whammy / 0x1_0000;
      var a: int := Tap(160 + (65535 - at) * 1400 / 65536);
      var b: int := Tap(160 + at * 1400 / 65536);
      var shifted: sample := Div(a + b, 2);
      s := s.(delayFilter := LowPass(shifted, s.delayFilter, 5000));
      var cloud := s.delayFilter;
      s := s.(whammy := Advance(s.whammy, 4194304));
      out := Blend(input, cloud, 8192 + p.character / 3);
      write := input + Scaled(cloud, 13000 + p.amount / 3, 32768, 1);
    }

    method SpringTank(input: sample, p: Parameters) returns (out: sample, write: mix)
      requires Ready() && selection.current == SPRING_TANK
      modifies this`s
      ensures Ready()
      ensures Sprung(old(s), s, history, input, p, out, write)
    {
      hide Recorded, Blend, Scaled, LowPass, Part, SweepPart, PhaseIncrement, Triangle, Div, Shape, Moved, Advance, Ago;
      var early: int, middle: int, late: int := Tap(613), Tap(1297), Tap(2381);
      var splash := Clamp(Div(early * 3 - middle * 2 + late, 4), PEAK);
      s := s.(aux := LowPass(splash, s.aux, 3200));
      var boing: int32 := (splash as int) - s.aux;
      out := Blend(input, boing, 8192 + p.character / 3);
      write := input + Scaled(boing, 10000 + p.amount / 4, 32768, 1);
    }

    // ---- One frame ----

    ghost function Kept(): Memory
      reads this`s, multi, cabinet
    {
      Memory(s, multi[..], cabinet[..])
    }

    /** The cases of the switch that leave the value for the delay line alone. */
    method Color(input: sample, p: Parameters) returns (out: sample)
      requires Ready() && !FeedsBack(selection.current)
      modifies this`s, multi, cabinet
      ensures Ready()
      ensures selection.current == PHASE_ORBIT || multi[..] == old(multi[..])
      ensures selection.current < 8 || cabinet[..] == old(cabinet[..])
      ensures if selection.current < 8 then AmpVoiced(selection.current, old(s), s, old(cabinet[..]), cabinet[..], input, p, out)
        else if selection.current == PHASE_ORBIT then PhasedOrbit(old(s), s, old(multi[..]), multi[..], input, p, out)
        else Colored(selection.current, old(s), s, history, input, p, out)
    {
      hide Recorded, Tuned, AmpVoiced, ShineDriven, WallFuzzed, RageDriven, WahCocked, StudioCompressed, OctaveFuzzed, Gated, Vibed;
      hide Tremoloed, Chorused, PhasedOrbit, Rotated, AutoWahed, WhammyFuzzed, ReverseDelayed;
      var current := selection.current;
      out := input;
      if current < 8 { out := AmpVoice(input, p, current); }
      else if current == SHINE_DRIVE { out := ShineDrive(input, p); }
      else if current == WALL_FUZZ { out := WallFuzz(input, p); }
      else if current == BREATHE_VIBE { out := BreatheVibe(input, p); }
      else if current == RAGE_DRIVE { out := RageDrive(input, p); }
      else if current == COCKED_WAH { out := CockedWah(input, p); }
      else if current == STUDIO_COMP { out := StudioComp(input, p); }
      else if current == OCTAVE_FUZZ { out := OctaveFuzz(input, p); }
      else if current == NOISE_GATE { out := NoiseGate(input, p); }
      else if current == GUERRILLA_TREM { out := GuerrillaTrem(input, p); }
      else if current == DIMENSION_CHORUS { out := DimensionChorus(input, p); }
      else if current == PHASE_ORBIT { out := PhaseOrbit(input, p); }
      else if current == ROTARY_CAB { out := RotaryCab(input, p); }
      else if current == AUTO_WAH { out := AutoWah(input, p); }
      else if current == WHAMMY_FUZZ { out := WhammyFuzz(input, p); }
      else if current == REVERSE_DELAY { out := ReverseDelay(input, p); }
    }

    /** The cases that feed something of their own back. */
    method Echo(input: sample, p: Parameters) returns (out: sample, write: mix)
      requires Ready() && Usable(p) && FeedsBack(selection.current)
      modifies this`s
      ensures Ready()
      ensures Echoed(selection.current, old(s), s, history, input, p, out, write)
    {
      hide Recorded, Tuned, Bowed, Flanged, TapeEchoed, DigitallyDelayed, AnalogDelayed, HallReverbed, PlateReverbed, Shimmered, Sprung;
      var current := selection.current;
      if current == STRING_ENSEMBLE { out, write := StringEnsemble(input, p); }
      else if current == JET_FLANGER { out, write := JetFlanger(input, p); }
      else if current == ECHOES_TAPE { out, write := EchoesTape(input, p); }
      else if current == DIGITAL_DELAY { out, write := DigitalDelay(input, p); }
      else if current == ANALOG_DELAY { out, write := AnalogDelay(input, p); }
      else if current == HALL_REVERB { out, write := HallReverb(input, p); }
      else if current == PLATE_REVERB { out, write := PlateReverb(input, p); }
      else if current == SHIMMER_SPACE { out, write := ShimmerSpace(input, p); }
      else { out, write := SpringTank(input, p); }
    }

    /** process_selected_effect: the output is what the selected effect returns,
        safe without the final clamp, and the delay line moves on by the value
        the effect writes, which is the input for every effect without feedback. */
    method ProcessSelected(input: sample, p: Parameters) returns (out: sample, ghost write: mix)
      requires Ready() && Usable(p)
      modifies this`s, this`delayWrite, this`history, multi, cabinet, delay
      ensures Ready()
      ensures Played(selection.current, old(Kept()), Kept(), old(history), input, p, out, write)
      ensures history == old(history) + [Clamp(write, PEAK)]
      ensures !FeedsBack(selection.current) ==> history == old(history) + [input]
    {
      hide Recorded, Tuned, AmpVoiced, PhasedOrbit, Colored, Echoed;
      var mixed: mix, sent: mix := input, input;
      if FeedsBack(selection.current) { mixed, sent := Echo(input, p); } else { mixed := Color(input, p); }
      var kept := Record(sent);
      out, write := Clamp(mixed, PEAK), sent;
    }

    /** The effect stage of a frame, when it is on. */
    method Render(input: sample, on: bool, p: Parameters) returns (out: sample)
      requires Ready() && Usable(p)
      modifies this`s, this`delayWrite, this`history, multi, cabinet, delay
      ensures Ready() && FRAMES <= |old(history)|
      ensures Rendered(on, true, selection.current, old(Kept()), Kept(), old(history), history, input, p, out)
    {
      hide Played, Tuned;
      out := input;
      ghost var write: mix := input;
      if on { out, write := ProcessSelected(input, p); }
    }

    /** update_effect_selection, with the state reset of a change */
    method UpdateEffectSelection(requested: uint32)
      requires Ready()
      modifies this`s, this`selection, multi, cabinet
      ensures Ready() && selection == Selected(old(selection), requested)
      ensures selection.current != old(selection).current ==> s == RESET
      ensures selection.current == old(selection).current ==> Kept() == old(Kept())
    {
      hide Recorded;
      var wanted := Wanted(requested);
      if wanted != selection.current {
        if selection.ramp > SELECTOR_STEP {
          selection := selection.(ramp := selection.ramp - SELECTOR_STEP);
        } else {
          ResetTransient();
          selection := Selection(wanted, 0);
        }
      } else if selection.ramp < ONE - SELECTOR_STEP {
        selection := selection.(ramp := selection.ramp + SELECTOR_STEP);
      } else {
        selection := selection.(ramp := ONE);
      }
    }

    /** One frame of ncr2_factory_audio_process_block. */
    method ProcessFrame(dry: int32, enabled: bool, requested: uint32, p: Parameters)
      returns (out: int32, ghost filtered: sample, ghost processed: sample)
      requires Ready() && Usable(p)
      modifies this, multi, cabinet, delay
      ensures peak == old(peak)
      ensures Ready() && selection == Selected(old(selection), requested) && effectRamp == Faded(enabled, old(effectRamp))
      ensures out == Output(filtered, processed, p.output, selection.ramp, effectRamp) && Abs(out) <= DAC_PEAK
      ensures selection.current != old(selection).current ==> out == Output(filtered, filtered, p.output, 0, effectRamp)
      ensures filtered == Clamp(dry - old(dc), PEAK)
      ensures Rendered(enabled || old(effectRamp) > 0, selection.current == old(selection).current, old(selection).current,
                       old(Kept()), Kept(), old(history), history, filtered, p, processed)
      ensures selection.current != old(selection).current ==> s == RESET
    {
      hide Recorded, Selected, Tuned, Played, Rendered, Output, Blend, Scaled, Clamp, Div, Usable;
      var input := HighpassInput(dry);
      var wet := Render(input, enabled || effectRamp != 0, p);
      ghost var kept := Kept();
      if enabled {
        if effectRamp < ONE - EFFECT_STEP { effectRamp := effectRamp + EFFECT_STEP; } else { effectRamp := ONE; }
      } else if effectRamp > EFFECT_STEP {
        effectRamp := effectRamp - EFFECT_STEP;
      } else {
        effectRamp := 0;
      }
      ChangesAtZero(selection, requested);
      UpdateEffectSelection(requested);
      StillRendered(enabled || old(effectRamp) > 0, selection.current == old(selection).current, old(selection).current,
                    old(Kept()), kept, Kept(), old(history), history, input, p, wet);
      out := Output(input, wet, p.output, selection.ramp, effectRamp);
      filtered, processed := input, wet;
      if selection.ramp == 0 { SilentAtZero(input, wet, input, p.output, effectRamp); }
    }

    /** ncr2_factory_audio_process_block: the strongest slot of each frame goes
        through the processor, with parameters made from the knobs, and out on
        every slot; the meter keeps the loudest input. */
    method ProcessBlock(input: array<int32>, output: array<int32>, frames: nat, enabled: bool, requests: seq<uint32>,
                        amount: uint32, character: uint32, level: uint32)
      requires Ready() && |requests| == frames
      requires input.Length == output.Length == SLOTS * frames && input != output
      requires (multi as object) != output && (cabinet as object) != output && (delay as object) != output
      requires (multi as object) != input && (cabinet as object) != input && (delay as object) != input
      modifies this, multi, cabinet, delay, output
      ensures Ready() && selection == After(old(selection), requests)
      ensures Spread(output[..], frames)
      ensures Metered(old(input[..]), old(peak), peak)
    {
      hide After, Ready, Usable, Rendered, Magnitude, Metered, Spread, MakeParameters, Faded, Output;
      var p := MakeParameters(ClampKnob(amount), ClampKnob(character), ClampKnob(level));
      ghost var all, before := input[..], peak;
      MeterNothing(all, before);
      SpreadNothing(output[..]);
      assert requests[..0] == [];
      NothingSelected(selection);
      for frame := 0 to frames
        invariant Ready() && selection == After(old(selection), requests[..frame])
        invariant Spread(output[..], frame)
        invariant input[..] == all && Metered(all[..SLOTS * frame], before, peak)
      {
        ghost var meter, from := peak, SLOTS * frame;
        var slots := input[SLOTS * frame..SLOTS * frame + SLOTS];
        assert slots == all[from..from + SLOTS];
        var dry := CaptureFrame(slots);
        var out, filtered, processed := ProcessFrame(dry, enabled, requests[frame], p);
        if Magnitude(dry) > peak { peak := Magnitude(dry); }
        MeterFrame(all, from, slots, before, meter, dry, peak);
        WriteFrame(output, frame, out);
        OneMore(old(selection), requests, frame);
      }
      assert requests[..frames] == requests;
      assert all[..SLOTS * frames] == all;
    }

    static method WriteFrame(output: array<int32>, frame: nat, out: int32)
      requires SLOTS * frame + SLOTS <= output.Length && Spread(output[..], frame) && Abs(out) <= DAC_PEAK
      modifies output
      ensures Spread(output[..], frame + 1)
    {
      ghost var before := output[..];
      for slot := 0 to SLOTS
        invariant forall i :: 0 <= i < SLOTS * frame ==> output[i] == before[i]
        invariant forall i :: SLOTS * frame <= i < SLOTS * frame + slot ==> output[i] == out
      {
        output[SLOTS * frame + slot] := out;
      }
      forall f | 0 <= f < frame + 1 ensures Uniform(output[..], f) {
        if f < frame { assert Uniform(before, f); }
      }
    }

    /** capture_frame: the loudest slot, the first of equals. */
    static method CaptureFrame(slots: seq<int32>) returns (selected: int32)
      requires |slots| == SLOTS
      ensures forall k :: 0 <= k < SLOTS ==> Abs(slots[k]) <= Abs(selected)
      ensures selected in slots
      ensures forall k :: 0 <= k < SLOTS && Abs(slots[k]) == Abs(selected) && slots[k] != selected ==>
        exists j :: 0 <= j < k && slots[j] == selected
    {
      selected := 0;
      ghost var at := -1;
      for slot := 0 to SLOTS
        invariant forall k :: 0 <= k < slot ==> Abs(slots[k]) <= Abs(selected)
        invariant -1 <= at < slot && (at == -1 ==> selected == 0) && (at >= 0 ==> slots[at] == selected)
        invariant forall k :: 0 <= k < at ==> Abs(slots[k]) < Abs(selected)
      {
        var magnitude: uint32 := Abs(slots[slot]);
        if magnitude > Abs(selected) {
          selected := slots[slot];
          at := slot;
        }
      }
      if at == -1 { assert slots[0] == 0; }
    }
  }

  /** One mono value on all four slots of a frame, within the DAC's range. */
  ghost predicate Uniform(output: seq<int32>, f: nat) {
    && SLOTS * f + SLOTS <= |output|
    && output[SLOTS * f] == output[SLOTS * f + 1] == output[SLOTS * f + 2] == output[SLOTS * f + 3]
    && Abs(output[SLOTS * f]) <= DAC_PEAK
  }

  ghost predicate Spread(output: seq<int32>, frames: nat) { forall f :: 0 <= f < frames ==> Uniform(output, f) }

  /** A magnitude as an int32: the least one saturates. */
  function Magnitude(x: int32): int32 { if x == -0x8000_0000 then 0x7FFF_FFFF else Abs(x) }

  /** A meter that went from `before` to `after` over these inputs. */
  ghost predicate Metered(inputs: seq<int32>, before: int32, after: int32) {
    && before <= after && (forall i :: 0 <= i < |inputs| ==> Magnitude(inputs[i]) <= after)
    && (after == before || exists i :: 0 <= i < |inputs| && Magnitude(inputs[i]) == after)
  }

  lemma MeterNothing(inputs: seq<int32>, before: int32)
    ensures Metered(inputs[..0], before, before)
  {}

  lemma SpreadNothing(output: seq<int32>)
    ensures Spread(output, 0)
  {}

  lemma MeterFrame(inputs: seq<int32>, n: nat, slots: seq<int32>, before: int32, middle: int32, dry: int32, after: int32)
    requires n + SLOTS <= |inputs| && Metered(inputs[..n], before, middle)
    requires slots == inputs[n..n + SLOTS] && dry in slots
    requires forall k :: 0 <= k < SLOTS ==> Abs(slots[k]) <= Abs(dry)
    requires after == if Magnitude(dry) > middle then Magnitude(dry) else middle
    ensures Metered(inputs[..n + SLOTS], before, after)
  {
    var earlier, all := inputs[..n], inputs[..n + SLOTS];
    forall i | 0 <= i < |all| ensures Magnitude(all[i]) <= after {
      if i >= n { assert Abs(slots[i - n]) <= Abs(dry); } else { assert all[i] == earlier[i]; }
    }
    if after != middle {
      var k :| 0 <= k < SLOTS && slots[k] == dry;
      assert Magnitude(all[n + k]) == after;
    } else if after != before {
      var i :| 0 <= i < n && Magnitude(earlier[i]) == after;
      assert Magnitude(all[i]) == after;
    }
  }

  lemma NothingSelected(s: Selection)
    ensures After(s, []) == s
  {}

  lemma OneMore(s: Selection, requests: seq<uint32>, k: nat)
    requires k < |requests|
    ensures After(s, requests[..k + 1]) == Selected(After(s, requests[..k]), requests[k])
  {
    assert requests[..k + 1][..k] == requests[..k];
  }

  function Least(a: nat, b: nat): nat { if a > b then b else a }

  function Compressed(input: sample, gain: weight, makeup: nat): (r: int)
    requires makeup <= 98304
    ensures input >= 0 ==> r >= 0
    ensures input <= 0 ==> r <= 0
  {
    ProductMonotone(gain, ONE, makeup);
    ProductBound(input, gain * makeup, ONE * 98304);
    ProductMonotone(Abs(input), PEAK, ONE * 98304);
    var product: int64 := input * (gain * makeup);
    Div(product, 0x4000_0000)
  }

  /** Triangle and square of the tremolo, mixed. */
  function Waveform(triangle: nat, square: nat, w: weight): (r: nat)
    requires triangle <= 65535 && square <= 65535
    ensures r <= 65535
  {
    MixedBound(triangle, ONE - w, square, w);
    (triangle * (ONE - w) + square * w) / ONE
  }

  lemma MixedBound(a: nat, v: nat, b: nat, w: nat)
    requires a <= 65535 && b <= 65535 && v + w == ONE
    ensures 0 <= (a * v + b * w) / ONE <= 65535
  {
    ProductMonotone(0, a, v);
    ProductMonotone(0, b, w);
    ProductMonotone(a, 65535, v);
    ProductMonotone(b, 65535, w);
    var x, y := a * v, b * w;
    assert 0 <= x <= 65535 * v && 0 <= y <= 65535 * w;
    QuotientBound(x + y, 65535, ONE);
  }

  /** The reverse head stays in unsigned 32 bits. */
  lemma ReverseFits(write: nat, window: nat)
    requires window > 0
    ensures 0 <= write % window < window && write % window <= write
    ensures 2 * (write % window) <= write + window - 1
  {
    if write < window { assert write % window == write; }
  }

  /** It is a tap, half the time of what the line kept from its last time round. */
  lemma ReverseHead(write: nat, window: nat)
    requires write < FRAMES && 0 < window <= 16384
    ensures (write + window - 1 - 2 * (write % window)) % FRAMES == Slot(write, ReverseDistance(write % window, window))
  {
    ReverseFits(write, window);
    TurnsRound(write + window - 1 - 2 * (write % window));
  }

  lemma TurnsRound(x: int)
    ensures (x - FRAMES) % FRAMES == x % FRAMES
  {}

  function Fade(phase: nat, window: nat): weight
    requires phase < window
  {
    var edge := if phase < window / 2 then phase else window - phase;
    if edge < 256 then edge * 128 else ONE
  }

  lemma GainBound(x: sample, gain: nat)
    requires gain <= 40000
    ensures Abs(x * gain) <= PEAK * 40000
  {
    ProductBound(x, gain, 40000);
    ProductMonotone(Abs(x), PEAK, 40000);
  }

  lemma FlutterBound(t: int, k: nat)
    requires -32768 <= t <= 32767 && k <= 19
    ensures Abs(Div(t * k, 32768)) <= 19
  {
    ProductBound(t, k, 19);
    ProductMonotone(Abs(t), 32768, 19);
    QuotientBound(Abs(t) * k, 19, 32768);
  }

  /** The triangular crossfade of one whammy head. */
  function Window(position: nat): nat
    requires position <= 65535
  {
    if position < 32768 then position * 2 else (65535 - position) * 2
  }

  /** The two heads, half a turn apart, always weigh 65534 together. */
  lemma WindowsAddUp(phase: uint32)
    ensures phase / 0x1_0000 <= 65535 && Advance(phase, 0x8000_0000) / 0x1_0000 <= 65535
    ensures Window(phase / 0x1_0000) + Window(Advance(phase, 0x8000_0000) / 0x1_0000) == 65534
  {}

  function Weighted(a: sample, wa: nat, b: sample, wb: nat): (r: sample)
    requires wa + wb == 65534
  {
    PeakBound(a, wa);
    PeakBound(b, wb);
    WeightedBound(a, wa, b, wb);
    Div(a * wa + b * wb, wa + wb)
  }

  lemma WeightedBound(a: sample, wa: nat, b: sample, wb: nat)
    requires wa + wb == 65534
    ensures -PEAK <= Div(a * wa + b * wb, wa + wb) <= PEAK
  {
    PeakBound(a, wa);
    PeakBound(b, wb);
    assert PEAK * wa + PEAK * wb == PEAK * 65534;
    var m := a * wa + b * wb;
    QuotientBound(Abs(m), PEAK, 65534);
  }

  lemma TapIndex(write: nat, d: distance)
    requires write < FRAMES
    ensures Wrap32(write - d) % FRAMES == Slot(write, d)
  {}

  lemma WriteMovesOn(n: nat)
    ensures (n % FRAMES + 1) % FRAMES == (n + 1) % FRAMES
  {}
}
