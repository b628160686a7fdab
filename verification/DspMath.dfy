/** The fixed-point helpers of main.c: truncating division, clamping, one-pole
    filters, blends and the drive curve. */
module DspMath {
  import opened Words

  const PEAK: int := 0x1000_0000          // NCR2_SAFE_OUTPUT_PEAK
  const DAC_PEAK: int := 0x2000_0000      // NCR2_DAC_OUTPUT_PEAK
  const ONE: int := 32768                 // NCR2_PARAMETER_Q15_ONE
  const DRIVE_ONE: int := 4096            // NCR2_DRIVE_Q12_ONE
  const KNOB_MAX: int := 4095
  const WIDE: int := 0x100_0000_0000      // well inside 64 bits after a Q20 factor

  type int64 = x: int | -0x8000_0000_0000_0000 <= x < 0x8000_0000_0000_0000
  type sample = x: int | -PEAK <= x <= PEAK
  type weight = x: int | 0 <= x <= ONE
  type knob = x: int | 0 <= x <= KNOB_MAX
  type drive = x: int | 0 <= x <= 0x8_0000

  function Abs(x: int): nat { if x < 0 then -x else x }

  /** C's integer division. */
  function Div(x: int, d: int): (q: int)
    requires d > 0
    ensures x >= 0 ==> 0 <= q <= x && q == x / d
    ensures x <= 0 ==> x <= q <= 0 && -q == -x / d
  {
    Shrinks(if x >= 0 then x else -x, d);
    if x >= 0 then x / d else -(-x / d)
  }

  lemma Shrinks(x: nat, d: int)
    requires d > 0
    ensures 0 <= x / d <= x
  {
    if x < x / d { Grows(x / d, d); }
  }

  lemma Grows(q: nat, d: int)
    requires d > 0
    ensures q <= q * d
  {}

  /** clamp_symmetric */
  function Clamp(value: int, limit: int): (r: int)
    requires limit >= 0
    ensures -limit <= r <= limit
    ensures -limit <= value <= limit ==> r == value
    ensures value >= 0 ==> r >= 0
    ensures value <= 0 ==> r <= 0
  {
    if value > limit then limit else if value < -limit then -limit else value
  }

  lemma QuotientBound(a: nat, b: nat, c: int)
    requires c > 0 && a <= b * c
    ensures a / c <= b
  {
    if a / c > b { ProductMonotone(b + 1, a / c, c); }
  }

  lemma ProductMonotone(a: nat, b: nat, c: nat)
    requires a <= b
    ensures a * c <= b * c
  {}

  lemma ProductBound(x: int, w: nat, k: nat)
    requires w <= k
    ensures Abs(x * w) == Abs(x) * w <= Abs(x) * k
    ensures x >= 0 ==> x * w >= 0
    ensures x <= 0 ==> x * w <= 0
  {}

  /** x * w / one for a factor of at most k, sign kept. */
  function Scaled(x: int, w: nat, one: int, k: nat): (r: int)
    requires one > 0 && w <= k * one && w <= 0x10_0000 && Abs(x) <= WIDE
    ensures Abs(r) <= Abs(x) * k
    ensures x >= 0 ==> r >= 0
    ensures x <= 0 ==> r <= 0
  {
    ProductBound(x, w, k * one);
    ProductBound(x, w, 0x10_0000);
    ProductMonotone(Abs(x), WIDE, 0x10_0000);
    Regroup(Abs(x), k, one);
    QuotientBound(Abs(x) * w, Abs(x) * k, one);
    var product: int64 := x * w;
    Div(product, one)
  }

  lemma Regroup(a: nat, k: nat, one: nat)
    ensures a * (k * one) == a * k * one
  {}

  /** The share x of a range, in unsigned 32-bit arithmetic. */
  function Part(x: weight, range: nat): (r: nat)
    requires range <= 0x1_FFFF
    ensures r <= range
  {
    ProductMonotone(x, ONE, range);
    QuotientBound(x * range, range, ONE);
    var product: uint32 := x * range;
    product / ONE
  }

  /** Truncating division is off by less than one, toward zero. */
  lemma DivIsNearest(x: int, d: int)
    requires d > 0
    ensures Abs(Div(x, d)) * d <= Abs(x) < (Abs(Div(x, d)) + 1) * d
    ensures Abs(Div(x, d) * d - x) < d
  {
    var m := Abs(x);
    assert m == m / d * d + m % d;
    assert (m / d + 1) * d == m / d * d + d;
    if x < 0 { assert -(m / d) * d == -(m / d * d); }
  }

  /** A scaled value is the exact product over one, rounded toward zero. */
  lemma ScaledIsTheProduct(x: int, w: nat, one: int, k: nat)
    requires one > 0 && w <= k * one && w <= 0x10_0000 && Abs(x) <= WIDE
    ensures Abs(Scaled(x, w, one, k) * one - x * w) < one
    ensures Abs(Scaled(x, w, one, k)) * one <= Abs(x) * w
  {
    DivIsNearest(x * w, one);
    ProductBound(x, w, w);
  }

  /** The same for a raw knob reading. */
  function KnobPart(x: knob, range: nat): (r: nat)
    requires range <= 0x10_0000
    ensures r <= range
  {
    ProductMonotone(x, KNOB_MAX, range);
    QuotientBound(x * range, range, KNOB_MAX);
    var product: uint32 := x * range;
    product / KNOB_MAX
  }

  /** The same for an oscillator position. */
  function SweepPart(x: nat, range: nat): (r: nat)
    requires x <= 65535 && range <= 65535
    ensures r <= range
  {
    ProductMonotone(x, 65535, range);
    QuotientBound(x * range, range, 65535);
    var product: uint32 := x * range;
    product / 65535
  }

  /** Each share is the exact one rounded down: nothing at the bottom of its
      range, everything at the top. */
  lemma SharesAreExact(x: weight, y: knob, z: nat, range: nat)
    requires z <= 65535 && range <= 65535
    ensures Part(x, range) * ONE <= x * range < (Part(x, range) + 1) * ONE
    ensures KnobPart(y, range) * KNOB_MAX <= y * range < (KnobPart(y, range) + 1) * KNOB_MAX
    ensures SweepPart(z, range) * 65535 <= z * range < (SweepPart(z, range) + 1) * 65535
    ensures Part(0, range) == KnobPart(0, range) == SweepPart(0, range) == 0
    ensures Part(ONE, range) == KnobPart(KNOB_MAX, range) == SweepPart(65535, range) == range
  {
    DivIsNearest(x * range, ONE);
    DivIsNearest(y * range, KNOB_MAX);
    DivIsNearest(z * range, 65535);
  }

  /** triangle_q15 */
  function Triangle(phase: uint32): (t: int)
    ensures -32768 <= t <= 32767
  {
    var saw := phase / 0x1_0000;
    if saw < 32768 then saw * 2 - 32768 else 98303 - saw * 2
  }

  /** The two halves of a turn mirror each other, and a half rises by two for
      every step of the upper phase bits. */
  lemma TriangleTurns(phase: uint32)
    ensures Triangle(phase) + Triangle(Wrap32(phase + 0x8000_0000)) == -1
    ensures phase < 0x7FFF_0000 ==> Triangle(phase + 0x1_0000) == Triangle(phase) + 2
    ensures Triangle(0) == -32768
  {}

  /** phase_increment */
  function PhaseIncrement(millihertz: nat): uint32
    requires millihertz <= 0x10_0000
  {
    millihertz * 0x1_0000_0000 / 48_000_000
  }

  /** An increment turns the phase at the asked rate, at 48000 frames a second. */
  lemma IncrementIsTheRate(millihertz: nat)
    requires millihertz <= 0x10_0000
    ensures var i := PhaseIncrement(millihertz);
      i * 48_000_000 <= millihertz * 0x1_0000_0000 < (i + 1) * 48_000_000
  {}

  // ---- Crossfades and filters ----

  /** One step of a one-pole filter, before any clamping. */
  function Moved(input: int, state: int, alpha: weight): (next: int)
    requires Abs(input) <= 0x4_0000_0000 && Abs(state) <= 0x4_0000_0000
    ensures input <= state ==> input <= next <= state
    ensures state <= input ==> state <= next <= input
  {
    state + Scaled(input - state, alpha, ONE, 1)
  }

  /** One step of a filter goes the share alpha of the way to its input. */
  lemma FilterMovesByTheShare(input: int, state: int, alpha: weight)
    requires Abs(input) <= 0x4_0000_0000 && Abs(state) <= 0x4_0000_0000
    ensures Abs((Moved(input, state, alpha) - state) * ONE - (input - state) * alpha) < ONE
    ensures Abs(input) <= 4 * PEAK && Abs(state) <= 4 * PEAK ==> LowPass(input, state, alpha) == Moved(input, state, alpha)
  {
    ScaledIsTheProduct(input - state, alpha, ONE, 1);
  }

  /** lowpass_sample: inside its limit the filter never leaves the interval
      between its state and its input. */
  function LowPass(input: int, state: int, alpha: weight): (next: int)
    requires Abs(input) <= 4 * PEAK && Abs(state) <= 4 * PEAK
    ensures input <= state ==> input <= next <= state
    ensures state <= input ==> state <= next <= input
  {
    Clamp(Moved(input, state, alpha), 4 * PEAK)
  }

  /** blend_samples_q15 */
  function Blend(dry: int32, wet: int32, w: weight): (r: sample)
    ensures w == 0 ==> r == Clamp(dry, PEAK)
    ensures w == ONE ==> r == Clamp(wet, PEAK)
  {
    MixBound(dry, wet, w);
    var mixed: int64 := dry * (ONE - w) + wet * w;
    Clamp(Div(mixed, ONE), PEAK)
  }

  lemma MixBound(dry: int32, wet: int32, w: weight)
    ensures -0x8000_0000 * ONE <= dry * (ONE - w) + wet * w <= 0x7FFF_FFFF * ONE
  {
    FactorBound(dry, ONE - w);
    FactorBound(wet, w);
  }

  lemma FactorBound(x: int32, w: nat)
    ensures -0x8000_0000 * w <= x * w <= 0x7FFF_FFFF * w
  {}

  lemma MixBetween(a: sample, b: sample, w: weight)
    requires a <= b
    ensures a * ONE <= a * (ONE - w) + b * w <= b * ONE
  {
    ProductMonotone(0, b - a, w);
    ProductMonotone(0, b - a, ONE - w);
    assert (b - a) * w == b * w - a * w;
    assert (b - a) * (ONE - w) == b * (ONE - w) - a * (ONE - w);
    assert a * (ONE - w) == a * ONE - a * w && b * (ONE - w) == b * ONE - b * w;
  }

  lemma TruncatedBetween(a: int, m: int, b: int)
    requires a * ONE <= m <= b * ONE
    ensures a <= Div(m, ONE) <= b
  {}

  /** A blend of two safe samples lies between them. */
  lemma BlendIsBetween(dry: sample, wet: sample, w: weight)
    ensures dry <= wet ==> dry <= Blend(dry, wet, w) <= wet
    ensures wet <= dry ==> wet <= Blend(dry, wet, w) <= dry
  {
    var m := dry * (ONE - w) + wet * w;
    if dry <= wet {
      MixBetween(dry, wet, w);
      TruncatedBetween(dry, m, wet);
    } else {
      MixBetween(wet, dry, ONE - w);
      assert wet * (ONE - (ONE - w)) + dry * (ONE - w) == m;
      TruncatedBetween(wet, m, dry);
    }
  }

  /** A blend is the exact mix, rounded toward zero by less than one step. */
  lemma BlendIsTheMix(dry: sample, wet: sample, w: weight)
    ensures var m, r := dry * (ONE - w) + wet * w, Blend(dry, wet, w);
      && Abs(r * ONE - m) < ONE && Abs(r) * ONE <= Abs(m)
  {
    SameSignMix(dry, wet, w);
  }

  // ---- The drive curve ----

  /** x / (1 + |x|) in units of the safe peak. */
  function Soft(driven: int): (r: sample)
    requires Abs(driven) <= 8 * PEAK
    ensures driven >= 0 ==> 0 <= r <= driven
    ensures driven <= 0 ==> driven <= r <= 0
  {
    var magnitude := Abs(driven);
    SoftBound(magnitude);
    ProductBound(driven, PEAK, PEAK);
    var product: int64 := driven * PEAK;
    Div(product, PEAK + magnitude)
  }

  /** The knee is the exact one rounded toward zero. */
  lemma SoftIsTheKnee(driven: int)
    requires Abs(driven) <= 8 * PEAK
    ensures Abs(Soft(driven) * (PEAK + Abs(driven)) - driven * PEAK) < PEAK + Abs(driven)
  {
    DivIsNearest(driven * PEAK, PEAK + Abs(driven));
  }

  lemma SoftBound(m: nat)
    requires m <= 8 * PEAK
    ensures m * PEAK / (PEAK + m) <= PEAK && m * PEAK / (PEAK + m) <= m
  {
    ProductMonotone(m, PEAK + m, PEAK);
    ProductMonotone(PEAK, PEAK + m, m);
    Commutes(m, PEAK);
    Commutes(PEAK, PEAK + m);
    Commutes(m, PEAK + m);
    QuotientBound(m * PEAK, PEAK, PEAK + m);
    QuotientBound(m * PEAK, m, PEAK + m);
  }

  lemma Commutes(a: int, b: int)
    ensures a * b == b * a
  {}

  /** What shape_drive feeds its tone filter: odd about zero, and never louder
      than the safe peak. */
  function Shape(input: int32, amount: drive, character: weight): (r: sample)
    requires Abs(input) <= 4 * PEAK
    ensures input >= 0 ==> r >= 0
    ensures input <= 0 ==> r <= 0
  {
    var driven := Clamp(Scaled(input, amount, DRIVE_ONE, 128), 8 * PEAK);
    var soft, hard := Soft(driven), Clamp(driven, PEAK);
    SameSignMix(soft, hard, character);
    var mixed: int64 := soft * (ONE - character) + hard * character;
    Div(mixed, ONE)
  }

  /** The drive curve mixes the soft knee with the hard clip of the driven input. */
  lemma ShapeIsTheMix(input: int, amount: drive, character: weight)
    requires Abs(input) <= 4 * PEAK
    ensures var driven := Clamp(Scaled(input, amount, DRIVE_ONE, 128), 8 * PEAK);
      Abs(Shape(input, amount, character) * ONE - (Soft(driven) * (ONE - character) + Clamp(driven, PEAK) * character)) < ONE
  {
    hide Soft, Scaled;
    var driven := Clamp(Scaled(input, amount, DRIVE_ONE, 128), 8 * PEAK);
    DivIsNearest(Soft(driven) * (ONE - character) + Clamp(driven, PEAK) * character, ONE);
  }

  lemma SameSignMix(soft: sample, hard: sample, w: weight)
    ensures -PEAK * ONE <= soft * (ONE - w) + hard * w <= PEAK * ONE
    ensures soft >= 0 && hard >= 0 ==> soft * (ONE - w) + hard * w >= 0
    ensures soft <= 0 && hard <= 0 ==> soft * (ONE - w) + hard * w <= 0
    ensures -PEAK <= Div(soft * (ONE - w) + hard * w, ONE) <= PEAK
  {
    PeakBound(soft, ONE - w);
    PeakBound(hard, w);
    var m := soft * (ONE - w) + hard * w;
    TruncatedBetween(-PEAK, m, PEAK);
  }

  lemma PeakBound(x: sample, w: nat)
    ensures -PEAK * w <= x * w <= PEAK * w
    ensures x >= 0 ==> x * w >= 0
    ensures x <= 0 ==> x * w <= 0
  {
    ProductMonotone(Abs(x), PEAK, w);
    ProductBound(x, w, w);
    assert -PEAK * w == -(PEAK * w);
  }
}
