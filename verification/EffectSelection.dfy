/** Program changes in main.c: the selector ramp, the output stage, and the Type
    knob behind the requests. */
module EffectSelection {
  import opened Words
  import opened DspMath

  const EFFECTS: int := 32
  const SELECTOR_STEP: int := 128
  const EFFECT_STEP: int := 64
  /** Frames a full crossfade takes in one direction. */
  const HALF: nat := 256

  /** g_current_effect and g_selector_ramp */
  datatype Selection = Selection(current: nat, ramp: weight)

  function Wanted(requested: uint32): nat { if requested >= EFFECTS then EFFECTS - 1 else requested }

  /** update_effect_selection */
  function Selected(s: Selection, requested: uint32): Selection {
    if Wanted(requested) != s.current then
      if s.ramp > SELECTOR_STEP then s.(ramp := s.ramp - SELECTOR_STEP) else Selection(Wanted(requested), 0)
    else if s.ramp < ONE - SELECTOR_STEP then s.(ramp := s.ramp + SELECTOR_STEP)
    else s.(ramp := ONE)
  }

  /** The effect on/off ramp of the frame loop. */
  function Faded(enabled: bool, ramp: weight): weight {
    if enabled then (if ramp < ONE - EFFECT_STEP then ramp + EFFECT_STEP else ONE)
    else if ramp > EFFECT_STEP then ramp - EFFECT_STEP else 0
  }

  /** apply_effect_output */
  function Output(dry: sample, processed: sample, level: nat, selectorRamp: weight, effectRamp: weight): (r: int32)
    requires level <= 2 * ONE
    ensures Abs(r) <= 2 * Abs(Blend(dry, processed, selectorRamp)) <= DAC_PEAK
    ensures effectRamp == 0 ==> r == 0
  {
    var leveled := Scaled(Blend(dry, processed, selectorRamp), level, ONE, 2);
    Clamp(Scaled(leveled, effectRamp, ONE, 1), DAC_PEAK)
  }

  /** The loudest output the DAC sees is the one it is trimmed for: the clamp of
      the output stage never has anything to cut. */
  lemma OutputNeverClips(dry: sample, processed: sample, level: nat, selectorRamp: weight, effectRamp: weight)
    requires level <= 2 * ONE
    ensures Output(dry, processed, level, selectorRamp, effectRamp)
         == Scaled(Scaled(Blend(dry, processed, selectorRamp), level, ONE, 2), effectRamp, ONE, 1)
  {}

  /** At zero selector ramp nothing of the processed signal is left. */
  lemma SilentAtZero(dry: sample, processed: sample, other: sample, level: nat, effectRamp: weight)
    requires level <= 2 * ONE
    ensures Output(dry, processed, level, 0, effectRamp) == Output(dry, other, level, 0, effectRamp)
  {}

  /** One frame: the effect changes only at zero ramp, and the ramp moves by at
      most one step. */
  lemma ChangesAtZero(s: Selection, requested: uint32)
    ensures var t := Selected(s, requested);
      && (t.current != s.current ==> t.ramp == 0 && t.current == Wanted(requested))
      && Abs(t.ramp - s.ramp) <= SELECTOR_STEP
  {}

  /** Frames until a steady request is at full level. */
  function ToGo(s: Selection, requested: uint32): nat {
    if Wanted(requested) == s.current then (ONE - s.ramp + SELECTOR_STEP - 1) / SELECTOR_STEP
    else (if s.ramp <= SELECTOR_STEP then 1 else (s.ramp + SELECTOR_STEP - 1) / SELECTOR_STEP) + HALF
  }

  lemma ToGoFalls(s: Selection, requested: uint32)
    ensures var t := Selected(s, requested);
      ToGo(t, requested) == if ToGo(s, requested) > 0 then ToGo(s, requested) - 1 else 0
    ensures ToGo(s, requested) <= 2 * HALF
    ensures ToGo(s, requested) == 0 <==> s == Selection(Wanted(requested), ONE)
  {}

  function After(s: Selection, requests: seq<uint32>): Selection {
    if requests == [] then s else Selected(After(s, requests[..|requests| - 1]), requests[|requests| - 1])
  }

  lemma {:induction false} SteadyRequestFalls(s: Selection, requests: seq<uint32>, requested: uint32)
    requires forall k :: 0 <= k < |requests| ==> requests[k] == requested
    ensures ToGo(After(s, requests), requested) <= if |requests| <= ToGo(s, requested) then ToGo(s, requested) - |requests| else 0
  {
    var n := |requests|;
    if n > 0 {
      var before := requests[..n - 1];
      forall k | 0 <= k < |before| ensures before[k] == requested { assert requests[k] == requested; }
      SteadyRequestFalls(s, before, requested);
      ToGoFalls(After(s, before), requested);
    }
  }

  /** From any state, a request held for 512 frames is selected at full level. */
  lemma SteadyRequestArrives(s: Selection, requests: seq<uint32>, requested: uint32)
    requires forall k :: 0 <= k < |requests| ==> requests[k] == requested
    requires |requests| >= 2 * HALF
    ensures After(s, requests) == Selection(Wanted(requested), ONE)
  {
    SteadyRequestFalls(s, requests, requested);
    ToGoFalls(s, requested);
    ToGoFalls(After(s, requests), requested);
  }

  /** Click-free: over any sequence of requests, in every frame in which the
      effect changes the output does not depend on what either effect made of the
      input, and between frames the mix moves by at most 1/256. */
  lemma {:induction false} ChangesAreClickFree(s: Selection, requests: seq<uint32>, k: nat)
    requires k < |requests|
    ensures var before, after := After(s, requests[..k]), After(s, requests[..k + 1]);
      && Abs(after.ramp - before.ramp) <= ONE / HALF
      && (after.current != before.current ==>
            forall dry: sample, one: sample, other: sample, level: nat, fade: weight | level <= 2 * ONE ::
              Output(dry, one, level, after.ramp, fade) == Output(dry, other, level, after.ramp, fade))
  {
    var before := After(s, requests[..k]);
    assert requests[..k + 1][..k] == requests[..k];
    ChangesAtZero(before, requests[k]);
    forall dry: sample, one: sample, other: sample, level: nat, fade: weight | level <= 2 * ONE
      ensures Output(dry, one, level, 0, fade) == Output(dry, other, level, 0, fade)
    {
      SilentAtZero(dry, one, other, level, fade);
    }
  }

  // ---- The Type knob ----

  const DETENTS: seq<int> := [3581, 3071, 2560, 2049, 1538, 1028, 516, 2]
  const SETTLE_SAMPLES: nat := 3
  const HYSTERESIS: nat := 128

  type position = x: int | 0 <= x < 8

  /** selector_distance */
  function Off(reading: nat, at: position): nat { Abs(reading - DETENTS[at]) }

  /** quantize_selector: the first of the nearest detents. */
  method Quantize(reading: nat) returns (best: position)
    ensures forall k: position :: Off(reading, best) <= Off(reading, k)
    ensures forall k: position :: k < best ==> Off(reading, best) < Off(reading, k)
  {
    best := 0;
    for effect := 1 to 8
      invariant best < effect
      invariant forall k: position :: k < effect ==> Off(reading, best) <= Off(reading, k)
      invariant forall k: position :: k < best ==> Off(reading, best) < Off(reading, k)
    {
      if Off(reading, effect) < Off(reading, best) { best := effect; }
    }
  }

  /** Clearly nearer another detent than the one in use. */
  predicate Beyond(reading: nat, other: position, current: position) {
    other != current && Off(reading, other) + HYSTERESIS <= Off(reading, current)
  }

  class TypeKnob {
    var candidate: position
    var samples: nat

    predicate Valid()
      reads this
    {
      samples < SETTLE_SAMPLES
    }

    constructor (start: position)
      ensures Valid() && candidate == start && samples == 0
    {
      candidate, samples := start, 0;
    }

    /** update_selector: the position moves only to a detent the reading is nearest
        to by a clear margin, and only on the third such reading in a row. */
    method Update(reading: nat, current: position) returns (result: position)
      requires Valid()
      modifies this
      ensures Valid()
      ensures result != current ==>
        && Beyond(reading, result, current) && (forall k: position :: Off(reading, result) <= Off(reading, k))
        && old(candidate) == result && old(samples) == SETTLE_SAMPLES - 1 && samples == 0
      ensures samples > 0 ==>
        && Beyond(reading, candidate, current)
        && samples == if candidate == old(candidate) then old(samples) + 1 else 1
      ensures (forall k: position :: !Beyond(reading, k, current)) ==> result == current && samples == 0
    {
      var selected := Quantize(reading);
      if selected == current || Off(reading, selected) + HYSTERESIS > Off(reading, current) {
        candidate, samples := current, 0;
        return current;
      }
      assert Beyond(reading, selected, current);
      if selected != candidate {
        candidate, samples := selected, 1;
        return current;
      }
      if samples < SETTLE_SAMPLES { samples := samples + 1; }
      if samples >= SETTLE_SAMPLES {
        candidate, samples := selected, 0;
        return selected;
      }
      return current;
    }
  }

  /** Resting noise cannot move the knob: a reading within 318 counts of the
      detent in use is beyond no other. */
  lemma NoiseStaysPut(reading: nat, current: position)
    requires Off(reading, current) <= 318
    ensures forall k: position :: !Beyond(reading, k, current)
  {
    forall k: position ensures !Beyond(reading, k, current) {
      if k != current { DetentsApart(k, current); }
    }
  }

  lemma DetentsApart(a: position, b: position)
    requires a != b
    ensures Abs(DETENTS[a] - DETENTS[b]) >= 510
  {
    assert DETENTS[0] == 3581 && DETENTS[1] == 3071 && DETENTS[2] == 2560 && DETENTS[3] == 2049;
    assert DETENTS[4] == 1538 && DETENTS[5] == 1028 && DETENTS[6] == 516 && DETENTS[7] == 2;
  }
}
