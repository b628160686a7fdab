/** What the delay line of the digital delay holds over whole runs of frames:
    evenly spaced repeats, each quieter than the one before, and silence in the
    end, whatever was played. */
module Echo {
  import opened DspMath
  import opened Dsp

  /** The delay line after these inputs have passed through the digital delay. */
  function Line(h: seq<sample>, inputs: seq<sample>, p: Parameters): (r: seq<sample>)
    requires FRAMES <= |h|
    ensures |r| == |h| + |inputs| && r[..|h|] == h
  {
    if inputs == [] then h
    else
      var n := |inputs| - 1;
      var before := Line(h, inputs[..n], p);
      before + [Clamp(FedBack(inputs[n], Ago(before, RepeatTime(p)), RepeatGain(p)), PEAK)]
  }

  /** One frame with the digital delay selected moves the line on by one input. */
  lemma OneFrame(u: Memory, v: Memory, h: seq<sample>, inputs: seq<sample>, input: sample, p: Parameters, out: int, write: int)
    requires FRAMES <= |h| && Usable(p)
    requires Played(DIGITAL_DELAY, u, v, Line(h, inputs, p), input, p, out, write)
    ensures Line(h, inputs, p) + [Clamp(write, PEAK)] == Line(h, inputs + [input], p)
    ensures out == Blend(input, Ago(Line(h, inputs, p), RepeatTime(p)), 12288)
  {
    assert (inputs + [input])[..|inputs|] == inputs;
  }

  lemma LineGrows(h: seq<sample>, inputs: seq<sample>, p: Parameters, n: nat)
    requires FRAMES <= |h| && n < |inputs|
    ensures Line(h, inputs[..n + 1], p)
         == Line(h, inputs[..n], p) + [Clamp(FedBack(inputs[n], Ago(Line(h, inputs[..n], p), RepeatTime(p)), RepeatGain(p)), PEAK)]
  {
    assert inputs[..n + 1][..n] == inputs[..n];
  }

  /** Every later line keeps what an earlier one held. */
  lemma {:induction false} LineKeeps(h: seq<sample>, inputs: seq<sample>, p: Parameters, n: nat)
    requires FRAMES <= |h| && n <= |inputs|
    ensures Line(h, inputs, p)[..|h| + n] == Line(h, inputs[..n], p)
    decreases |inputs|
  {
    assert inputs[..|inputs|] == inputs;
    if n < |inputs| {
      var k := |inputs| - 1;
      LineKeeps(h, inputs[..k], p, n);
      assert inputs[..k][..n] == inputs[..n];
    }
  }

  /** What frame n writes, in terms of what frame n - d wrote. */
  lemma WrittenAt(h: seq<sample>, inputs: seq<sample>, p: Parameters, n: nat)
    requires FRAMES <= |h| && n < |inputs|
    ensures var r := Line(h, inputs, p);
      r[|h| + n] == Clamp(FedBack(inputs[n], r[|h| + n - RepeatTime(p)], RepeatGain(p)), PEAK)
  {
    hide Line, FedBack, RepeatTime, RepeatGain;
    LineGrows(h, inputs, p, n);
    LineKeeps(h, inputs, p, n);
    LineKeeps(h, inputs, p, n + 1);
    var r, before, after := Line(h, inputs, p), Line(h, inputs[..n], p), Line(h, inputs[..n + 1], p);
    var d := RepeatTime(p);
    PrefixAt(r, after, |h| + n);
    PrefixAt(r, before, |h| + n - d);
  }

  lemma PrefixAt(r: seq<sample>, prefix: seq<sample>, k: nat)
    requires k < |prefix| <= |r| && r[..|prefix|] == prefix
    ensures r[k] == prefix[k]
  {
    assert r[k] == r[..|prefix|][k];
  }

  // ---- One sound and then silence ----

  /** A value after so many repeats. */
  function Faded(x: sample, gain: weight, repeats: nat): sample {
    if repeats == 0 then x else Scaled(Faded(x, gain, repeats - 1), gain, ONE, 1)
  }

  ghost predicate Silent(inputs: seq<sample>, from: nat) { forall k :: from <= k < |inputs| ==> inputs[k] == 0 }

  /** The echo of one sound into an empty line comes back every RepeatTime
      frames, turned down once more each time, and nothing else is ever there. */
  lemma {:induction false} EchoOfOneSound(h: seq<sample>, inputs: seq<sample>, p: Parameters, n: nat)
    requires FRAMES <= |h| && (forall k :: 0 <= k < |h| ==> h[k] == 0)
    requires n < |inputs| && Silent(inputs, 1)
    ensures Line(h, inputs, p)[|h| + n]
         == if n % RepeatTime(p) == 0 then Faded(inputs[0], RepeatGain(p), n / RepeatTime(p)) else 0
    decreases n
  {
    hide Line, FedBack, RepeatTime, RepeatGain, Faded;
    var d, r := RepeatTime(p), Line(h, inputs, p);
    WrittenAt(h, inputs, p, n);
    if n < d {
      assert r[|h| + n - d] == r[..|h|][|h| + n - d] == 0;
      OneQuotient(n, 0, n, d);
      FirstTurn(inputs[n], RepeatGain(p));
    } else {
      EchoOfOneSound(h, inputs, p, n - d);
      OneTurn(n, d);
      NextTurn(inputs[0], RepeatGain(p), (n - d) / d);
    }
  }

  lemma FirstTurn(x: sample, gain: weight)
    ensures Faded(x, gain, 0) == Clamp(FedBack(x, 0, gain), PEAK) == x
  {}

  lemma NextTurn(x: sample, gain: weight, repeats: nat)
    ensures Faded(x, gain, repeats + 1) == Clamp(FedBack(0, Faded(x, gain, repeats), gain), PEAK)
    ensures Clamp(FedBack(0, 0, gain), PEAK) == 0
  {}

  lemma OneTurn(n: nat, d: nat)
    requires 0 < d <= n
    ensures n % d == (n - d) % d && n / d == (n - d) / d + 1
  {
    var q, r := (n - d) / d, (n - d) % d;
    assert n == q * d + d + r;
    OneQuotient(n, q + 1, r, d);
  }

  lemma OneQuotient(n: nat, q: nat, r: nat, d: nat)
    requires r < d && n == q * d + r
    ensures n / d == q && n % d == r
  {
    var a, b := n / d, n % d;
    assert a * d + b == q * d + r && (q + 1) * d == q * d + d && (a + 1) * d == a * d + d;
    if a > q { ProductMonotone(q + 1, a, d); }
    if a < q { ProductMonotone(a + 1, q, d); }
  }

  /** Every repeat keeps at most 27/32 of the one before, and its sign. */
  lemma RepeatsFade(x: sample, p: Parameters, repeats: nat)
    ensures var a, b := Faded(x, RepeatGain(p), repeats), Faded(x, RepeatGain(p), repeats + 1);
      32 * Abs(b) <= 27 * Abs(a) && (a >= 0 ==> b >= 0) && (a <= 0 ==> b <= 0)
  {
    TurnedDown(Faded(x, RepeatGain(p), repeats), RepeatGain(p));
  }

  lemma TurnedDown(x: sample, gain: weight)
    requires gain <= 27648
    ensures 32 * Abs(Scaled(x, gain, ONE, 1)) <= 27 * Abs(x)
  {
    ProductBound(x, gain, 27648);
    var m := Abs(x) * gain;
    assert 32 * (m / ONE) <= 27 * Abs(x);
  }

  /** The knobs at zero: an impulse of 0x100000 is written at an eighth after
      2400 frames, and its second repeat is heard after 4800. */
  lemma ShortestEcho(p: Parameters)
    requires p.amount == 0 && p.character == 0
    ensures RepeatTime(p) == 2400 && Faded(0x10_0000, RepeatGain(p), 1) == 131072
    ensures Blend(0, Faded(0x10_0000, RepeatGain(p), 1), 12288) == 49152
  {
    assert Faded(0x10_0000, 4096, 0) == 0x10_0000;
    assert Faded(0x10_0000, 4096, 1) == Scaled(0x10_0000, 4096, ONE, 1) == 131072;
  }

  // ---- Any sound and then silence ----

  /** The last d values are within a bound. */
  ghost predicate Within(h: seq<sample>, d: nat, bound: nat) {
    d <= |h| && forall k :: |h| - d <= k < |h| ==> Abs(h[k]) <= bound
  }

  /** One silent round turns everything down. */
  lemma SilentRound(h: seq<sample>, inputs: seq<sample>, p: Parameters, bound: nat)
    requires FRAMES <= |h| && Within(h, RepeatTime(p), bound)
    requires |inputs| == RepeatTime(p) && Silent(inputs, 0)
    ensures Within(Line(h, inputs, p), RepeatTime(p), bound * 27 / 32)
  {
    hide Line;
    var d, r := RepeatTime(p), Line(h, inputs, p);
    forall k | |h| <= k < |r| ensures Abs(r[k]) <= bound * 27 / 32 {
      var n := k - |h|;
      WrittenAt(h, inputs, p, n);
      assert r[k - d] == r[..|h|][k - d] == h[k - d];
      TurnedDown(h[k - d], RepeatGain(p));
    }
  }

  lemma {:induction false} LineInTwo(h: seq<sample>, first: seq<sample>, second: seq<sample>, p: Parameters)
    requires FRAMES <= |h|
    ensures Line(h, first + second, p) == Line(Line(h, first, p), second, p)
    decreases |second|
  {
    hide Line, FedBack, RepeatTime, RepeatGain;
    if second == [] {
      assert first + second == first;
      NothingPlayed(Line(h, first, p), p);
    } else {
      var n, all := |second| - 1, first + second;
      LineInTwo(h, first, second[..n], p);
      assert all[..|first| + n] == first + second[..n] && all[..|first| + n + 1] == all && second[..n + 1] == second;
      LineGrows(h, all, p, |first| + n);
      LineGrows(Line(h, first, p), second, p, n);
    }
  }

  /** The frames of so many rounds. */
  function Frames(rounds: nat, d: nat): nat { if rounds == 0 then 0 else d + Frames(rounds - 1, d) }

  lemma {:induction false} FramesAre(rounds: nat, d: nat)
    ensures Frames(rounds, d) == rounds * d
  {
    if rounds > 0 {
      FramesAre(rounds - 1, d);
      OneRoundLess(rounds, d);
    }
  }

  lemma {:induction false} RoundsOfSilence(h: seq<sample>, inputs: seq<sample>, p: Parameters, bound: nat)
    requires FRAMES <= |h| && Within(h, RepeatTime(p), bound)
    requires |inputs| == Frames(bound, RepeatTime(p)) && Silent(inputs, 0)
    ensures Within(Line(h, inputs, p), RepeatTime(p), 0)
    decreases bound
  {
    hide Line, RepeatTime, RepeatGain, Within, Silent;
    var d := RepeatTime(p);
    if bound == 0 {
      assert inputs == [];
      NothingPlayed(h, p);
    } else {
      var first, second := inputs[..d], inputs[d..];
      SilentParts(inputs, d);
      SilentRound(h, first, p, bound);
      WithinMore(Line(h, first, p), d, bound * 27 / 32, bound - 1);
      RoundsOfSilence(Line(h, first, p), second, p, bound - 1);
      LineInTwo(h, first, second, p);
      assert first + second == inputs;
    }
  }

  /** The feedback is stable: whatever the line holds, after enough silence
      every sample of it that can still be heard is zero. */
  lemma EverySoundDiesOut(h: seq<sample>, inputs: seq<sample>, p: Parameters, bound: nat)
    requires FRAMES <= |h| && Within(h, RepeatTime(p), bound)
    requires |inputs| == bound * RepeatTime(p) && Silent(inputs, 0)
    ensures Within(Line(h, inputs, p), RepeatTime(p), 0)
  {
    hide Line, RepeatTime, Within, Silent;
    FramesAre(bound, RepeatTime(p));
    RoundsOfSilence(h, inputs, p, bound);
  }

  lemma SilentParts(inputs: seq<sample>, n: nat)
    requires n <= |inputs| && Silent(inputs, 0)
    ensures Silent(inputs[..n], 0) && Silent(inputs[n..], 0)
  {}

  lemma WithinMore(h: seq<sample>, d: nat, bound: nat, more: nat)
    requires Within(h, d, bound) && bound <= more
    ensures Within(h, d, more)
  {}

  lemma OneRoundLess(bound: int, d: int)
    ensures bound * d == (bound - 1) * d + d
  {}

  lemma NothingPlayed(h: seq<sample>, p: Parameters)
    requires FRAMES <= |h|
    ensures Line(h, [], p) == h
  {}
}
