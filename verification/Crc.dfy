/** crc32.c: the reflected IEEE CRC-32, and what a single burst of damage does to it. */
module Crc {
  import opened Words

  /** The 32-bit accumulator. */
  datatype Register = Register(v: bv32)

  const POLYNOMIAL: bv32 := 0xEDB88320
  const START: bv32 := 0xFFFF_FFFF

  function Xor(a: Register, b: Register): Register { Register(a.v ^ b.v) }

  function Wide(b: byte): Register { Register(b as bv32) }

  predicate Even(r: Register) { r.v & 1 == 0 }

  function Down(r: Register): Register { Register(r.v >> 1) }

  function Polynomial(): Register { Register(POLYNOMIAL) }

  /** One reflected shift of the accumulator. */
  function Step(r: Register): Register {
    if Even(r) then Down(r) else Xor(Down(r), Polynomial())
  }

  function Steps(r: Register, n: nat): Register
    decreases n
  {
    if n == 0 then r else Steps(Step(r), n - 1)
  }

  function Absorb(r: Register, b: byte): Register { Steps(Xor(r, Wide(b)), 8) }

  function Fold(r: Register, data: seq<byte>): Register
    decreases data
  {
    if data == [] then r else Fold(Absorb(r, data[0]), data[1..])
  }

  function Not(r: Register): Register { Register(!r.v) }

  function Number(r: Register): uint32 { r.v as int }

  function Finish(r: Register): uint32 { Number(Not(r)) }

  function Crc32(data: seq<byte>): uint32 { Finish(Fold(Register(START), data)) }

  /** The branch-free form of the loop body. */
  function Masked(r: Register): Register {
    var mask := 0 - (r.v & 1);
    Register((r.v >> 1) ^ (POLYNOMIAL & mask))
  }

  lemma MaskedStep(r: Register)
    ensures Masked(r) == Step(r)
  {
    if Even(r) {
      XorZero(r.v >> 1);
    } else {
      MaskOn(r.v);
    }
  }

  lemma MaskOn(v: bv32)
    requires v & 1 != 0
    ensures POLYNOMIAL & (0 - (v & 1)) == POLYNOMIAL
  {
    LowBit(v);
  }

  lemma LowBit(v: bv32)
    requires v & 1 != 0
    ensures v & 1 == 1
  {}

  lemma XorZero(v: bv32)
    ensures v ^ 0 == v
  {}

  lemma {:induction false} StepsAdd(r: Register, m: nat, n: nat)
    ensures Steps(r, m + n) == Steps(Steps(r, m), n)
    decreases m
  {
    hide Step;
    if m > 0 { StepsAdd(Step(r), m - 1, n); }
  }

  lemma {:induction false} FoldAppend(r: Register, a: seq<byte>, b: seq<byte>)
    ensures Fold(r, a + b) == Fold(Fold(r, a), b)
    decreases a
  {
    hide Absorb;
    if a == [] {
      assert a + b == b;
    } else {
      assert (a + b)[1..] == a[1..] + b;
      FoldAppend(Absorb(r, a[0]), a[1..], b);
    }
  }

  /** crc32_compute: nested byte and bit loops over one accumulator. */
  method Compute(data: seq<byte>) returns (crc: uint32)
    ensures crc == Crc32(data)
  {
    hide Step, Xor, Wide, Masked;
    var value := Register(START);
    for index := 0 to |data|
      invariant Fold(value, data[index..]) == Fold(Register(START), data)
    {
      ghost var before := value;
      value := Xor(value, Wide(data[index]));
      for bit := 0 to 8
        invariant Steps(value, 8 - bit) == Absorb(before, data[index])
      {
        MaskedStep(value);
        value := Masked(value);
      }
      assert data[index..][1..] == data[index + 1..];
    }
    crc := Number(Not(value));
  }

  // ---- The register map is invertible ----

  lemma StepInjective(a: Register, b: Register)
    requires Step(a) == Step(b)
    ensures a == b
  {}

  lemma {:induction false} StepsInjective(a: Register, b: Register, n: nat)
    requires Steps(a, n) == Steps(b, n)
    ensures a == b
    decreases n
  {
    if n > 0 {
      StepsInjective(Step(a), Step(b), n - 1);
      StepInjective(a, b);
    }
  }

  lemma XorCancel(a: Register, b: Register, c: Register)
    requires Xor(a, c) == Xor(b, c)
    ensures a == b
  {
    assert a.v ^ c.v == b.v ^ c.v;
  }

  lemma XorCancelLeft(c: Register, a: Register, b: Register)
    requires Xor(c, a) == Xor(c, b)
    ensures a == b
  {
    assert c.v ^ a.v == c.v ^ b.v;
  }

  /** Different registers stay different whatever equal bytes follow. */
  lemma {:induction false} FoldInjective(a: Register, b: Register, data: seq<byte>)
    requires Fold(a, data) == Fold(b, data)
    ensures a == b
    decreases data
  {
    hide Steps, Xor, Wide;
    if data != [] {
      FoldInjective(Absorb(a, data[0]), Absorb(b, data[0]), data[1..]);
      StepsInjective(Xor(a, Wide(data[0])), Xor(b, Wide(data[0])), 8);
      XorCancel(a, b, Wide(data[0]));
    }
  }

  // ---- Up to four bytes are absorbed as one little-endian word ----

  function Up(r: Register): Register { Register(r.v << 8) }

  function Or(a: Register, b: Register): Register { Register(a.v | b.v) }

  function Packed(w: seq<byte>): Register {
    if w == [] then Register(0) else Or(Wide(w[0]), Up(Packed(w[1..])))
  }

  lemma XorEven(x: Register, z: Register)
    requires Even(z)
    ensures Even(Xor(x, z)) == Even(x)
  {}

  lemma XorDown(x: Register, z: Register)
    ensures Down(Xor(x, z)) == Xor(Down(x), Down(z))
  {}

  lemma XorSwap(a: Register, b: Register, c: Register)
    ensures Xor(Xor(a, b), c) == Xor(Xor(a, c), b)
  {}

  /** A difference that has not reached the low bit only shifts. */
  lemma StepShiftsDifference(x: Register, z: Register)
    requires Even(z)
    ensures Step(Xor(x, z)) == Xor(Step(x), Down(z))
  {
    hide Even, Xor, Down, Polynomial;
    XorEven(x, z);
    XorDown(x, z);
    XorSwap(Down(x), Down(z), Polynomial());
  }

  predicate Clear(z: Register, n: nat)
    decreases n
  {
    n == 0 || (Even(z) && Clear(Down(z), n - 1))
  }

  function Downs(z: Register, n: nat): Register
    decreases n
  {
    if n == 0 then z else Downs(Down(z), n - 1)
  }

  lemma {:induction false} StepsShiftDifference(x: Register, z: Register, n: nat)
    requires Clear(z, n)
    ensures Steps(Xor(x, z), n) == Xor(Steps(x, n), Downs(z, n))
    decreases n
  {
    hide Step, Xor, Down, Even;
    if n > 0 {
      StepShiftsDifference(x, z);
      StepsShiftDifference(Step(x), Down(z), n - 1);
    }
  }

  function Twice(r: Register): Register { Register(r.v << 1) }

  /** y moved up by k bits. */
  function Shift(y: Register, k: nat): Register
    decreases k
  {
    if k == 0 then y else Twice(Shift(y, k - 1))
  }

  predicate Fits(y: Register) { y.v < 0x100_0000 }

  predicate Half(r: Register) { r.v < 0x8000_0000 }

  lemma TwiceDown(r: Register)
    requires Half(r)
    ensures Even(Twice(r)) && Down(Twice(r)) == r
  {}

  function Limit(k: nat): bv32
    decreases k
  {
    if k == 0 then 0x100_0000 else Limit(k - 1) << 1
  }

  lemma Doubling(v: bv32, limit: bv32)
    requires v < limit <= 0x4000_0000
    ensures v << 1 < limit << 1
  {}

  lemma Limits(k: nat)
    requires k < 8
    ensures k < 7 ==> Limit(k) <= 0x4000_0000
    ensures Limit(k) <= 0x8000_0000
  {
    assert Limit(1) == 0x200_0000;
    assert Limit(2) == 0x400_0000;
    assert Limit(3) == 0x800_0000;
    assert Limit(4) == 0x1000_0000;
    assert Limit(5) == 0x2000_0000;
    assert Limit(6) == 0x4000_0000;
    assert Limit(7) == 0x8000_0000;
  }

  lemma {:induction false} ShiftBelow(y: Register, k: nat)
    requires Fits(y) && k < 8
    ensures Shift(y, k).v < Limit(k) <= 0x8000_0000
    decreases k
  {
    Limits(k);
    if k > 0 {
      Limits(k - 1);
      ShiftBelow(y, k - 1);
      Doubling(Shift(y, k - 1).v, Limit(k - 1));
    }
  }

  lemma ShiftStep(y: Register, k: nat)
    requires 0 < k <= 8 && Fits(y)
    ensures Even(Shift(y, k)) && Down(Shift(y, k)) == Shift(y, k - 1)
  {
    ShiftBelow(y, k - 1);
    hide Even, Down, Fits, Twice;
    TwiceDown(Shift(y, k - 1));
  }

  lemma {:induction false} ShiftIsClear(y: Register, k: nat)
    requires k <= 8 && Fits(y)
    ensures Clear(Shift(y, k), k) && Downs(Shift(y, k), k) == y
    decreases k
  {
    if k > 0 {
      hide Even, Down, Fits;
      ShiftStep(y, k);
      ShiftIsClear(y, k - 1);
    }
  }

  lemma OrIsXor(r: Register, b: byte, y: Register)
    ensures Xor(r, Or(Wide(b), Up(y))) == Xor(Xor(r, Wide(b)), Shift(y, 8))
  {}

  lemma PackedFits(w: seq<byte>)
    requires |w| <= 3
    ensures Fits(Packed(w))
    ensures |w| <= 2 ==> Packed(w).v < 0x1_0000
    ensures |w| <= 1 ==> Packed(w).v < 0x100
    ensures |w| == 0 ==> Packed(w).v == 0
  {
    if |w| > 0 {
      PackedFits(w[1..]);
      ByteAbove(w[0], Packed(w[1..]).v);
    }
  }

  lemma ByteAbove(b: byte, y: bv32)
    ensures y == 0 ==> (b as bv32) | (y << 8) < 0x100
    ensures y < 0x100 ==> (b as bv32) | (y << 8) < 0x1_0000
    ensures y < 0x1_0000 ==> (b as bv32) | (y << 8) < 0x100_0000
  {}

  lemma {:induction false} FoldIsWordwise(r: Register, w: seq<byte>)
    requires |w| <= 4
    ensures Fold(r, w) == Steps(Xor(r, Packed(w)), 8 * |w|)
    decreases w
  {
    if w == [] {
      XorZero(r.v);
    } else {
      var rest := w[1..];
      PackedFits(rest);
      AbsorbShifts(r, w[0], Packed(rest));
      hide Step, Xor, Wide, Up, Or, Steps;
      FoldIsWordwise(Absorb(r, w[0]), rest);
      StepsAdd(Xor(r, Packed(w)), 8, 8 * |rest|);
    }
  }

  lemma AbsorbShifts(r: Register, b: byte, y: Register)
    requires Fits(y)
    ensures Steps(Xor(r, Or(Wide(b), Up(y))), 8) == Xor(Absorb(r, b), y)
  {
    OrIsXor(r, b, y);
    ShiftIsClear(y, 8);
    hide Step, Xor, Wide, Up, Or, Steps, Shift, Clear, Downs, Fits;
    StepsShiftDifference(Xor(r, Wide(b)), Shift(y, 8), 8);
  }

  lemma PackedHead(a: byte, b: byte, y: Register, z: Register)
    requires Fits(y) && Fits(z)
    requires Or(Wide(a), Up(y)) == Or(Wide(b), Up(z))
    ensures a == b && y == z
  {
    LowPart(a, y.v); LowPart(b, z.v);
    HighPart(a, y.v); HighPart(b, z.v);
  }

  lemma LowPart(a: byte, y: bv32)
    ensures (((a as bv32) | (y << 8)) & 0xFF) as bv8 == a
  {}

  lemma HighPart(a: byte, y: bv32)
    requires y < 0x100_0000
    ensures ((a as bv32) | (y << 8)) >> 8 == y
  {}

  lemma {:induction false} PackedInjective(a: seq<byte>, b: seq<byte>)
    requires |a| == |b| <= 4 && Packed(a) == Packed(b)
    ensures a == b
  {
    if a != [] {
      PackedFits(a[1..]);
      PackedFits(b[1..]);
      hide Or, Up, Wide, Fits;
      PackedHead(a[0], b[0], Packed(a[1..]), Packed(b[1..]));
      PackedInjective(a[1..], b[1..]);
      assert a == [a[0]] + a[1..] && b == [b[0]] + b[1..];
    }
  }

  lemma BackToInt(v: bv32)
    ensures (v as int) as bv32 == v
  {}

  lemma NumberInjective(a: Register, b: Register)
    requires Number(a) == Number(b)
    ensures a == b
  {
    BackToInt(a.v);
    BackToInt(b.v);
  }

  lemma NotInjective(a: Register, b: Register)
    requires Not(a) == Not(b)
    ensures a == b
  {
    assert !a.v == !b.v;
  }

  lemma FinishInjective(a: Register, b: Register)
    requires Finish(a) == Finish(b)
    ensures a == b
  {
    hide Number, Not;
    NumberInjective(Not(a), Not(b));
    NotInjective(a, b);
  }

  /** Two inputs that differ only inside a window of at most four bytes never
      share a CRC: no burst of 32 bits or fewer goes unnoticed. */
  lemma BurstDetected(prefix: seq<byte>, a: seq<byte>, b: seq<byte>, suffix: seq<byte>)
    requires |a| == |b| <= 4 && a != b
    ensures Crc32(prefix + a + suffix) != Crc32(prefix + b + suffix)
  {
    hide Steps, Xor, Packed, Fold, Finish;
    if Crc32(prefix + a + suffix) == Crc32(prefix + b + suffix) {
      var start := Register(START);
      var p := Fold(start, prefix);
      FinishInjective(Fold(start, prefix + a + suffix), Fold(start, prefix + b + suffix));
      FoldAppend(start, prefix + a, suffix);
      FoldAppend(start, prefix + b, suffix);
      FoldAppend(start, prefix, a);
      FoldAppend(start, prefix, b);
      FoldInjective(Fold(p, a), Fold(p, b), suffix);
      FoldIsWordwise(p, a);
      FoldIsWordwise(p, b);
      StepsInjective(Xor(p, Packed(a)), Xor(p, Packed(b)), 8 * |a|);
      XorCancelLeft(p, Packed(a), Packed(b));
      PackedInjective(a, b);
    }
  }

  /** The digits one to nine in ASCII, the usual check input. */
  const DIGITS: seq<byte> := [0x31, 0x32, 0x33, 0x34, 0x35, 0x36, 0x37, 0x38, 0x39]

  lemma OneByte(r: Register, data: seq<byte>, i: nat, next: Register)
    requires i < |data| && EightSteps(Xor(r, Wide(data[i]))) == next
    ensures Fold(r, data[i..]) == Fold(next, data[i + 1..])
  {
    hide Step;
    EightStepsAre(Xor(r, Wide(data[i])));
    assert data[i..][1..] == data[i + 1..];
  }

  lemma NoByte(r: Register, data: seq<byte>)
    ensures data[0..] == data && Fold(r, data[|data|..]) == r
  {}

  function EightSteps(r: Register): Register { Step(Step(Step(Step(Step(Step(Step(Step(r)))))))) }

  lemma EightStepsAre(r: Register)
    ensures Steps(r, 8) == EightSteps(r)
  {
    hide Step;
    var a := Step(Step(Step(Step(r))));
    assert Steps(r, 8) == Steps(Step(r), 7) == Steps(Step(Step(r)), 6) == Steps(Step(Step(Step(r))), 5) == Steps(a, 4);
    assert Steps(a, 4) == Steps(Step(a), 3) == Steps(Step(Step(a)), 2) == Steps(Step(Step(Step(a))), 1);
  }

  /** It is the CRC-32 of IEEE 802.3: the published check value. */
  lemma CheckValue()
    ensures Crc32(DIGITS) == 0xCBF4_3926
  {
    hide Fold;
    NoByte(Register(START), DIGITS);
    NoByte(Register(0x340B_C6D9), DIGITS);
    OneByte(Register(0xFFFF_FFFF), DIGITS, 0, Register(0x7C23_1048));
    OneByte(Register(0x7C23_1048), DIGITS, 1, Register(0xB0AC_BB32));
    OneByte(Register(0xB0AC_BB32), DIGITS, 2, Register(0x77B7_9C2D));
    OneByte(Register(0x77B7_9C2D), DIGITS, 3, Register(0x641C_1F5C));
    OneByte(Register(0x641C_1F5C), DIGITS, 4, Register(0x340A_C5E3));
    OneByte(Register(0x340A_C5E3), DIGITS, 5, Register(0xF68D_2C9E));
    OneByte(Register(0xF68D_2C9E), DIGITS, 6, Register(0xAFFC_9660));
    OneByte(Register(0xAFFC_9660), DIGITS, 7, Register(0x651F_2550));
    OneByte(Register(0x651F_2550), DIGITS, 8, Register(0x340B_C6D9));
  }
}
