/** Machine words and little-endian byte strings, the representation every
    packed C struct of the firmware has in flash and on the wire. */
module Words {
  type byte = bv8
  type uint8 = x: int | 0 <= x < 0x100
  type uint16 = x: int | 0 <= x < 0x1_0000
  type int32 = x: int | -0x8000_0000 <= x < 0x8000_0000
  type uint32 = x: int | 0 <= x < 0x1_0000_0000

  datatype Option<+T> = None | Some(value: T)

  const WORD: int := 0x1_0000_0000

  /** Unsigned 32-bit wrap-around. */
  function Wrap32(x: int): uint32 { x % WORD }

  /** Unsigned distance from `from` up to `to`, modulo 2^32. */
  function Distance(from: uint32, to: uint32): uint32 { (to - from) % WORD }

  function Pow256(n: nat): nat { if n == 0 then 1 else 256 * Pow256(n - 1) }

  /** The `n` low bytes of `x`, least significant first. */
  function Le(x: nat, n: nat): (b: seq<byte>)
    ensures |b| == n
  {
    if n == 0 then [] else [(x % 256) as bv8] + Le(x / 256, n - 1)
  }

  function FromLe(b: seq<byte>): (x: nat)
    ensures x < Pow256(|b|)
  {
    if b == [] then 0 else (b[0] as int) + 256 * FromLe(b[1..])
  }

  lemma ByteOfInt(a: int)
    requires 0 <= a < 256
    ensures (a as bv8) as int == a
  {
    Halves(a);
  }

  /** The binary digits of a byte, one after the other. */
  lemma Halves(a: int)
    requires 0 <= a < 256
    ensures a / 4 == a / 2 / 2 && a / 8 == a / 4 / 2 && a / 16 == a / 8 / 2 && a / 32 == a / 16 / 2
    ensures a / 64 == a / 32 / 2 && a / 128 == a / 64 / 2 && a / 128 / 2 == 0
  {}

  lemma {:induction false} LeRoundTrip(x: nat, n: nat)
    requires x < Pow256(n)
    ensures FromLe(Le(x, n)) == x
  {
    if n > 0 {
      ByteOfInt(x % 256);
      LeRoundTrip(x / 256, n - 1);
      assert Le(x, n)[1..] == Le(x / 256, n - 1);
    }
  }

  lemma PowersOf256()
    ensures Pow256(1) == 0x100 && Pow256(2) == 0x1_0000 && Pow256(4) == 0x1_0000_0000
  {
    assert Pow256(2) == 256 * Pow256(1);
    assert Pow256(3) == 256 * Pow256(2);
    assert Pow256(4) == 256 * Pow256(3);
  }

  /** The 32-bit field of a packed struct at byte `at`. */
  function Word32(b: seq<byte>, at: nat): uint32
    requires at + 4 <= |b|
  {
    PowersOf256();
    FromLe(b[at..at + 4])
  }

  function Word16(b: seq<byte>, at: nat): uint16
    requires at + 2 <= |b|
  {
    PowersOf256();
    FromLe(b[at..at + 2])
  }

  function Word8(b: seq<byte>, at: nat): uint8
    requires at < |b|
  {
    b[at] as int
  }

  function Byte(x: uint8): byte { x as bv8 }

  function Filled(n: nat, value: byte): (b: seq<byte>)
    ensures |b| == n && forall i :: 0 <= i < n ==> b[i] == value
  {
    seq(n, i => value)
  }

  lemma DifferenceBits(d: byte, a: byte, b: byte)
    ensures d | (a ^ b) == 0 <==> d == 0 && a == b
  {}

  /** bytes_equal: an accumulated difference, no early exit. */
  method BytesEqual(left: seq<byte>, right: seq<byte>) returns (equal: bool)
    requires |left| == |right|
    ensures equal == (left == right)
  {
    var difference: byte := 0;
    for index := 0 to |left|
      invariant difference == 0 <==> left[..index] == right[..index]
    {
      DifferenceBits(difference, left[index], right[index]);
      assert left[..index + 1] == left[..index] + [left[index]];
      assert right[..index + 1] == right[..index] + [right[index]];
      difference := difference | (left[index] ^ right[index]);
    }
    assert left[..|left|] == left && right[..|right|] == right;
    equal := difference == 0;
  }

  lemma SliceOfSlice(b: seq<byte>, at: nat, n: nat, i: nat, j: nat)
    requires i <= j <= n && at + n <= |b|
    ensures b[at..at + n][i..j] == b[at + i..at + j]
  {
    var inner, outer := b[at..at + n][i..j], b[at + i..at + j];
    assert |inner| == |outer|;
    assert forall k :: 0 <= k < |inner| ==> inner[k] == outer[k];
  }

  lemma Join(b: seq<byte>, i: nat, j: nat, k: nat)
    requires i <= j <= k <= |b|
    ensures b[i..j] + b[j..k] == b[i..k]
  {}

  lemma SameSlice(b: seq<byte>, c: seq<byte>, from: nat, to: nat)
    requires from <= to <= |b| == |c| && forall i :: from <= i < to ==> c[i] == b[i]
    ensures c[from..to] == b[from..to]
  {}
}
