/** The hash of FIPS 180-4 over whole messages: sections 4.1.2, 4.2.2, 5.1.1,
    5.3.3 and 6.2.2. */
module Sha256Spec {
  import opened Words

  datatype Word = Word(v: bv32)

  /** The eight working variables or hash words. */
  datatype Vars = Vars(a: Word, b: Word, c: Word, d: Word, e: Word, f: Word, g: Word, h: Word)

  const BLOCK: nat := 64
  const DIGEST: nat := 32

  /** Addition modulo 2^32. */
  function Add(x: Word, y: Word): Word { Word(x.v + y.v) }
  function Xor(x: Word, y: Word): Word { Word(x.v ^ y.v) }
  function And(x: Word, y: Word): Word { Word(x.v & y.v) }
  function Not(x: Word): Word { Word(!x.v) }
  function Shr(x: Word, n: nat): Word
    requires n < 32
  {
    Word(x.v >> n)
  }
  function Rotr(x: Word, n: nat): Word
    requires 0 < n < 32
  {
    Word((x.v >> n) | (x.v << (32 - n)))
  }

  function Ch(x: Word, y: Word, z: Word): Word { Xor(And(x, y), And(Not(x), z)) }
  function Maj(x: Word, y: Word, z: Word): Word { Xor(Xor(And(x, y), And(x, z)), And(y, z)) }
  function BigSigma0(x: Word): Word { Xor(Xor(Rotr(x, 2), Rotr(x, 13)), Rotr(x, 22)) }
  function BigSigma1(x: Word): Word { Xor(Xor(Rotr(x, 6), Rotr(x, 11)), Rotr(x, 25)) }
  function SmallSigma0(x: Word): Word { Xor(Xor(Rotr(x, 7), Rotr(x, 18)), Shr(x, 3)) }
  function SmallSigma1(x: Word): Word { Xor(Xor(Rotr(x, 17), Rotr(x, 19)), Shr(x, 10)) }

  const K: seq<bv32> := [
    0x428a2f98, 0x71374491, 0xb5c0fbcf, 0xe9b5dba5, 0x3956c25b, 0x59f111f1, 0x923f82a4, 0xab1c5ed5,
    0xd807aa98, 0x12835b01, 0x243185be, 0x550c7dc3, 0x72be5d74, 0x80deb1fe, 0x9bdc06a7, 0xc19bf174,
    0xe49b69c1, 0xefbe4786, 0x0fc19dc6, 0x240ca1cc, 0x2de92c6f, 0x4a7484aa, 0x5cb0a9dc, 0x76f988da,
    0x983e5152, 0xa831c66d, 0xb00327c8, 0xbf597fc7, 0xc6e00bf3, 0xd5a79147, 0x06ca6351, 0x14292967,
    0x27b70a85, 0x2e1b2138, 0x4d2c6dfc, 0x53380d13, 0x650a7354, 0x766a0abb, 0x81c2c92e, 0x92722c85,
    0xa2bfe8a1, 0xa81a664b, 0xc24b8b70, 0xc76c51a3, 0xd192e819, 0xd6990624, 0xf40e3585, 0x106aa070,
    0x19a4c116, 0x1e376c08, 0x2748774c, 0x34b0bcb5, 0x391c0cb3, 0x4ed8aa4a, 0x5b9cca4f, 0x682e6ff3,
    0x748f82ee, 0x78a5636f, 0x84c87814, 0x8cc70208, 0x90befffa, 0xa4506ceb, 0xbef9a3f7, 0xc67178f2]

  function RoundConstant(t: nat): Word
    requires t < 64
  {
    assert |K| == 64;
    Word(K[t])
  }

  const INITIAL: Vars := Vars(
    Word(0x6a09e667), Word(0xbb67ae85), Word(0x3c6ef372), Word(0xa54ff53a),
    Word(0x510e527f), Word(0x9b05688c), Word(0x1f83d9ab), Word(0x5be0cd19))

  function BigEndian(b0: byte, b1: byte, b2: byte, b3: byte): Word {
    Word(((b0 as bv32) << 24) | ((b1 as bv32) << 16) | ((b2 as bv32) << 8) | (b3 as bv32))
  }

  function BytesOf(w: Word): (b: seq<byte>)
    ensures |b| == 4
  {
    [((w.v >> 24) & 0xFF) as bv8, ((w.v >> 16) & 0xFF) as bv8, ((w.v >> 8) & 0xFF) as bv8, (w.v & 0xFF) as bv8]
  }

  /** The message schedule; the four terms of the sum are written in the order
      the program adds them. */
  function Schedule(block: seq<byte>, t: nat): Word
    requires |block| == BLOCK
    decreases t
  {
    if t < 16 then BigEndian(block[4 * t], block[4 * t + 1], block[4 * t + 2], block[4 * t + 3])
    else Add(Add(Add(Schedule(block, t - 16), SmallSigma0(Schedule(block, t - 15))),
                 Schedule(block, t - 7)),
             SmallSigma1(Schedule(block, t - 2)))
  }

  function Round(v: Vars, k: Word, w: Word): Vars {
    var t1 := Add(Add(Add(Add(v.h, BigSigma1(v.e)), Ch(v.e, v.f, v.g)), k), w);
    var t2 := Add(BigSigma0(v.a), Maj(v.a, v.b, v.c));
    Vars(Add(t1, t2), v.a, v.b, v.c, Add(v.d, t1), v.e, v.f, v.g)
  }

  function Rounds(v: Vars, block: seq<byte>, t: nat): Vars
    requires |block| == BLOCK && t <= 64
    decreases t, v
  {
    if t == 0 then v else Round(Rounds(v, block, t - 1), RoundConstant(t - 1), Schedule(block, t - 1))
  }

  function AddVars(x: Vars, y: Vars): Vars {
    Vars(Add(x.a, y.a), Add(x.b, y.b), Add(x.c, y.c), Add(x.d, y.d),
         Add(x.e, y.e), Add(x.f, y.f), Add(x.g, y.g), Add(x.h, y.h))
  }

  function Compress(v: Vars, block: seq<byte>): Vars
    requires |block| == BLOCK
  {
    AddVars(v, Rounds(v, block, 64))
  }

  /** The chain over whole blocks. */
  function Chain(v: Vars, message: seq<byte>): Vars
    requires |message| % BLOCK == 0
    decreases |message|
  {
    if message == [] then v
    else Compress(Chain(v, message[..|message| - BLOCK]), message[|message| - BLOCK..])
  }

  function Be(x: nat, n: nat): (b: seq<byte>)
    ensures |b| == n
  {
    if n == 0 then [] else Be(x / 256, n - 1) + [(x % 256) as bv8]
  }

  /** Padding: a one bit, zeros to 448 modulo 512 bits, the bit length. */
  function Zeros(length: nat): nat { (119 - length % BLOCK) % BLOCK }

  lemma PaddedLength(n: nat)
    ensures (n + 1 + Zeros(n) + 8) % BLOCK == 0
  {
    var q, r := n / BLOCK, n % BLOCK;
    assert n == BLOCK * q + r;
    if r < 56 {
      assert Zeros(n) == 55 - r;
      assert n + 1 + Zeros(n) + 8 == BLOCK * (q + 1);
    } else {
      assert Zeros(n) == 119 - r;
      assert n + 1 + Zeros(n) + 8 == BLOCK * (q + 2);
    }
  }

  function Padded(message: seq<byte>): (p: seq<byte>)
    ensures |p| % BLOCK == 0
  {
    PaddedLength(|message|);
    message + [0x80] + Filled(Zeros(|message|), 0) + Be(8 * |message|, 8)
  }

  /** Words one after the other, most significant byte first. */
  function Joined(words: seq<Word>): (b: seq<byte>)
    ensures |b| == 4 * |words|
  {
    if words == [] then [] else Joined(words[..|words| - 1]) + BytesOf(words[|words| - 1])
  }

  function DigestOf(v: Vars): (d: seq<byte>)
    ensures |d| == DIGEST
  {
    Joined([v.a, v.b, v.c, v.d, v.e, v.f, v.g, v.h])
  }

  function Hash(message: seq<byte>): (d: seq<byte>)
    ensures |d| == DIGEST
  {
    DigestOf(Chain(INITIAL, Padded(message)))
  }
}

/** sha256.c: the same hash fed in pieces of any size. */
module Sha256 {
  import opened Words
  import opened Sha256Spec

  const TWO64: nat := 0x1_0000_0000_0000_0000
  const MAX_MESSAGE: nat := 0x2000_0000_0000_0000

  class Context {
    const state: array<Word>
    var bitCount: nat
    const block: array<byte>
    var blockSize: nat
    /** Everything fed in since init. */
    ghost var message: seq<byte>

    ghost predicate Shaped() {
      && state.Length == 8 && block.Length == BLOCK
      && state as object != block
    }

    ghost function Chained(): Vars
      requires Shaped()
      reads state
    {
      Vars(state[0], state[1], state[2], state[3], state[4], state[5], state[6], state[7])
    }

    /** The state is the chain over the whole blocks of the message, the buffer
        is its tail. */
    ghost predicate Valid()
      reads this, state, block
    {
      && Shaped()
      && bitCount == (8 * |message|) % TWO64
      && blockSize == |message| % BLOCK
      && Chained() == Chain(INITIAL, message[..|message| - blockSize])
      && block[..blockSize] == message[|message| - blockSize..]
    }

    /** sha256_init */
    constructor ()
      ensures Valid() && message == [] && fresh(state) && fresh(block)
    {
      state := new Word[8];
      block := new byte[BLOCK];
      bitCount, blockSize, message := 0, 0, [];
      new;
      hide Chain;
      EmptyChain();
      state[0] := Word(0x6a09e667);
      state[1] := Word(0xbb67ae85);
      state[2] := Word(0x3c6ef372);
      state[3] := Word(0xa54ff53a);
      state[4] := Word(0x510e527f);
      state[5] := Word(0x9b05688c);
      state[6] := Word(0x1f83d9ab);
      state[7] := Word(0x5be0cd19);
      assert Chained() == INITIAL;
      assert message[..0] == [] == block[..0];
    }

    /** transform: schedule, 64 rounds, feed forward. */
    method Transform()
      requires Shaped()
      modifies state
      ensures Chained() == Compress(old(Chained()), block[..])
    {
      hide Add, Xor, And, Not, Shr, Rotr, BigEndian, Schedule, Round, RoundConstant, Ch, Maj, BigSigma0, BigSigma1;
      ghost var data := block[..];
      var schedule := ExpandSchedule();
      var a, b, c, d := state[0], state[1], state[2], state[3];
      var e, f, g, h := state[4], state[5], state[6], state[7];
      ghost var start := Chained();
      for index := 0 to 64
        invariant Vars(a, b, c, d, e, f, g, h) == Rounds(start, data, index)
        invariant Chained() == start
        invariant forall t :: 0 <= t < 64 ==> schedule[t] == Schedule(data, t)
      {
        ghost var v := Vars(a, b, c, d, e, f, g, h);
        var temporary1 := Add(Add(Add(Add(h, BigSigma1(e)), Ch(e, f, g)), RoundConstant(index)), schedule[index]);
        var temporary2 := Add(BigSigma0(a), Maj(a, b, c));
        RoundIs(v, RoundConstant(index), schedule[index]);
        assert Rounds(start, data, index + 1) == Round(v, RoundConstant(index), Schedule(data, index));
        ghost var next := Round(v, RoundConstant(index), schedule[index]);
        h := g;
        g := f;
        f := e;
        e := Add(d, temporary1);
        d := c;
        c := b;
        b := a;
        a := Add(temporary1, temporary2);
        assert next == Vars(a, b, c, d, e, f, g, h);
      }
      hide Rounds;
      state[0] := Add(state[0], a);
      state[1] := Add(state[1], b);
      state[2] := Add(state[2], c);
      state[3] := Add(state[3], d);
      state[4] := Add(state[4], e);
      state[5] := Add(state[5], f);
      state[6] := Add(state[6], g);
      state[7] := Add(state[7], h);
    }

    method ExpandSchedule() returns (schedule: array<Word>)
      requires Shaped()
      ensures fresh(schedule) && schedule.Length == 64
      ensures forall t :: 0 <= t < 64 ==> schedule[t] == Schedule(block[..], t)
    {
      hide Add, Xor, Shr, Rotr, BigEndian, SmallSigma0, SmallSigma1, Schedule;
      schedule := new Word[64];
      for index := 0 to 16
        invariant forall t :: 0 <= t < index ==> schedule[t] == Schedule(block[..], t)
      {
        ScheduleIs(block[..], index);
        schedule[index] := BigEndian(block[4 * index], block[4 * index + 1], block[4 * index + 2], block[4 * index + 3]);
      }
      for index := 16 to 64
        invariant forall t :: 0 <= t < index ==> schedule[t] == Schedule(block[..], t)
      {
        ScheduleIs(block[..], index);
        var s0 := SmallSigma0(schedule[index - 15]);
        var s1 := SmallSigma1(schedule[index - 2]);
        schedule[index] := Add(Add(Add(schedule[index - 16], s0), schedule[index - 7]), s1);
      }
    }

    static lemma CountMovesOn(n: nat, m: nat)
      ensures ((8 * n) % TWO64 + 8 * m) % TWO64 == (8 * (n + m)) % TWO64
    {}

    static lemma Prefixes(data: seq<byte>, offset: nat, take: nat)
      requires offset + take <= |data|
      ensures data[..offset] + data[offset..offset + take] == data[..offset + take]
    {}

    /** sha256_update: fill the buffer, compress it whenever it is full. */
    method Update(data: seq<byte>)
      requires Valid()
      modifies this, state, block
      ensures Valid() && message == old(message) + data
    {
      hide Chain, Loaded, Valid;
      ghost var start := message;
      var offset := 0;
      ValidIsLoaded();
      CountMovesOn(|start|, |data|);
      bitCount := (bitCount + 8 * |data|) % TWO64;
      while offset < |data|
        invariant offset <= |data| && message == start + data[..offset]
        invariant Loaded() && blockSize < BLOCK
        invariant bitCount == (8 * (|start| + |data|)) % TWO64
      {
        var available := BLOCK - blockSize;
        var take := if |data| - offset < available then |data| - offset else available;
        Absorb(data[offset..offset + take]);
        Prefixes(data, offset, take);
        offset := offset + take;
      }
      assert data[..|data|] == data;
      LoadedIsValid();
    }

    lemma ValidIsLoaded()
      requires Valid()
      ensures Loaded() && blockSize < BLOCK && bitCount == (8 * |message|) % TWO64
    {
      hide Chain;
    }

    lemma LoadedIsValid()
      requires Loaded() && bitCount == (8 * |message|) % TWO64
      ensures Valid()
    {
      hide Chain;
    }

    /** One turn of the update loop. */
    method Absorb(piece: seq<byte>)
      requires Loaded() && blockSize + |piece| <= BLOCK
      modifies this`blockSize, this`message, state, block
      ensures Loaded() && blockSize < BLOCK && message == old(message) + piece
    {
      hide Compress, Chain;
      SplitIsFilling();
      Fill(piece);
      TailLength(|message|, blockSize);
      if blockSize == BLOCK {
        Flush();
      }
    }

    /** Buffer and chain agree with the message, a full buffer included. */
    ghost predicate Loaded()
      reads this`blockSize, this`message, state, block
    {
      && Shaped()
      && blockSize < BLOCK
      && blockSize == |message| % BLOCK
      && Chained() == Chain(INITIAL, message[..|message| - blockSize])
      && block[..blockSize] == message[|message| - blockSize..]
    }

    /** The same just after a copy that may have filled the buffer. */
    ghost predicate Filling()
      reads this, state, block
    {
      && Shaped()
      && blockSize <= BLOCK && blockSize <= |message|
      && (|message| - blockSize) % BLOCK == 0
      && Chained() == Chain(INITIAL, message[..|message| - blockSize])
      && block[..blockSize] == message[|message| - blockSize..]
    }

    /** One padding byte. */
    method Put(b: byte)
      requires Filling() && blockSize < BLOCK
      modifies this`blockSize, this`message, block
      ensures Filling() && blockSize == old(blockSize) + 1
      ensures message == old(message) + [b]
    {
      hide Chain;
      ghost var cut := |message| - blockSize;
      ghost var kept := block[..blockSize];
      block[blockSize] := b;
      blockSize := blockSize + 1;
      assert block[..blockSize] == kept + [b];
      assert (message + [b])[..cut] == message[..cut];
      assert (message + [b])[cut..] == message[cut..] + [b];
      message := message + [b];
    }

    /** Compress the full buffer. */
    method Flush()
      requires Filling() && blockSize == BLOCK
      modifies this`blockSize, state
      ensures Filling() && blockSize == 0
    {
      hide Chain, Compress;
      assert block[..BLOCK] == block[..];
      Transform();
      ChainStep(INITIAL, message, |message| - BLOCK);
      blockSize := 0;
      assert message[..|message| - 0] == message;
    }

    /** sha256_final: the digest is the hash of everything fed in. */
    method Final() returns (digest: seq<byte>)
      requires Valid() && |message| < MAX_MESSAGE
      modifies this, state, block
      ensures digest == Hash(old(message))
    {
      hide Chain, Compress, Joined, Be, Zeros, Padded, Filled;
      ghost var text := message;
      var bits := bitCount;
      NoWrap(|text|);
      SplitIsFillingValid();
      PadZeros();
      PadLength(text, bits);
      PaddedIs(text);
      Flush();
      Whole(message);
      digest := Emit();
    }

    /** The one bit and the zeros, over one block boundary if need be. */
    method PadZeros()
      requires Filling() && blockSize == |message| % BLOCK
      modifies this, state, block
      ensures Filling() && blockSize == 56
      ensures message == old(message) + [0x80] + Filled(Zeros(|old(message)|), 0)
    {
      hide Filling, Filled, Zeros;
      ghost var text, r := message, blockSize;
      ZerosOf(|text|, r);
      NoZeros();
      Put(0x80);
      if blockSize > 56 {
        while blockSize < BLOCK
          invariant Filling() && r + 1 <= blockSize <= BLOCK
          invariant message == text + [0x80] + Filled(blockSize - (r + 1), 0)
        {
          MoreZeros(blockSize - (r + 1));
          Put(0);
        }
        Flush();
      }
      ghost var base := if r + 1 > 56 then BLOCK - (r + 1) else -(r + 1);
      while blockSize < 56
        invariant Filling() && blockSize <= 56 && base + blockSize >= 0
        invariant message == text + [0x80] + Filled(base + blockSize, 0)
      {
        MoreZeros(base + blockSize);
        Put(0);
      }
    }

    /** The bit length, most significant byte first. */
    method PadLength(ghost text: seq<byte>, bits: nat)
      requires Filling() && blockSize == 56
      modifies this, state, block
      ensures Filling() && blockSize == BLOCK
      ensures message == old(message) + Be(bits, 8)
    {
      hide Chain, Be, Pow256;
      ghost var start, digits := message, Be(bits, 8);
      for index := 0 to 8
        invariant Filling() && blockSize == 56 + index
        invariant message == start + digits[..index]
      {
        BeDigit(bits, 8, index);
        assert digits[..index + 1] == digits[..index] + [digits[index]];
        Put((bits / Pow256(7 - index) % 256) as bv8);
      }
      assert digits[..8] == digits;
    }

    method Emit() returns (digest: seq<byte>)
      requires Shaped()
      ensures digest == DigestOf(Chained())
    {
      hide BytesOf;
      digest := [];
      for index := 0 to 8
        invariant digest == Joined(state[..index])
      {
        assert state[..index + 1][..index] == state[..index];
        digest := digest + BytesOf(state[index]);
      }
      assert state[..8] == [state[0], state[1], state[2], state[3], state[4], state[5], state[6], state[7]];
    }

    lemma SplitIsFillingValid()
      requires Valid()
      ensures Filling()
    {
      hide Chain;
      WholeBlocks(|message|);
    }

    lemma SplitIsFilling()
      requires Loaded()
      ensures Filling()
    {
      hide Chain;
      WholeBlocks(|message|);
    }

    /** The inner copy loop. */
    method Fill(piece: seq<byte>)
      requires Filling() && blockSize + |piece| <= BLOCK
      modifies this`blockSize, this`message, block
      ensures Filling() && blockSize == old(blockSize) + |piece|
      ensures message == old(message) + piece
    {
      hide Chain;
      ghost var kept := block[..blockSize];
      for index := 0 to |piece|
        invariant blockSize == old(blockSize) && message == old(message)
        invariant block[..blockSize + index] == kept + piece[..index]
        invariant Chained() == old(Chained())
      {
        block[blockSize + index] := piece[index];
        assert block[..blockSize + index + 1] == block[..blockSize + index] + [piece[index]];
      }
      assert piece[..|piece|] == piece;
      ghost var cut := |message| - blockSize;
      assert (message + piece)[..cut] == message[..cut];
      assert (message + piece)[cut..] == message[cut..] + piece;
      blockSize := blockSize + |piece|;
      message := message + piece;
    }
  }

  lemma ScheduleIs(block: seq<byte>, t: nat)
    requires |block| == BLOCK
    ensures t < 16 ==> Schedule(block, t) == BigEndian(block[4 * t], block[4 * t + 1], block[4 * t + 2], block[4 * t + 3])
    ensures t >= 16 ==> Schedule(block, t) == Add(Add(Add(Schedule(block, t - 16), SmallSigma0(Schedule(block, t - 15))),
                                                      Schedule(block, t - 7)), SmallSigma1(Schedule(block, t - 2)))
  {
    hide Add, BigEndian, SmallSigma0, SmallSigma1;
  }

  lemma WholeBlocks(n: nat)
    ensures n % BLOCK <= n && (n - n % BLOCK) % BLOCK == 0
  {}

  lemma TailLength(n: nat, b: nat)
    requires b <= BLOCK && b <= n && (n - b) % BLOCK == 0
    ensures b < BLOCK ==> b == n % BLOCK
    ensures b == BLOCK ==> n % BLOCK == 0
  {
    assert n == BLOCK * ((n - b) / BLOCK) + b;
  }

  /** Compressing a full buffer extends the chain by that block. */
  lemma ChainStep(v: Vars, message: seq<byte>, cut: nat)
    requires |message| == cut + BLOCK && cut % BLOCK == 0
    ensures |message| % BLOCK == 0
    ensures Chain(v, message) == Compress(Chain(v, message[..cut]), message[cut..])
  {
    hide Compress;
  }

  lemma EmptyChain()
    ensures Chain(INITIAL, []) == INITIAL
  {}

  lemma RoundIs(v: Vars, k: Word, w: Word)
    ensures
      var t1 := Add(Add(Add(Add(v.h, BigSigma1(v.e)), Ch(v.e, v.f, v.g)), k), w);
      var t2 := Add(BigSigma0(v.a), Maj(v.a, v.b, v.c));
      Round(v, k, w) == Vars(Add(t1, t2), v.a, v.b, v.c, Add(v.d, t1), v.e, v.f, v.g)
  {}

  lemma NoWrap(n: nat)
    requires n < MAX_MESSAGE
    ensures (8 * n) % TWO64 == 8 * n
  {}

  lemma Whole(message: seq<byte>)
    ensures message[..|message| - 0] == message
  {}

  lemma PaddedIs(text: seq<byte>)
    ensures Padded(text) == text + [0x80] + Filled(Zeros(|text|), 0) + Be(8 * |text|, 8)
  {}

  lemma NoZeros()
    ensures Filled(0, 0) == []
  {}

  lemma ZerosOf(n: nat, r: nat)
    requires r == n % BLOCK
    ensures Zeros(n) == if r + 1 > 56 then 119 - r else 55 - r
  {}

  lemma MoreZeros(n: nat)
    ensures Filled(n, 0) + [0] == Filled(n + 1, 0)
  {}

  lemma DivideTwice(x: nat, p: nat)
    requires p > 0
    ensures x / 256 / p == x / (256 * p)
  {
    var q, r := x / 256 / p, x / 256 % p;
    var s := x % 256;
    assert x / 256 == p * q + r;
    assert x == 256 * (p * q + r) + s;
    assert x == (256 * p) * q + (256 * r + s);
    assert 0 <= 256 * r + s < 256 * p;
    QuotientIs(x, 256 * p, q, 256 * r + s);
  }

  lemma QuotientIs(x: nat, d: nat, q: nat, r: nat)
    requires d > 0 && r < d && x == d * q + r
    ensures x / d == q
  {
    var k := x / d;
    assert x == d * k + x % d;
    assert d * q - d * k == x % d - r;
    Spread(d, q, k);
  }

  lemma Spread(d: nat, q: nat, k: nat)
    requires d > 0 && d * q - d * k < d && d * k - d * q < d
    ensures q == k
  {
    if q > k {
      AtLeast(d, q - k);
    } else if q < k {
      AtLeast(d, k - q);
    }
  }

  lemma AtLeast(d: nat, m: nat)
    requires m >= 1
    ensures d * m >= d
  {}

  lemma PowPositive(n: nat)
    ensures Pow256(n) > 0
  {}

  /** Byte i of an n-byte big-endian number is a shift and a mask. */
  lemma {:induction false} BeDigit(x: nat, n: nat, i: nat)
    requires i < n
    ensures Pow256(n - 1 - i) > 0
    ensures Be(x, n)[i] == (x / Pow256(n - 1 - i) % 256) as bv8
  {
    PowPositive(n - 1 - i);
    if i < n - 1 {
      PowPositive(n - 2 - i);
      BeDigit(x / 256, n - 1, i);
      DivideTwice(x, Pow256(n - 2 - i));
    }
  }
}
