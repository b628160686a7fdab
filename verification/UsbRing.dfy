/** usb_audio_ring.c: the ring between the audio interrupt and the USB packets,
    and the rate control that absorbs the drift between their clocks. */
module UsbRing {
  import opened Words

  const CAPACITY: nat := 1024
  const NOMINAL_FRAMES: nat := 48
  const MIN_FRAMES: nat := 47
  const MAX_FRAMES: nat := 49
  const BYTES_PER_SAMPLE: nat := 3
  const MAX_PACKET_BYTES: nat := 147

  type index = x: int | 0 <= x < CAPACITY

  // ---- Specification: a FIFO of 1023 frames that drops the newest ----

  /** The queue, the frames taken out of it so far, and what went wrong. */
  datatype Fifo = Fifo(queue: seq<int32>, sent: seq<int32>, overruns: nat, underruns: nat)

  function Pushed(f: Fifo, sample: int32): Fifo {
    if |f.queue| == CAPACITY - 1 then f.(overruns := f.overruns + 1) else f.(queue := f.queue + [sample])
  }

  /** Frames of the next packet: one more or one less to follow the level. */
  function Frames(available: nat): nat {
    if available > 3 * NOMINAL_FRAMES then MAX_FRAMES
    else if available < NOMINAL_FRAMES then MIN_FRAMES
    else NOMINAL_FRAMES
  }

  function Consumed(available: nat): nat { if available > Frames(available) then Frames(available) else available }

  function Packeted(f: Fifo): Fifo {
    var n := Consumed(|f.queue|);
    Fifo(f.queue[n..], f.sent + f.queue[..n], f.overruns, if n < Frames(|f.queue|) then f.underruns + 1 else f.underruns)
  }

  // ---- 24-bit samples ----

  /** C's division: toward zero. */
  function Div256(x: int): int { if x >= 0 then x / 256 else -(-x / 256) }

  /** Three bytes, least significant first, of a two's complement value. */
  function Pcm24(x: int32): (b: seq<byte>)
    ensures |b| == BYTES_PER_SAMPLE
  {
    Le(Div256(x) % 0x100_0000, 3)
  }

  /** What a USB host makes of three bytes. */
  function FromPcm24(b: seq<byte>): int
    requires |b| == BYTES_PER_SAMPLE
  {
    if FromLe(b) < 0x80_0000 then FromLe(b) else FromLe(b) - 0x100_0000
  }

  /** A host reads every sample back, truncated toward zero to 24 bits. */
  lemma PcmIsSample(x: int32)
    ensures FromPcm24(Pcm24(x)) == Div256(x)
    ensures -256 < x - 256 * Div256(x) < 256
  {
    PowersOf256();
    assert Pow256(3) == 0x100_0000;
    LeRoundTrip(Div256(x) % 0x100_0000, 3);
    hide Le, FromLe, Pow256;
    Signed24(Div256(x));
  }

  lemma Signed24(v: int)
    requires -0x80_0000 <= v < 0x80_0000
    ensures v % 0x100_0000 == if v >= 0 then v else v + 0x100_0000
  {}

  lemma LeBytes(bits: nat)
    ensures Le(bits, 3) == [(bits % 256) as bv8, (bits / 256 % 256) as bv8, (bits / 256 / 256 % 256) as bv8]
  {
    assert Le(bits / 256 / 256, 1) == [(bits / 256 / 256 % 256) as bv8] + Le(bits / 256 / 256 / 256, 0);
    assert Le(bits / 256, 2) == [(bits / 256 % 256) as bv8] + Le(bits / 256 / 256, 1);
  }

  function PcmAll(samples: seq<int32>): (b: seq<byte>)
    ensures |b| == BYTES_PER_SAMPLE * |samples|
  {
    if samples == [] then [] else PcmAll(samples[..|samples| - 1]) + Pcm24(samples[|samples| - 1])
  }

  // ---- The ring ----

  function Index(i: int): index { i % CAPACITY }

  /** The frames between two ring positions. */
  function Queue(cells: seq<int32>, read: index, write: index): (q: seq<int32>)
    requires |cells| == CAPACITY
    ensures |q| == Index(write - read)
  {
    seq(Index(write - read), i requires 0 <= i < Index(write - read) => cells[Index(read + i)])
  }

  lemma QueuePush(cells: seq<int32>, read: index, write: index, sample: int32)
    requires |cells| == CAPACITY && Index(write + 1) != read
    ensures Queue(cells[write := sample], read, Index(write + 1)) == Queue(cells, read, write) + [sample]
  {
    var before, after := Queue(cells, read, write), Queue(cells[write := sample], read, Index(write + 1));
    OneLonger(read, write);
    var n := |before|;
    forall i | 0 <= i <= n ensures after[i] == (before + [sample])[i] {
      if i < n { Behind(read, write, i); } else { EndsAtWrite(read, write); }
    }
  }

  lemma OneLonger(read: index, write: index)
    requires Index(write + 1) != read
    ensures Index(Index(write + 1) - read) == Index(write - read) + 1
  {}

  lemma EndsAtWrite(read: index, write: index)
    ensures Index(read + Index(write - read)) == write
  {}

  /** A waiting frame is not in the cell the next push writes. */
  lemma Behind(read: index, write: index, i: nat)
    requires i < Index(write - read)
    ensures Index(read + i) != write
  {}

  lemma QueueFull(cells: seq<int32>, read: index, write: index)
    requires |cells| == CAPACITY
    ensures Index(write + 1) == read <==> |Queue(cells, read, write)| == CAPACITY - 1
  {}

  lemma OneFurther(read: index, i: nat)
    ensures Index(read + (i + 1)) == Index(Index(read + 1) + i)
  {}

  lemma QueuePop(cells: seq<int32>, read: index, write: index)
    requires |cells| == CAPACITY && read != write
    ensures Queue(cells, read, write) == [cells[read]] + Queue(cells, Index(read + 1), write)
  {
    hide Index, Queue;
    var before, after := Queue(cells, read, write), Queue(cells, Index(read + 1), write);
    OneShorter(read, write);
    forall i | 0 <= i < |after| ensures before[i + 1] == after[i] {
      OneFurther(read, i);
      Waiting(cells, read, write, i + 1);
      Waiting(cells, Index(read + 1), write, i);
    }
    Waiting(cells, read, write, 0);
    assert before == [before[0]] + before[1..] && before[1..] == after;
  }

  lemma OneShorter(read: index, write: index)
    requires read != write
    ensures Index(write - read) == Index(write - Index(read + 1)) + 1 && Index(read + 0) == read
  {}

  lemma Waiting(cells: seq<int32>, read: index, write: index, i: nat)
    requires |cells| == CAPACITY && i < Index(write - read)
    ensures Queue(cells, read, write)[i] == cells[Index(read + i)]
  {}

  class Ring {
    var writeIndex: index
    var readIndex: index
    var overrunFrames: uint32
    var underrunPackets: uint32
    var capturedFrames: uint32
    var streamedFrames: uint32
    const samples: array<int32>

    ghost predicate Valid() { samples.Length == CAPACITY }

    ghost function Contents(): (q: seq<int32>)
      reads this`readIndex, this`writeIndex, samples
      requires Valid()
    {
      Queue(samples[..], readIndex, writeIndex)
    }

    constructor ()
      ensures Valid() && fresh(samples) && Contents() == []
      ensures overrunFrames == underrunPackets == capturedFrames == streamedFrames == 0
    {
      samples := new int32[CAPACITY];
      writeIndex, readIndex, overrunFrames, underrunPackets, capturedFrames, streamedFrames := 0, 0, 0, 0, 0, 0;
    }

    /** ncr2_usb_audio_ring_reset */
    method Reset()
      requires Valid()
      modifies this
      ensures Contents() == []
      ensures overrunFrames == underrunPackets == capturedFrames == streamedFrames == 0
    {
      readIndex, writeIndex := 0, 0;
      overrunFrames, underrunPackets, capturedFrames, streamedFrames := 0, 0, 0, 0;
    }

    /** ncr2_usb_audio_ring_push */
    method Push(sample: int32)
      requires Valid()
      modifies this`writeIndex, this`overrunFrames, this`capturedFrames, samples
      ensures var f := Pushed(Fifo(old(Contents()), [], 0, 0), sample);
        && Contents() == f.queue
        && overrunFrames == Wrap32(old(overrunFrames) + f.overruns)
        && capturedFrames == Wrap32(old(capturedFrames) + 1 - f.overruns)
    {
      var write: int := writeIndex;
      var next := Index(write + 1);
      QueueFull(samples[..], readIndex, write);
      if next == readIndex {
        overrunFrames := Wrap32(overrunFrames + 1);
        return;
      }
      QueuePush(samples[..], readIndex, write, sample);
      samples[write] := sample;
      writeIndex := next;
      capturedFrames := Wrap32(capturedFrames + 1);
    }

    /** ncr2_usb_audio_ring_available */
    method Available() returns (n: nat)
      requires Valid()
      ensures n == |Contents()|
    {
      var write: int := writeIndex;
      n := Index(write - readIndex);
    }

    /** store_pcm24 */
    method StorePcm24(packet: array<byte>, at: nat, sample: int32)
      requires at + BYTES_PER_SAMPLE <= packet.Length
      modifies packet
      ensures packet[at..at + BYTES_PER_SAMPLE] == Pcm24(sample)
      ensures packet[..at] == old(packet[..at]) && packet[at + BYTES_PER_SAMPLE..] == old(packet[at + BYTES_PER_SAMPLE..])
    {
      var bits := Div256(sample) % 0x100_0000;
      LeBytes(bits);
      hide Le, Div256;
      ghost var before := packet[..];
      var b0, b1, b2 := (bits % 256) as bv8, (bits / 256 % 256) as bv8, (bits / 256 / 256 % 256) as bv8;
      packet[at] := b0;
      packet[at + 1] := b1;
      packet[at + 2] := b2;
      assert packet[..at] == before[..at];
      assert packet[at + 3..] == before[at + 3..];
    }

    /** The first loop of a packet: frames from the ring. */
    method SendFrames(packet: array<byte>, consumed: nat)
      requires Valid() && (packet as object) != samples && consumed <= |Contents()| && BYTES_PER_SAMPLE * consumed <= packet.Length
      modifies this`readIndex, packet
      ensures Contents() == old(Contents())[consumed..]
      ensures packet[..BYTES_PER_SAMPLE * consumed] == PcmAll(old(Contents())[..consumed])
      ensures packet[BYTES_PER_SAMPLE * consumed..] == old(packet[BYTES_PER_SAMPLE * consumed..])
    {
      hide Queue, PcmAll, Pcm24, Index;
      ghost var queue := Contents();
      for frame := 0 to consumed
        invariant Contents() == queue[frame..]
        invariant packet[..BYTES_PER_SAMPLE * frame] == PcmAll(queue[..frame])
        invariant packet[BYTES_PER_SAMPLE * frame..] == old(packet[BYTES_PER_SAMPLE * frame..])
      {
        SendFrame(packet, frame, queue);
      }
      assert queue[0..] == queue;
    }

    method SendFrame(packet: array<byte>, frame: nat, ghost queue: seq<int32>)
      requires Valid() && (packet as object) != samples && frame < |queue| && Contents() == queue[frame..]
      requires BYTES_PER_SAMPLE * frame + BYTES_PER_SAMPLE <= packet.Length
      requires packet[..BYTES_PER_SAMPLE * frame] == PcmAll(queue[..frame])
      modifies this`readIndex, packet
      ensures Contents() == queue[frame + 1..]
      ensures packet[..BYTES_PER_SAMPLE * (frame + 1)] == PcmAll(queue[..frame + 1])
      ensures packet[BYTES_PER_SAMPLE * (frame + 1)..] == old(packet[BYTES_PER_SAMPLE * (frame + 1)..])
    {
      hide Queue, PcmAll, Pcm24, Index;
      var at := BYTES_PER_SAMPLE * frame;
      var read: int := readIndex;
      NextFrame(samples[..], read, writeIndex, queue, frame);
      StorePcm24(packet, at, samples[read]);
      PcmGrows(queue[..frame], queue[frame], queue[..frame + 1]);
      assert packet[..at + BYTES_PER_SAMPLE] == packet[..at] + packet[at..at + BYTES_PER_SAMPLE];
      readIndex := Index(1 + read);
    }

    /** The second loop of a packet: zeros where the ring ran dry. */
    method SendSilence(packet: array<byte>, from: nat, to: nat, ghost sent: seq<int32>)
      requires from <= to && BYTES_PER_SAMPLE * to <= packet.Length && |sent| == from
      requires packet[..BYTES_PER_SAMPLE * from] == PcmAll(sent)
      modifies packet
      ensures packet[..BYTES_PER_SAMPLE * to] == PcmAll(sent + Silence(to - from))
      ensures packet[BYTES_PER_SAMPLE * to..] == old(packet[BYTES_PER_SAMPLE * to..])
    {
      hide PcmAll, Pcm24;
      assert sent + Silence(0) == sent;
      for frame := from to to
        invariant packet[..BYTES_PER_SAMPLE * frame] == PcmAll(sent + Silence(frame - from))
        invariant packet[BYTES_PER_SAMPLE * frame..] == old(packet[BYTES_PER_SAMPLE * frame..])
      {
        ghost var before, after := sent + Silence(frame - from), sent + Silence(frame + 1 - from);
        assert after == before + [0];
        StorePcm24(packet, BYTES_PER_SAMPLE * frame, 0);
        PcmGrows(before, 0, after);
        assert packet[..BYTES_PER_SAMPLE * (frame + 1)]
            == packet[..BYTES_PER_SAMPLE * frame] + packet[BYTES_PER_SAMPLE * frame..BYTES_PER_SAMPLE * (frame + 1)];
      }
    }

    /** ncr2_usb_audio_ring_packet */
    method Packet(packet: array<byte>, capacity: nat) returns (size: nat)
      requires Valid() && (packet as object) != samples && capacity <= packet.Length
      modifies this`readIndex, this`underrunPackets, this`streamedFrames, packet
      ensures capacity < MAX_PACKET_BYTES ==>
        size == 0 && Contents() == old(Contents()) && packet[..] == old(packet[..])
        && underrunPackets == old(underrunPackets) && streamedFrames == old(streamedFrames)
      ensures capacity >= MAX_PACKET_BYTES ==>
        var available, f := |old(Contents())|, Packeted(Fifo(old(Contents()), [], 0, 0));
        && Contents() == f.queue
        && size == BYTES_PER_SAMPLE * Frames(available) <= packet.Length
        && packet[..size] == PcmAll(f.sent + Silence(Frames(available) - |f.sent|))
        && packet[size..] == old(packet[size..])
        && underrunPackets == Wrap32(old(underrunPackets) + f.underruns)
        && streamedFrames == Wrap32(old(streamedFrames) + Frames(available))
    {
      hide Queue, PcmAll, Wrap32;
      var available := Available();
      if capacity < MAX_PACKET_BYTES { return 0; }
      var frames, consumed := Frames(available), Consumed(available);
      ghost var queue := Contents();
      SendFrames(packet, consumed);
      SendSilence(packet, consumed, frames, queue[..consumed]);
      if consumed < frames { underrunPackets := Wrap32(underrunPackets + 1); } else { SameCount(underrunPackets); }
      streamedFrames := Wrap32(streamedFrames + frames);
      size := BYTES_PER_SAMPLE * frames;
      assert [] + queue[..consumed] == queue[..consumed];
    }
  }

  /** The frame at the read index is the next of the queue. */
  lemma NextFrame(cells: seq<int32>, read: index, write: index, queue: seq<int32>, frame: nat)
    requires |cells| == CAPACITY && frame < |queue| && Queue(cells, read, write) == queue[frame..]
    ensures cells[read] == queue[frame]
    ensures Queue(cells, Index(1 + read), write) == queue[frame + 1..]
    ensures queue[..frame + 1] == queue[..frame] + [queue[frame]]
  {
    EmptyQueue(cells, read, write);
    QueuePop(cells, read, write);
    assert queue[frame] == queue[frame..][0] && queue[frame + 1..] == queue[frame..][1..];
  }

  lemma SameCount(x: uint32)
    ensures Wrap32(x + 0) == x
  {}

  lemma EmptyQueue(cells: seq<int32>, read: index, write: index)
    requires |cells| == CAPACITY
    ensures Queue(cells, read, write) == [] <==> read == write
  {}

  function Silence(n: nat): (s: seq<int32>)
    ensures |s| == n
  {
    seq(n, i => 0)
  }

  lemma PcmGrows(a: seq<int32>, x: int32, b: seq<int32>)
    requires b == a + [x]
    ensures PcmAll(b) == PcmAll(a) + Pcm24(x)
  {
    assert b[..|b| - 1] == a;
  }

  // ---- Rate control ----

  function PushAll(f: Fifo, batch: seq<int32>): Fifo {
    if batch == [] then f else Pushed(PushAll(f, batch[..|batch| - 1]), batch[|batch| - 1])
  }

  /** Packet intervals one after the other: the frames captured, then the packet. */
  function Stream(f: Fifo, batches: seq<seq<int32>>): Fifo {
    if batches == [] then f else Packeted(PushAll(Stream(f, batches[..|batches| - 1]), batches[|batches| - 1]))
  }

  function Concat(batches: seq<seq<int32>>): seq<int32> {
    if batches == [] then [] else Concat(batches[..|batches| - 1]) + batches[|batches| - 1]
  }

  const EMPTY: Fifo := Fifo([], [], 0, 0)

  lemma {:induction false} PushAllFits(f: Fifo, batch: seq<int32>)
    requires |f.queue| + |batch| < CAPACITY
    ensures PushAll(f, batch) == f.(queue := f.queue + batch)
  {
    if batch == [] {
      assert f.queue + batch == f.queue;
    } else {
      var before, last := batch[..|batch| - 1], batch[|batch| - 1];
      PushAllFits(f, before);
      assert f.queue + before + [last] == f.queue + batch;
    }
  }

  /** A packet moves frames from the queue to the stream and no others. */
  lemma PacketKeepsOrder(f: Fifo)
    ensures Packeted(f).sent + Packeted(f).queue == f.sent + f.queue
  {
    var n := Consumed(|f.queue|);
    hide Consumed;
    assert f.queue == f.queue[..n] + f.queue[n..];
  }

  /** How far a packet brings the level down. */
  lemma Levels(available: nat)
    ensures Consumed(available) <= Frames(available) <= MAX_FRAMES
    ensures available >= MIN_FRAMES ==> Consumed(available) == Frames(available)
    ensures available <= 146 ==> available - Consumed(available) <= 97
    ensures available < MIN_FRAMES ==> Consumed(available) == available < Frames(available)
  {}

  /** The level after so many intervals of exactly 48 frames. */
  function Level(start: nat, intervals: nat): nat {
    if intervals == 0 then start
    else var before := Level(start, intervals - 1); before - Consumed(before) + NOMINAL_FRAMES
  }

  /** What the rate control steers for: with nothing to make up a level of 48 to
      144 frames stays as it is, a lower one is raised to 48 at once, and a higher
      one comes down by one frame a packet until it is at 144. */
  lemma {:induction false} LevelSettles(start: nat, intervals: nat)
    ensures Level(start, intervals)
         == if intervals == 0 then start
            else if start < NOMINAL_FRAMES then NOMINAL_FRAMES
            else if start <= 3 * NOMINAL_FRAMES then start
            else if intervals < start - 3 * NOMINAL_FRAMES then start - intervals
            else 3 * NOMINAL_FRAMES
  {
    if intervals > 0 { LevelSettles(start, intervals - 1); }
  }

  /** One interval of 47 to 49 frames neither overruns nor runs dry, and loses,
      repeats and reorders nothing. */
  lemma OneInterval(f: Fifo, batch: seq<int32>)
    requires |f.queue| <= 97 && MIN_FRAMES <= |batch| <= MAX_FRAMES
    ensures var g := Packeted(PushAll(f, batch));
      && |g.queue| <= 97 && g.overruns == f.overruns && g.underruns == f.underruns
      && g.sent + g.queue == f.sent + f.queue + batch
  {
    PushAllFits(f, batch);
    var q := f.queue + batch;
    Levels(|q|);
    PacketKeepsOrder(f.(queue := q));
    hide Consumed, Frames, PushAll;
    assert f.sent + q == f.sent + f.queue + batch;
  }

  lemma FirstPacket(first: seq<int32>)
    requires |first| <= MAX_FRAMES
    ensures var f := Packeted(PushAll(EMPTY, first));
      && f.overruns == 0 && f.underruns == (if |first| < MIN_FRAMES then 1 else 0)
      && |f.queue| <= 97 && f.sent + f.queue == first
  {
    PushAllFits(EMPTY, first);
    Levels(|first|);
    PacketKeepsOrder(EMPTY.(queue := first));
    hide Consumed, Frames, PushAll;
    assert EMPTY.queue + first == first && EMPTY.sent + first == first;
  }

  /** The rate control absorbs the drift: from reset, if every packet interval
      captures 47 to 49 frames, no frame is ever dropped, only the packet that
      starts the stream can run dry, at most 97 frames stay behind, and what has
      been sent and what waits are exactly the captured frames in order. */
  lemma {:induction false} DriftIsAbsorbed(first: seq<int32>, batches: seq<seq<int32>>)
    requires |first| <= MAX_FRAMES
    requires forall k :: 0 <= k < |batches| ==> MIN_FRAMES <= |batches[k]| <= MAX_FRAMES
    ensures var f := Stream(Packeted(PushAll(EMPTY, first)), batches);
      && f.overruns == 0 && f.underruns == (if |first| < MIN_FRAMES then 1 else 0)
      && |f.queue| <= 97
      && f.sent + f.queue == first + Concat(batches)
    decreases |batches|
  {
    FirstPacket(first);
    var start := Packeted(PushAll(EMPTY, first));
    var n := |batches|;
    if n == 0 {
      assert first + Concat(batches) == first;
    } else {
      var before, last := batches[..n - 1], batches[n - 1];
      forall k | 0 <= k < |before| ensures MIN_FRAMES <= |before[k]| <= MAX_FRAMES { assert before[k] == batches[k]; }
      hide PushAll, Packeted;
      DriftIsAbsorbed(first, before);
      OneInterval(Stream(start, before), last);
      assert first + Concat(before) + last == first + Concat(batches);
    }
  }
}

/** The ring's two sides running at once: every load and store of an index or a
    cell is a step of its own, in any order. */
module UsbRingRace {
  import opened Words
  import opened UsbRing

  /** Where the audio interrupt is inside a push. */
  datatype Producer =
    | Resting
    | Storing(sample: int32)      // room was found, the cell is still to be written
    | Publishing(sample: int32)   // the cell is written, the index is not

  /** Where the packet builder is: frames still to take, and the one just read. */
  datatype Consumer =
    | Waiting
    | Taking(left: nat)
    | Releasing(left: nat, value: int32)

  datatype Race = Race(
    cells: seq<int32>, write: index, read: index,
    producer: Producer, consumer: Consumer,
    pushed: seq<int32>, taken: seq<int32>, dropped: nat)

  datatype Step =
    | BeginPush(sample: int32)
    | StoreCell
    | PublishIndex
    | BeginPacket
    | LoadCell
    | ReleaseIndex

  ghost predicate Moves(a: Race, step: Step, b: Race) {
    && |a.cells| == CAPACITY
    && match step
       case BeginPush(x) =>
         && a.producer.Resting?
         && b == if Index(1 + a.write) == a.read then a.(dropped := a.dropped + 1) else a.(producer := Storing(x))
       case StoreCell =>
         a.producer.Storing? && b == a.(cells := a.cells[a.write := a.producer.sample], producer := Publishing(a.producer.sample))
       case PublishIndex =>
         && a.producer.Publishing?
         && b == a.(write := Index(1 + a.write), producer := Resting, pushed := a.pushed + [a.producer.sample])
       case BeginPacket =>
         a.consumer.Waiting? && b == a.(consumer := Taking(Consumed(|Queue(a.cells, a.read, a.write)|)))
       case LoadCell =>
         a.consumer.Taking? && a.consumer.left > 0 && b == a.(consumer := Releasing(a.consumer.left - 1, a.cells[a.read]))
       case ReleaseIndex =>
         && (a.consumer.Releasing? || a.consumer == Taking(0))
         && b == if a.consumer.Releasing?
                 then a.(read := Index(1 + a.read), consumer := Taking(a.consumer.left), taken := a.taken + [a.consumer.value])
                 else a.(consumer := Waiting)
  }

  /** What the two sides rely on of each other. */
  ghost predicate Orderly(a: Race) {
    && |a.cells| == CAPACITY
    && var q := Queue(a.cells, a.read, a.write);
    && a.taken + q == a.pushed
    && (!a.producer.Resting? ==> Index(1 + a.write) != a.read)
    && (a.producer.Publishing? ==> a.cells[a.write] == a.producer.sample)
    && match a.consumer
       case Waiting => true
       case Taking(left) => left <= |q|
       case Releasing(left, value) => left < |q| && value == q[0]
  }

  lemma StoreKeeps(cells: seq<int32>, read: index, write: index, sample: int32)
    requires |cells| == CAPACITY
    ensures Queue(cells[write := sample], read, write) == Queue(cells, read, write)
  {
    var before, after := Queue(cells, read, write), Queue(cells[write := sample], read, write);
    forall i | 0 <= i < |before| ensures after[i] == before[i] {
      Behind(read, write, i);
    }
  }

  lemma OrderlyStep(a: Race, step: Step, b: Race)
    requires Moves(a, step, b) && Orderly(a)
    ensures Orderly(b)
  {
    hide Queue, Index;
    match step
    case BeginPush(x) =>
    case StoreCell => StoreKeeps(a.cells, a.read, a.write, a.producer.sample);
    case PublishIndex => PublishKeeps(a, b);
    case BeginPacket =>
    case LoadCell => Front(a.cells, a.read, a.write);
    case ReleaseIndex => if a.consumer.Releasing? { ReleaseKeeps(a, b); }
  }

  lemma Front(cells: seq<int32>, read: index, write: index)
    requires |cells| == CAPACITY && |Queue(cells, read, write)| > 0
    ensures Queue(cells, read, write)[0] == cells[read]
  {
    assert Index(read + 0) == read;
  }

  lemma PublishKeeps(a: Race, b: Race)
    requires Moves(a, PublishIndex, b) && Orderly(a)
    ensures Orderly(b)
  {
    var x := a.producer.sample;
    QueuePush(a.cells, a.read, a.write, x);
    assert a.cells[a.write := x] == a.cells;
    var q := Queue(a.cells, a.read, a.write);
    hide Queue;
    assert a.taken + (q + [x]) == a.taken + q + [x];
    if !a.consumer.Waiting? && |q| > 0 { assert (q + [x])[0] == q[0]; }
  }

  lemma ReleaseKeeps(a: Race, b: Race)
    requires Moves(a, ReleaseIndex, b) && Orderly(a) && a.consumer.Releasing?
    ensures Orderly(b)
  {
    hide Queue, Index;
    var q := Queue(a.cells, a.read, a.write);
    EmptyQueue(a.cells, a.read, a.write);
    TakenOut(a.cells, a.read, a.write);
    NotFull(a.cells, a.read, a.write);
    assert a.taken + q == a.taken + [q[0]] + q[1..];
  }

  lemma TakenOut(cells: seq<int32>, read: index, write: index)
    requires |cells| == CAPACITY && read != write
    ensures var q := Queue(cells, read, write);
      q != [] && Queue(cells, Index(1 + read), write) == q[1..]
  {
    QueuePop(cells, read, write);
  }

  lemma NotFull(cells: seq<int32>, read: index, write: index)
    requires |cells| == CAPACITY && read != write
    ensures Index(1 + write) != Index(1 + read)
  {}

  ghost predicate Path(states: seq<Race>, steps: seq<Step>) {
    && |states| == |steps| + 1
    && forall k :: 0 <= k < |steps| ==> Moves(states[k], steps[k], states[k + 1])
  }

  /** What a run between two resets amounts to: a first-in first-out queue of
      1023 frames. */
  ghost predicate IsFifo(a: Race) {
    && |a.cells| == CAPACITY
    && a.taken <= a.pushed && |a.pushed| - |a.taken| == |Queue(a.cells, a.read, a.write)| <= CAPACITY - 1
    && a.pushed[|a.taken|..] == Queue(a.cells, a.read, a.write)
    && (a.consumer.Releasing? ==> |a.taken| < |a.pushed| && a.consumer.value == a.pushed[|a.taken|])
  }

  lemma OrderlyIsFifo(a: Race)
    requires Orderly(a)
    ensures IsFifo(a)
  {
    hide Queue, Index;
    var q := Queue(a.cells, a.read, a.write);
    QueueBound(a.cells, a.read, a.write);
    assert a.pushed[|a.taken|..] == q;
  }

  lemma QueueBound(cells: seq<int32>, read: index, write: index)
    requires |cells| == CAPACITY
    ensures |Queue(cells, read, write)| <= CAPACITY - 1
  {}

  /** A frame is dropped only when 1023 are waiting at that moment. */
  lemma DropsOnlyWhenFull(a: Race, x: int32, b: Race)
    requires Moves(a, BeginPush(x), b) && b.dropped != a.dropped
    ensures |Queue(a.cells, a.read, a.write)| == CAPACITY - 1
  {
    QueueFull(a.cells, a.read, a.write);
  }

  /** Under every interleaving of one producer and one consumer, what the packets
      take is what was pushed, in order, whole and once. */
  lemma {:induction false} EveryInterleavingIsFifo(states: seq<Race>, steps: seq<Step>)
    requires Path(states, steps) && Orderly(states[0])
    ensures forall k :: 0 <= k < |states| ==> Orderly(states[k]) && IsFifo(states[k])
    decreases |steps|
  {
    hide Moves, Orderly, IsFifo;
    var n := |steps|;
    if n > 0 {
      var before, earlier := states[..n], steps[..n - 1];
      assert Path(before, earlier);
      EveryInterleavingIsFifo(before, earlier);
      assert Moves(states[n - 1], steps[n - 1], states[n - 1 + 1]);
      assert Orderly(before[n - 1]);
      OrderlyStep(states[n - 1], steps[n - 1], states[n]);
      forall k | 0 <= k < n ensures Orderly(states[k]) { assert Orderly(before[k]); }
    }
    forall k | 0 <= k < |states| ensures IsFifo(states[k]) && Orderly(states[k]) { OrderlyIsFifo(states[k]); }
  }
}
