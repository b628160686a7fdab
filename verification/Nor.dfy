/** The NOR flash behind the backend function tables, with the faults the
    update system is built to survive, and the fixed partition of the chip. */
module Nor {
  import opened Words
  import opened BootState

  const XIP_BASE: nat := 0x6000_0000
  const FLASH_SIZE: nat := 0x80_0000
  const NOR_SECTOR_SIZE: nat := 4096
  const METADATA_OFFSET: nat := 0x3F_0000
  const JOURNAL_SIZE: nat := 8192
  const APPLICATION_A_OFFSET: nat := 0x40_0000
  const APPLICATION_B_OFFSET: nat := 0x60_0000
  const SLOT_SIZE: nat := 0x20_0000
  const MANIFEST_SIZE: nat := 0x1000
  const LOAD_ADDRESS: uint32 := 0x8000_0000
  const DTCM_START: uint32 := 0x2000_0000
  const DTCM_END: uint32 := 0x2002_0000

  type Bytes = seq<byte>

  /** Flash offset of an application slot. */
  function SlotOffset(slot: uint8): nat
    requires SlotValid(slot)
  {
    if slot == SLOT_A then APPLICATION_A_OFFSET else APPLICATION_B_OFFSET
  }

  function SlotBytes(mem: Bytes, slot: uint8): Bytes
    requires |mem| == FLASH_SIZE && SlotValid(slot)
  {
    mem[SlotOffset(slot)..SlotOffset(slot) + SLOT_SIZE]
  }

  /** Byte offset of journal place k: sector k / 128, record k % 128. */
  function PlaceOffset(k: nat): nat { METADATA_OFFSET + RECORD_SIZE * k }

  const PLACES: nat := 256

  function Cells(mem: Bytes): (cells: seq<Cell>)
    requires |mem| == FLASH_SIZE
    ensures |cells| == PLACES
  {
    CellsAt(mem, METADATA_OFFSET, PLACES)
  }

  /** How far the chip may be trusted during a run. */
  datatype Faults =
    | Reliable    // every call succeeds
    | PowerLoss   // a call fails only because power is gone
    | Errors      // calls may also fail while the device keeps running

  /** A mutating call the chip accepted while powered. */
  datatype Op =
    | EraseOp(at: nat, length: nat)
    | ProgramOp(at: nat, data: Bytes, blank: bool)

  predicate SameOutside(before: Bytes, after: Bytes, at: nat, n: nat) {
    && |after| == |before|
    && forall i :: 0 <= i < |before| && !(at <= i < at + n) ==> after[i] == before[i]
  }

  /** Programming only clears bits. */
  function NorAnd(before: Bytes, data: Bytes): (r: Bytes)
    requires |before| == |data|
    ensures |r| == |data|
  {
    seq(|data|, i requires 0 <= i < |data| => before[i] & data[i])
  }

  /** An interrupted program clears some of the bits the full one would clear. */
  predicate Between(before: byte, after: byte, data: byte) {
    && before & after == after
    && after & (before & data) == before & data
  }

  predicate IsPlace(at: nat, n: nat) {
    n == RECORD_SIZE && METADATA_OFFSET <= at && at + n <= METADATA_OFFSET + JOURNAL_SIZE
    && (at - METADATA_OFFSET) % RECORD_SIZE == 0
  }

  /** What programming `data` at `at` may leave behind. A torn journal record is
      assumed never to decode to anything but the record being written. */
  predicate ProgramEffect(before: Bytes, after: Bytes, at: nat, data: Bytes, ok: bool)
    requires at + |data| <= |before|
  {
    var end := at + |data|;
    && SameOutside(before, after, at, |data|)
    && (ok ==> after[at..end] == NorAnd(before[at..end], data))
    && (!ok ==> forall i :: 0 <= i < |data| ==> Between(before[at + i], after[at + i], data[i]))
    && (!ok && IsPlace(at, |data|) ==>
          after[at..end] == before[at..end]
          || after[at..end] == NorAnd(before[at..end], data)
          || Decode(after[at..end]) == None)
  }

  /** What erasing may leave behind. An interrupted erase is assumed to leave
      each journal record as it was, erased, or undecodable. */
  predicate EraseEffect(before: Bytes, after: Bytes, at: nat, n: nat, ok: bool)
    requires at + n <= |before| == FLASH_SIZE
  {
    && SameOutside(before, after, at, n)
    && (ok ==> Erased(after[at..at + n]))
    && (!ok ==> forall k :: 0 <= k < PLACES && at <= PlaceOffset(k) && PlaceOffset(k) + RECORD_SIZE <= at + n ==>
          Cells(after)[k] == Cells(before)[k] || !Cells(after)[k].Record?)
  }

  class Flash {
    var mem: Bytes
    var powered: bool
    const faults: Faults
    ghost var log: seq<Op>

    ghost predicate Valid()
      reads this
    {
      |mem| == FLASH_SIZE
    }

    constructor (image: Bytes, faults: Faults)
      requires |image| == FLASH_SIZE
      ensures Valid() && mem == image && powered && this.faults == faults && log == []
    {
      mem, powered, this.faults, log := image, true, faults, [];
    }

    predicate InRange(address: nat, n: nat) { XIP_BASE <= address && address + n <= XIP_BASE + FLASH_SIZE }

    /** A call that did not succeed: which faults allow it. */
    twostate predicate Failed(ok: bool, inRange: bool)
      reads this
    {
      && (!old(powered) ==> !powered && !ok)
      && (ok ==> powered)
      && (!ok && powered ==> faults == Errors || !inRange)
      && (faults == Reliable ==> powered == old(powered))
    }

    method Read(address: nat, n: nat) returns (ok: bool, data: Bytes)
      requires Valid()
      modifies this`powered
      ensures Failed(ok, InRange(address, n))
      ensures ok ==> InRange(address, n) && data == mem[address - XIP_BASE..address - XIP_BASE + n]
    {
      data := [];
      if !powered || !InRange(address, n) { return false, []; }
      ok := Outcome();
      if ok { data := mem[address - XIP_BASE..address - XIP_BASE + n]; }
    }

    /** Draws the outcome of one call. */
    method Outcome() returns (ok: bool)
      requires powered
      modifies this`powered
      ensures Failed(ok, true)
    {
      var fails: bool, loses: bool := *, *;
      if faults == Reliable || !fails { return true; }
      powered := faults == Errors && !loses;
      return false;
    }

    method Erase(address: nat, n: nat) returns (ok: bool)
      requires Valid()
      modifies this
      ensures Valid() && Failed(ok, InRange(address, n))
      ensures !old(powered) || !InRange(address, n) ==> mem == old(mem) && log == old(log)
      ensures old(powered) && InRange(address, n) ==>
        && EraseEffect(old(mem), mem, address - XIP_BASE, n, ok)
        && log == old(log) + [EraseOp(address - XIP_BASE, n)]
    {
      if !powered || !InRange(address, n) { return false; }
      var at := address - XIP_BASE;
      log := log + [EraseOp(at, n)];
      ok := Outcome();
      if ok {
        mem := mem[..at] + Filled(n, 0xFF) + mem[at + n..];
        assert mem[at..at + n] == Filled(n, 0xFF);
      } else {
        var torn: Bytes := *;
        if |torn| == FLASH_SIZE && EraseEffect(mem, torn, at, n, false) { mem := torn; }
      }
    }

    method Program(address: nat, data: Bytes) returns (ok: bool)
      requires Valid()
      modifies this
      ensures Valid() && Failed(ok, InRange(address, |data|))
      ensures !old(powered) || !InRange(address, |data|) ==> mem == old(mem) && log == old(log)
      ensures old(powered) && InRange(address, |data|) ==>
        var at := address - XIP_BASE;
        && ProgramEffect(old(mem), mem, at, data, ok)
        && log == old(log) + [ProgramOp(at, data, Erased(old(mem)[at..at + |data|]))]
    {
      if !powered || !InRange(address, |data|) { return false; }
      var at := address - XIP_BASE;
      log := log + [ProgramOp(at, data, Erased(mem[at..at + |data|]))];
      ok := Outcome();
      if ok {
        mem := mem[..at] + NorAnd(mem[at..at + |data|], data) + mem[at + |data|..];
      } else {
        var torn: Bytes := *;
        if |torn| == FLASH_SIZE && ProgramEffect(mem, torn, at, data, false) { mem := torn; }
      }
    }
  }
}
