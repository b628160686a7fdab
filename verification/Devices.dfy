/** Flash images that devices can have: an image in a slot, records in the log. */
module Devices {
  import opened Words
  import opened BootState
  import opened Nor
  import opened Journal
  import opened JournalProofs
  import opened Image
  import Package

  /** Erased flash with an image at the start of a slot. */
  function FlashWith(slot: uint8, image: Bytes): (mem: Bytes)
    requires SlotValid(slot) && |image| <= SLOT_SIZE
    ensures |mem| == FLASH_SIZE
  {
    Filled(SlotOffset(slot), 0xFF) + image + Filled(FLASH_SIZE - SlotOffset(slot) - |image|, 0xFF)
  }

  lemma FlashWithIs(slot: uint8, image: Bytes)
    requires SlotValid(slot) && |image| <= SLOT_SIZE
    ensures image <= SlotBytes(FlashWith(slot, image), slot)
    ensures forall i :: 0 <= i < APPLICATION_A_OFFSET ==> FlashWith(slot, image)[i] == 0xFF
  {
    var mem := FlashWith(slot, image);
    assert mem[SlotOffset(slot)..SlotOffset(slot) + |image|] == image;
    SliceOfSlice(mem, SlotOffset(slot), SLOT_SIZE, 0, |image|);
  }

  function SmallestImage(): (image: Bytes)
    ensures |image| == MANIFEST_SIZE + 8
  {
    Package.BuildSlotImage(Package.Vectors8(), 0, 0).value
  }

  /** A device with an empty log and the smallest packed image in one slot. */
  lemma SmallestDevice(slot: uint8) returns (mem: Bytes)
    requires SlotValid(slot)
    ensures mem == FlashWith(slot, SmallestImage()) && |mem| == FLASH_SIZE
    ensures Empty(Cells(mem)) && Bootable(mem, slot)
    ensures forall k :: 0 <= k < PLACES ==> Cells(mem)[k].Blank?
  {
    hide Package.BuildSlotImage, Package.Vectors8, ImageValid, Cells, FlashWith;
    mem := FlashWith(slot, SmallestImage());
    FlashWithIs(slot, SmallestImage());
    Package.SmallestImageIsValid(SlotBytes(mem, slot));
    ErasedJournal(mem);
  }

  lemma ErasedJournal(mem: Bytes)
    requires |mem| == FLASH_SIZE && forall i :: 0 <= i < APPLICATION_A_OFFSET ==> mem[i] == 0xFF
    ensures forall k :: 0 <= k < PLACES ==> Cells(mem)[k].Blank?
  {
    hide Decode;
    forall k | 0 <= k < PLACES ensures Cells(mem)[k].Blank? {
      CellOf(mem, k);
      assert Erased(mem[PlaceOffset(k)..PlaceOffset(k) + RECORD_SIZE]);
    }
  }

  /** A record programmed at a blank place of the log. */
  function WithRecord(mem: Bytes, k: nat, state: State): (after: Bytes)
    requires |mem| == FLASH_SIZE && k < PLACES
    ensures |after| == FLASH_SIZE
  {
    mem[..PlaceOffset(k)] + Encode(state) + mem[PlaceOffset(k) + RECORD_SIZE..]
  }

  lemma WithRecordIs(mem: Bytes, k: nat, state: State)
    requires |mem| == FLASH_SIZE && k < PLACES && Storable(state) && Cells(mem)[k].Blank?
    ensures Cells(WithRecord(mem, k, state)) == Cells(mem)[k := Stored(state)]
    ensures SameOutside(mem, WithRecord(mem, k, state), METADATA_OFFSET, JOURNAL_SIZE)
    ensures forall slot :: Bootable(WithRecord(mem, k, state), slot) == Bootable(mem, slot)
  {
    hide Encode, Classify, Storable, Decode, ImageValid;
    var after, p := WithRecord(mem, k, state), PlaceOffset(k);
    CellOf(mem, k);
    ErasedAnd(mem[p..p + RECORD_SIZE], Encode(state));
    assert after[p..p + RECORD_SIZE] == Encode(state);
    assert ProgramEffect(mem, after, p, Encode(state), true);
    ProgramPlace(mem, after, k, state, true);
    forall slot | SlotValid(slot) ensures Bootable(after, slot) == Bootable(mem, slot) {
      BootableElsewhere(mem, after, METADATA_OFFSET, JOURNAL_SIZE, slot);
    }
  }
}
