/** bootloader.c: what makes an application slot bootable, and how a slot is
    checked, copied to RAM and checked again. */
module Image {
  import opened Words
  import opened BootState
  import opened Nor
  import Crc
  import Sha256
  import Sha256Spec

  const IMAGE_MAGIC: uint32 := 0x4E45504F
  const IMAGE_BOARD: uint32 := 0x3252434E
  const IMAGE_FORMAT_VERSION: uint16 := 1
  const HEADER_SIZE: nat := 68
  const HEADER_CRC_OFFSET: nat := 64
  const HASH_OFFSET: nat := 32
  const PAYLOAD_CAPACITY: nat := SLOT_SIZE - MANIFEST_SIZE

  datatype SlotStatus = SlotOk | SlotInvalid | CopyFailed

  /** The size field of a manifest. */
  function ImageSize(manifest: Bytes): uint32
    requires |manifest| == HEADER_SIZE
  {
    Word32(manifest, 8)
  }

  function ImageHash(manifest: Bytes): (h: Bytes)
    requires |manifest| == HEADER_SIZE
    ensures |h| == Sha256Spec.DIGEST
  {
    manifest[HASH_OFFSET..HEADER_CRC_OFFSET]
  }

  /** manifest_is_valid and manifest_header_is_valid */
  predicate ManifestValid(manifest: Bytes)
    requires |manifest| == HEADER_SIZE
  {
    && Word32(manifest, 0) == IMAGE_MAGIC
    && Word16(manifest, 4) == IMAGE_FORMAT_VERSION
    && Word16(manifest, 6) == MANIFEST_SIZE
    && Word32(manifest, 20) == IMAGE_BOARD
    && Word32(manifest, 12) == LOAD_ADDRESS
    && Word32(manifest, 16) == 0
    && 8 <= ImageSize(manifest) <= PAYLOAD_CAPACITY
    && Word32(manifest, HEADER_CRC_OFFSET) == Crc.Crc32(manifest[..HEADER_CRC_OFFSET])
  }

  /** vector_is_valid and manifest_vector_is_valid */
  predicate VectorsValid(imageSize: uint32, vectors: Bytes)
    requires |vectors| == 8
  {
    var initialStack := Word32(vectors, 0);
    var resetHandler := Word32(vectors, 4);
    var resetAddress := resetHandler - resetHandler % 2;
    var imageEnd := Wrap32(LOAD_ADDRESS + imageSize);
    && DTCM_START <= initialStack <= DTCM_END
    && initialStack % 8 == 0
    && resetHandler % 2 != 0
    && LOAD_ADDRESS <= resetAddress < imageEnd
  }

  function Manifest(slot: Bytes): (m: Bytes)
    requires |slot| == SLOT_SIZE
    ensures |m| == HEADER_SIZE
  {
    slot[..HEADER_SIZE]
  }

  function Vectors(slot: Bytes): (v: Bytes)
    requires |slot| == SLOT_SIZE
    ensures |v| == 8
  {
    slot[MANIFEST_SIZE..MANIFEST_SIZE + 8]
  }

  function Payload(slot: Bytes, size: nat): (p: Bytes)
    requires |slot| == SLOT_SIZE && size <= PAYLOAD_CAPACITY
    ensures |p| == size
  {
    slot[MANIFEST_SIZE..MANIFEST_SIZE + size]
  }

  /** A slot the bootloader will run. */
  predicate ImageValid(slot: Bytes)
    requires |slot| == SLOT_SIZE
  {
    var manifest := Manifest(slot);
    && ManifestValid(manifest)
    && VectorsValid(ImageSize(manifest), Vectors(slot))
    && Sha256Spec.Hash(Payload(slot, ImageSize(manifest))) == ImageHash(manifest)
  }

  predicate Bootable(mem: Bytes, slot: uint8)
    requires |mem| == FLASH_SIZE
  {
    SlotValid(slot) && ImageValid(SlotBytes(mem, slot))
  }

  /** Bootability depends on the slot's own bytes only. */
  lemma BootableElsewhere(before: Bytes, after: Bytes, at: nat, n: nat, slot: uint8)
    requires |before| == FLASH_SIZE && SameOutside(before, after, at, n) && SlotValid(slot)
    requires at + n <= SlotOffset(slot) || SlotOffset(slot) + SLOT_SIZE <= at
    ensures SlotBytes(after, slot) == SlotBytes(before, slot)
    ensures Bootable(after, slot) == Bootable(before, slot)
  {
    hide ImageValid;
    assert SlotBytes(after, slot) == SlotBytes(before, slot);
  }

  /** The application RAM an image is copied to. */
  class Ram {
    const cells: array<byte>
    /** False for memory that may not keep what is written. */
    const sound: bool

    ghost predicate Valid() {
      cells.Length == PAYLOAD_CAPACITY
    }

    constructor (sound: bool)
      ensures Valid() && this.sound == sound && fresh(cells)
    {
      cells := new byte[PAYLOAD_CAPACITY];
      this.sound := sound;
    }

    /** copy_payload */
    method CopyPayload(payload: Bytes)
      requires Valid() && |payload| <= PAYLOAD_CAPACITY
      modifies cells
      ensures sound ==> cells[..|payload|] == payload
    {
      for index := 0 to |payload|
        invariant sound ==> cells[..index] == payload[..index]
      {
        var kept: byte := *;
        cells[index] := if sound then payload[index] else kept;
      }
      assert payload[..|payload|] == payload;
    }
  }

  /** payload_hash_is_valid: the payload hashed in one piece. */
  method PayloadHashIsValid(manifest: Bytes, payload: Bytes) returns (valid: bool)
    requires |manifest| == HEADER_SIZE && |payload| <= PAYLOAD_CAPACITY
    ensures valid == (Sha256Spec.Hash(payload) == ImageHash(manifest))
  {
    hide Sha256Spec.Hash;
    var context := new Sha256.Context();
    context.Update(payload);
    assert [] + payload == payload;
    var digest := context.Final();
    valid := BytesEqual(digest, ImageHash(manifest));
  }

  method ManifestIsValid(manifest: Bytes) returns (valid: bool)
    requires |manifest| == HEADER_SIZE
    ensures valid == ManifestValid(manifest)
  {
    hide Crc.Crc32, Word32, Word16;
    var expectedCrc := Crc.Compute(manifest[..HEADER_CRC_OFFSET]);
    valid := Word32(manifest, 0) == IMAGE_MAGIC
      && Word16(manifest, 4) == IMAGE_FORMAT_VERSION
      && Word16(manifest, 6) == MANIFEST_SIZE
      && Word32(manifest, 20) == IMAGE_BOARD
      && Word32(manifest, 12) == LOAD_ADDRESS
      && Word32(manifest, 16) == 0
      && 8 <= ImageSize(manifest) <= PAYLOAD_CAPACITY
      && Word32(manifest, HEADER_CRC_OFFSET) == expectedCrc;
  }

  /** RAM starts with an image of the size and hash the manifest names. */
  predicate Loaded(ram: Bytes, manifest: Bytes)
    requires |manifest| == HEADER_SIZE
  {
    ImageSize(manifest) <= |ram| && Sha256Spec.Hash(ram[..ImageSize(manifest)]) == ImageHash(manifest)
  }

  predicate Copied(mem: Bytes, slot: uint8, ram: Bytes)
    requires |mem| == FLASH_SIZE
  {
    SlotValid(slot) && Loaded(ram, Manifest(SlotBytes(mem, slot)))
  }

  /** try_slot_address behind load_slot: the slot is read in place. */
  method LoadSlot(nor: Flash, ram: Ram, slot: uint8) returns (status: SlotStatus)
    requires nor.Valid() && ram.Valid()
    modifies ram.cells
    ensures status == SlotInvalid <==> !Bootable(nor.mem, slot)
    ensures ram.sound ==> status != CopyFailed
    ensures status == SlotOk ==> Copied(nor.mem, slot, ram.cells[..])
  {
    hide Sha256Spec.Hash, VectorsValid, ManifestValid, Word32;
    if !SlotValid(slot) { return SlotInvalid; }
    var image := SlotBytes(nor.mem, slot);
    var manifest := Manifest(image);
    var manifestOk := ManifestIsValid(manifest);
    ManifestSize(manifest);
    if !manifestOk { return SlotInvalid; }
    if !VectorsValid(ImageSize(manifest), Vectors(image)) { return SlotInvalid; }
    var payload := Payload(image, ImageSize(manifest));
    var sourceOk := PayloadHashIsValid(manifest, payload);
    if !sourceOk { return SlotInvalid; }
    ram.CopyPayload(payload);
    assert ram.cells[..][..ImageSize(manifest)] == ram.cells[..ImageSize(manifest)];
    var copyOk := PayloadHashIsValid(manifest, ram.cells[..ImageSize(manifest)]);
    if !copyOk { return CopyFailed; }
    return SlotOk;
  }

  lemma ManifestSize(manifest: Bytes)
    requires |manifest| == HEADER_SIZE
    ensures ManifestValid(manifest) ==> 8 <= ImageSize(manifest) <= PAYLOAD_CAPACITY
  {}
}
