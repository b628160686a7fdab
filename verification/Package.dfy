/** build_slot_image of open_image.py: the host packs exactly what the bootloader
    accepts. */
module Package {
  import opened Words
  import opened BootState
  import opened Nor
  import opened Image
  import Crc
  import Sha256Spec

  /** The manifest up to its CRC. */
  function Prefix(size: uint32, version: uint32, build: uint32, digest: Bytes): (b: Bytes)
    requires |digest| == Sha256Spec.DIGEST
    ensures |b| == HEADER_CRC_OFFSET
  {
    Le(IMAGE_MAGIC, 4) + Le(IMAGE_FORMAT_VERSION, 2) + Le(MANIFEST_SIZE, 2) + Le(size, 4)
    + Le(LOAD_ADDRESS, 4) + Le(0, 4) + Le(IMAGE_BOARD, 4) + Le(version, 4) + Le(build, 4) + digest
  }

  function Header(size: uint32, version: uint32, build: uint32, digest: Bytes): (b: Bytes)
    requires |digest| == Sha256Spec.DIGEST
    ensures |b| == HEADER_SIZE
  {
    Prefix(size, version, build, digest) + Le(Crc.Crc32(Prefix(size, version, build, digest)), 4)
  }

  /** build_slot_image for a payload that is not empty and fits, or nothing. */
  function BuildSlotImage(payload: Bytes, version: uint32, build: uint32): (image: Option<Bytes>)
    ensures image.Some? <==> 0 < |payload| <= PAYLOAD_CAPACITY
    ensures image.Some? ==> |image.value| == MANIFEST_SIZE + |payload|
  {
    if payload == [] || |payload| > PAYLOAD_CAPACITY then None
    else
      var header := Header(|payload|, version, build, Sha256Spec.Hash(payload));
      Some(header + Filled(MANIFEST_SIZE - HEADER_SIZE, 0xFF) + payload)
  }

  /** Every field is where the bootloader looks for it. */
  lemma HeaderFields(size: uint32, version: uint32, build: uint32, digest: Bytes)
    requires |digest| == Sha256Spec.DIGEST
    ensures var m := Header(size, version, build, digest);
      && Word32(m, 0) == IMAGE_MAGIC && Word16(m, 4) == IMAGE_FORMAT_VERSION && Word16(m, 6) == MANIFEST_SIZE
      && Word32(m, 8) == size && Word32(m, 12) == LOAD_ADDRESS && Word32(m, 16) == 0 && Word32(m, 20) == IMAGE_BOARD
      && m[HASH_OFFSET..HEADER_CRC_OFFSET] == digest
      && Word32(m, HEADER_CRC_OFFSET) == Crc.Crc32(m[..HEADER_CRC_OFFSET])
  {
    hide Le, FromLe, Word32, Word16, Crc.Crc32;
    var p, m := Prefix(size, version, build, digest), Header(size, version, build, digest);
    assert p[0..4] == Le(IMAGE_MAGIC, 4);
    assert p[4..6] == Le(IMAGE_FORMAT_VERSION, 2);
    assert p[6..8] == Le(MANIFEST_SIZE, 2);
    assert p[8..12] == Le(size, 4);
    assert p[12..16] == Le(LOAD_ADDRESS, 4);
    assert p[16..20] == Le(0, 4);
    assert p[20..24] == Le(IMAGE_BOARD, 4);
    assert p[32..64] == digest;
    hide Prefix;
    HeaderWords(p, m, size);
    assert m[32..64] == p[32..64];
  }

  lemma HeaderWords(p: Bytes, m: Bytes, size: uint32)
    requires |p| == HEADER_CRC_OFFSET && m == p + Le(Crc.Crc32(p), 4)
    requires p[0..4] == Le(IMAGE_MAGIC, 4) && p[4..6] == Le(IMAGE_FORMAT_VERSION, 2) && p[6..8] == Le(MANIFEST_SIZE, 2)
    requires p[8..12] == Le(size, 4) && p[12..16] == Le(LOAD_ADDRESS, 4) && p[16..20] == Le(0, 4) && p[20..24] == Le(IMAGE_BOARD, 4)
    ensures Word32(m, 0) == IMAGE_MAGIC && Word16(m, 4) == IMAGE_FORMAT_VERSION && Word16(m, 6) == MANIFEST_SIZE
    ensures Word32(m, 8) == size && Word32(m, 12) == LOAD_ADDRESS && Word32(m, 16) == 0 && Word32(m, 20) == IMAGE_BOARD
    ensures Word32(m, HEADER_CRC_OFFSET) == Crc.Crc32(m[..HEADER_CRC_OFFSET])
  {
    hide Le, FromLe, Word32, Word16, Crc.Crc32;
    assert m[..HEADER_CRC_OFFSET] == p;
    assert m[0..4] == p[0..4]; Field32(m, 0, IMAGE_MAGIC);
    assert m[4..6] == p[4..6]; Field16(m, 4, IMAGE_FORMAT_VERSION);
    assert m[6..8] == p[6..8]; Field16(m, 6, MANIFEST_SIZE);
    assert m[8..12] == p[8..12]; Field32(m, 8, size);
    assert m[12..16] == p[12..16]; Field32(m, 12, LOAD_ADDRESS);
    assert m[16..20] == p[16..20]; Field32(m, 16, 0);
    assert m[20..24] == p[20..24]; Field32(m, 20, IMAGE_BOARD);
    assert m[64..68] == Le(Crc.Crc32(p), 4); Field32(m, 64, Crc.Crc32(p));
  }

  /** A slot that starts with a packed image boots exactly when the payload is long
      enough for its two vectors and they are valid. */
  lemma PackedImageBoots(payload: Bytes, version: uint32, build: uint32, slot: Bytes)
    requires |slot| == SLOT_SIZE && BuildSlotImage(payload, version, build).Some?
    requires BuildSlotImage(payload, version, build).value <= slot
    ensures ImageValid(slot) <==> |payload| >= 8 && VectorsValid(|payload|, payload[..8])
  {
    hide Header, VectorsValid, Sha256Spec.Hash, Crc.Crc32, Word32, Word16;
    var size, digest := |payload|, Sha256Spec.Hash(payload);
    var image := BuildSlotImage(payload, version, build).value;
    var header := Header(size, version, build, digest);
    HeaderFields(size, version, build, digest);
    assert slot[..|image|] == image;
    assert Manifest(slot) == image[..HEADER_SIZE] == header;
    assert slot[MANIFEST_SIZE..MANIFEST_SIZE + size] == image[MANIFEST_SIZE..] == payload;
    if size >= 8 { assert Vectors(slot) == payload[..8]; }
  }

  /** The manifest of a packed image says how long the payload is. */
  lemma PackedSize(payload: Bytes, version: uint32, build: uint32, slot: Bytes)
    requires |slot| == SLOT_SIZE && BuildSlotImage(payload, version, build).Some?
    requires BuildSlotImage(payload, version, build).value <= slot
    ensures ImageSize(Manifest(slot)) == |payload|
  {
    hide Header, Sha256Spec.Hash, Crc.Crc32, Word32, Word16;
    var digest := Sha256Spec.Hash(payload);
    HeaderFields(|payload|, version, build, digest);
    assert Manifest(slot) == BuildSlotImage(payload, version, build).value[..HEADER_SIZE] == Header(|payload|, version, build, digest);
  }

  /** The smallest application: a stack pointer and a reset handler. */
  function Vectors8(): (b: Bytes)
    ensures |b| == 8
  {
    Le(DTCM_END, 4) + Le(LOAD_ADDRESS + 1, 4)
  }

  lemma SmallestImageIsValid(slot: Bytes)
    requires |slot| == SLOT_SIZE && BuildSlotImage(Vectors8(), 0, 0).value <= slot
    ensures ImageValid(slot)
  {
    hide Le, Sha256Spec.Hash, Crc.Crc32, Word32, ImageValid, BuildSlotImage;
    var v := Vectors8();
    assert v[0..4] == Le(DTCM_END, 4); Field32(v, 0, DTCM_END);
    assert v[4..8] == Le(LOAD_ADDRESS + 1, 4); Field32(v, 4, LOAD_ADDRESS + 1);
    assert v[..8] == v;
    PackedImageBoots(v, 0, 0, slot);
  }

  // ---- What the bootloader accepts is what the host packs ----

  /** A header whose fields all pass is the packed one, byte for byte. */
  lemma PassingIsPacked(m: Bytes)
    requires |m| == HEADER_SIZE && ManifestValid(m)
    ensures m == Header(ImageSize(m), Word32(m, 24), Word32(m, 28), m[32..64])
  {
    hide Le, FromLe, Crc.Crc32;
    var size, version, build, digest := ImageSize(m), Word32(m, 24), Word32(m, 28), m[32..64];
    FieldIs(m, 0, 4); FieldIs(m, 4, 2); FieldIs(m, 6, 2); FieldIs(m, 8, 4);
    FieldIs(m, 12, 4); FieldIs(m, 16, 4); FieldIs(m, 20, 4); FieldIs(m, 24, 4);
    FieldIs(m, 28, 4); FieldIs(m, 64, 4);
    var p := Prefix(size, version, build, digest);
    assert p == m[0..4] + m[4..6] + m[6..8] + m[8..12] + m[12..16] + m[16..20] + m[20..24] + m[24..28] + m[28..32] + m[32..64];
    Join(m, 0, 4, 6); Join(m, 0, 6, 8); Join(m, 0, 8, 12); Join(m, 0, 12, 16);
    Join(m, 0, 16, 20); Join(m, 0, 20, 24); Join(m, 0, 24, 28); Join(m, 0, 28, 32); Join(m, 0, 32, 64);
    assert p == m[0..64] == m[..64];
    assert m == m[..64] + m[64..68];
  }

  /** The manifest check in the host's terms: the header is exactly the packed one
      for its own size, version, build and digest, and the size is in range. */
  lemma ManifestValidIsPacked(m: Bytes)
    requires |m| == HEADER_SIZE
    ensures ManifestValid(m) <==>
      8 <= ImageSize(m) <= PAYLOAD_CAPACITY && m == Header(ImageSize(m), Word32(m, 24), Word32(m, 28), m[32..64])
  {
    if ManifestValid(m) {
      PassingIsPacked(m);
    } else {
      hide Header, Word32, Word16, Crc.Crc32;
      HeaderFields(ImageSize(m), Word32(m, 24), Word32(m, 28), m[32..64]);
    }
  }

  /** Two packed vectors: a stack of whole double words inside DTCM, and the odd
      address of an instruction inside the loaded image. */
  ghost predicate PackedVectors(size: nat, vectors: Bytes, stack: nat, entry: nat) {
    && DTCM_START <= 8 * stack <= DTCM_END && LOAD_ADDRESS <= 2 * entry < LOAD_ADDRESS + size
    && vectors == Le(8 * stack, 4) + Le(2 * entry + 1, 4)
  }

  lemma VectorsValidArePacked(size: uint32, vectors: Bytes)
    requires |vectors| == 8 && size <= PAYLOAD_CAPACITY
    ensures VectorsValid(size, vectors) <==> exists stack, entry :: PackedVectors(size, vectors, stack, entry)
  {
    hide Le, FromLe;
    FieldIs(vectors, 0, 4);
    FieldIs(vectors, 4, 4);
    assert vectors == vectors[0..4] + vectors[4..8];
    var sp, reset := Word32(vectors, 0), Word32(vectors, 4);
    if VectorsValid(size, vectors) {
      assert PackedVectors(size, vectors, sp / 8, reset / 2);
    }
    if stack: nat, entry: nat :| PackedVectors(size, vectors, stack, entry) {
      assert vectors[0..4] == Le(8 * stack, 4) && vectors[4..8] == Le(2 * entry + 1, 4);
      Field32(vectors, 0, 8 * stack);
      Field32(vectors, 4, 2 * entry + 1);
    }
  }

  /** What boots, in the host's terms: a slot boots exactly when its header is the
      packed one for the payload that follows, digest included, and the payload
      begins with packed vectors. Only the padding between them is free. */
  lemma BootableIsPacked(slot: Bytes)
    requires |slot| == SLOT_SIZE
    ensures var m := Manifest(slot); var size := ImageSize(m);
      ImageValid(slot) <==>
        && 8 <= size <= PAYLOAD_CAPACITY
        && m == Header(size, Word32(m, 24), Word32(m, 28), Sha256Spec.Hash(Payload(slot, size)))
        && exists stack, entry :: PackedVectors(size, Vectors(slot), stack, entry)
  {
    hide Header, VectorsValid, ManifestValid, PackedVectors, Sha256Spec.Hash, Word32, ImageSize;
    var m := Manifest(slot);
    var size := ImageSize(m);
    ManifestValidIsPacked(m);
    if 8 <= size <= PAYLOAD_CAPACITY {
      VectorsValidArePacked(size, Vectors(slot));
      var digest := Sha256Spec.Hash(Payload(slot, size));
      HeaderDigest(size, Word32(m, 24), Word32(m, 28), digest);
    }
  }

  lemma HeaderDigest(size: uint32, version: uint32, build: uint32, digest: Bytes)
    requires |digest| == Sha256Spec.DIGEST
    ensures Header(size, version, build, digest)[HASH_OFFSET..HEADER_CRC_OFFSET] == digest
  {
    hide Word32, Word16;
    HeaderFields(size, version, build, digest);
  }
}
