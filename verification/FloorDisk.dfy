/**
  The file of the committed floor as runs see it: what its two slots read as, now and were the
  file zero-extended, and what a write of one slot leaves, completed or interrupted.
 */
module FloorDisk {
  import opened CommittedFloor
  import opened Options

  type File = Option<Bytes>

  // ---------------------------------------------------------------- the file's slots, in bytes

  /** The bytes of a slot, zero where the file ends. */
  function SlotBytes(file: File, k: Slot): (frame: Bytes)
    ensures |frame| == FRAME_BYTES
  {
    Resized(BytesOf(file), FILE_BYTES)[k * FRAME_BYTES..(k + 1) * FRAME_BYTES]
  }

  /** The file holds all bytes of the slot. */
  predicate WholeSlot(file: File, k: Slot) {
    |BytesOf(file)| >= (k + 1) * FRAME_BYTES
  }

  /** The file after one whole slot is written. */
  function WithSlot(file: File, k: Slot, frame: Bytes): File {
    Some(Saved(BytesOf(file), k, frame))
  }

  lemma WithSlotBytes(file: File, k: Slot, frame: Bytes)
    requires |frame| == FRAME_BYTES
    ensures SlotBytes(WithSlot(file, k, frame), k) == frame
    ensures SlotBytes(WithSlot(file, k, frame), 1 - k) == SlotBytes(file, 1 - k)
  {
    var after := Saved(BytesOf(file), k, frame);
    assert Resized(after, FILE_BYTES) == after;
    SavedSlot(BytesOf(file), k, frame);
    if k == 0 {
      SavedTail(BytesOf(file), frame);
    } else {
      SavedHead(BytesOf(file), frame);
    }
  }

  /** A write of a slot that reached the disk in part: the other slot's bytes are as they were, and no
      byte the file held of its full length is gone. */
  predicate Interrupted(file: File, k: Slot, left: File) {
    && SlotBytes(left, 1 - k) == SlotBytes(file, 1 - k)
    && (|BytesOf(left)| >= |BytesOf(file)| || |BytesOf(left)| >= FILE_BYTES)
  }

  /** The file with the bytes it holds of a whole slot zero, as long as it was. */
  function Blotted(file: File, k: Slot): (left: File)
    ensures |BytesOf(left)| == |BytesOf(file)|
  {
    if !WholeSlot(file, k) then file
    else Some(file.value[..k * FRAME_BYTES] + Zeros(FRAME_BYTES) + file.value[(k + 1) * FRAME_BYTES..])
  }

  lemma BlottedBytes(file: File, k: Slot)
    ensures WholeSlot(file, k) ==> SlotBytes(Blotted(file, k), k)[0] == 0
    ensures SlotBytes(Blotted(file, k), 1 - k) == SlotBytes(file, 1 - k)
  {
    if WholeSlot(file, k) {
      var left, was := Resized(Blotted(file, k).value, FILE_BYTES), Resized(file.value, FILE_BYTES);
      assert left[k * FRAME_BYTES] == 0;
      assert forall i :: (1 - k) * FRAME_BYTES <= i < (2 - k) * FRAME_BYTES ==> left[i] == was[i];
    }
  }

  /** The file zero-extended, or cut, to its full length. */
  function Full(file: File): File {
    Some(Resized(BytesOf(file), FILE_BYTES))
  }

  lemma FullBytes(file: File, k: Slot)
    ensures SlotBytes(Full(file), k) == SlotBytes(file, k) && WholeSlot(Full(file), k)
  {
  }

  // ---------------------------------------------------------------- the disk

  /** What runs ask of a file: the frame of a slot zero-extended, whether the slot is whole, a completed
      write and what an interrupted one can leave, two of which are the slot blotted out and the file at
      its full length. */
  datatype Disk = Disk(
    extended: (File, Slot) -> Option<nat>,
    whole: (File, Slot) -> bool,
    written: (File, Slot, nat) -> File,
    torn: (File, Slot, File) -> bool,
    blotted: (File, Slot) -> File,
    full: File -> File)

  /** The disk whose frames carry this hash. */
  function DiskOf(hash: Hash): Disk {
    Disk((file: File, k: Slot) => Decode(hash, SlotBytes(file, k)),
         WholeSlot,
         (file: File, k: Slot, floor: nat) => WithSlot(file, k, Encode(hash, floor)),
         Interrupted,
         Blotted,
         Full)
  }

  /** What a slot reads as. */
  function Reading(d: Disk, file: File, k: Slot): Option<nat> {
    if d.whole(file, k) then d.extended(file, k) else None
  }

  ghost predicate WritesLawfully(d: Disk) {
    forall file: File, k: Slot, floor: nat | floor < Pow256(8) ::
      var after := d.written(file, k, floor);
      && d.torn(file, k, after)
      && d.extended(after, k) == Some(floor)
      && d.extended(after, 1 - k) == d.extended(file, 1 - k)
      && d.whole(after, k)
      && d.whole(after, 1 - k)
  }

  ghost predicate TearsLawfully(d: Disk) {
    && (forall file: File, k: Slot :: d.torn(file, k, file))
    && (forall file: File, k: Slot, left: File | d.torn(file, k, left) ::
          && d.extended(left, 1 - k) == d.extended(file, 1 - k)
          && (d.whole(file, 1 - k) ==> d.whole(left, 1 - k)))
  }

  ghost predicate BlotsLawfully(d: Disk) {
    forall file: File, k: Slot ::
      var left := d.blotted(file, k);
      && d.torn(file, k, left)
      && Reading(d, left, k) == None
      && (d.extended(left, k) == None || d.extended(left, k) == d.extended(file, k))
      && d.whole(left, 1 - k) == d.whole(file, 1 - k)
  }

  ghost predicate FillsLawfully(d: Disk) {
    && (forall file: File, k: Slot :: d.torn(file, k, d.full(file)))
    && (forall file: File, k: Slot ::
          d.whole(d.full(file), k) && d.extended(d.full(file), k) == d.extended(file, k))
    && (forall file: File :: !d.whole(file, 0) ==> d.extended(file, 1) == None)
    && (forall k: Slot :: d.extended(None, k) == None)
  }

  ghost predicate Lawful(d: Disk) {
    WritesLawfully(d) && TearsLawfully(d) && BlotsLawfully(d) && FillsLawfully(d)
  }

  lemma DiskWritesLawfully(hash: Hash)
    requires Wide(hash)
    ensures WritesLawfully(DiskOf(hash))
  {
    forall file: File, k: Slot, floor: nat | floor < Pow256(8)
      ensures var after := WithSlot(file, k, Encode(hash, floor));
              && SlotBytes(after, k) == Encode(hash, floor) && SlotBytes(after, 1 - k) == SlotBytes(file, 1 - k)
              && Decode(hash, Encode(hash, floor)) == Some(floor)
    {
      FrameRoundTrip(hash, floor);
      WithSlotBytes(file, k, Encode(hash, floor));
    }
  }

  lemma DiskBlotsLawfully(hash: Hash)
    ensures BlotsLawfully(DiskOf(hash))
  {
    forall file: File, k: Slot
      ensures var left := Blotted(file, k);
              && SlotBytes(left, 1 - k) == SlotBytes(file, 1 - k)
              && (WholeSlot(left, k) ==> Decode(hash, SlotBytes(left, k)) == None)
    {
      BlottedBytes(file, k);
      if WholeSlot(file, k) {
        ZerosHoldNoFloor(hash, SlotBytes(Blotted(file, k), k));
      }
    }
  }

  lemma PastTheEndIsNoFrame(hash: Hash, file: File, k: Slot)
    requires |BytesOf(file)| <= k * FRAME_BYTES
    ensures Decode(hash, SlotBytes(file, k)) == None
  {
    assert SlotBytes(file, k)[0] == 0;
    ZerosHoldNoFloor(hash, SlotBytes(file, k));
  }

  lemma DiskFillsLawfully(hash: Hash)
    ensures FillsLawfully(DiskOf(hash))
  {
    forall file: File, k: Slot ensures SlotBytes(Full(file), k) == SlotBytes(file, k) {
      FullBytes(file, k);
    }
    forall file: File | !WholeSlot(file, 0) ensures Decode(hash, SlotBytes(file, 1)) == None {
      PastTheEndIsNoFrame(hash, file, 1);
    }
    forall k: Slot ensures Decode(hash, SlotBytes(None, k)) == None {
      PastTheEndIsNoFrame(hash, None, k);
    }
  }

  lemma DiskIsLawful(hash: Hash)
    requires Wide(hash)
    ensures Lawful(DiskOf(hash))
  {
    DiskWritesLawfully(hash);
    DiskBlotsLawfully(hash);
    DiskFillsLawfully(hash);
  }

  /** What both slots read as. */
  function Readings(d: Disk, file: File): Slots {
    Slots(Reading(d, file, 0), Reading(d, file, 1))
  }

  lemma ReadingIsReadFrame(hash: Hash, file: File, k: Slot)
    ensures Reading(DiskOf(hash), file, k) == ReadFrame(hash, BytesOf(file), k)
  {
    if WholeSlot(file, k) {
      ResizedKeeps(BytesOf(file), FILE_BYTES, k * FRAME_BYTES, (k + 1) * FRAME_BYTES);
    }
  }

  /** They are what the code's own reader makes of the file. */
  lemma ViewIsReadings(hash: Hash, file: File)
    ensures ViewOf(hash, file) == Readings(DiskOf(hash), file)
  {
    ReadingIsReadFrame(hash, file, 0);
    ReadingIsReadFrame(hash, file, 1);
  }
}
