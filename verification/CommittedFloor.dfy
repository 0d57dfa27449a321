/**
  The on-disk committed floor of `committed_floor.rs`: two checksummed frames in one
  file, each save writing the slot that does not hold the newest floor, so that a
  write torn by a crash never costs the floor already promised.

  BLAKE3 is a function parameter of which only the 32-byte width is used. The file is
  its byte sequence; a failed or interrupted write leaves what the caller says.
 */
module CommittedFloor {
  import opened Options

  type u8 = x: int | 0 <= x < 256
  type Bytes = seq<u8>
  type Hash = Bytes -> Bytes

  ghost predicate Wide(hash: Hash) {
    forall p: Bytes :: |hash(p)| == 32
  }

  // ---------------------------------------------------------------- big-endian integers

  function Pow256(width: nat): nat {
    if width == 0 then 1 else 256 * Pow256(width - 1)
  }

  function ToBe(n: nat, width: nat): (bytes: Bytes)
    ensures |bytes| == width
  {
    if width == 0 then [] else ToBe(n / 256, width - 1) + [n % 256]
  }

  function FromBe(bytes: Bytes): nat {
    if bytes == [] then 0 else 256 * FromBe(bytes[..|bytes| - 1]) + bytes[|bytes| - 1]
  }

  lemma {:induction false} BigEndianRoundTrip(n: nat, width: nat)
    requires n < Pow256(width)
    ensures FromBe(ToBe(n, width)) == n
  {
    if width > 0 {
      BigEndianRoundTrip(n / 256, width - 1);
      assert ToBe(n, width)[..width - 1] == ToBe(n / 256, width - 1);
    }
  }

  /** The most significant bytes come first. */
  lemma {:induction false} EarlierBytesWeighMore(high: Bytes, low: Bytes)
    ensures FromBe(high + low) == FromBe(high) * Pow256(|low|) + FromBe(low)
    decreases |low|
  {
    if low == [] {
      assert high + low == high;
    } else {
      var n := |low| - 1;
      EarlierBytesWeighMore(high, low[..n]);
      var all := high + low;
      assert all[..|all| - 1] == high + low[..n] && all[|all| - 1] == low[n];
      assert FromBe(all) == 256 * FromBe(high + low[..n]) + low[n];
      Weighed(FromBe(high), Pow256(n), FromBe(low[..n]), low[n]);
    }
  }

  lemma Weighed(x: nat, p: nat, y: nat, b: nat)
    ensures 256 * (x * p + y) + b == x * (256 * p) + (256 * y + b)
  {
    assert x * (256 * p) == 256 * (x * p);
  }

  lemma {:induction false} BigEndianIsUnique(bytes: Bytes)
    ensures FromBe(bytes) < Pow256(|bytes|) && ToBe(FromBe(bytes), |bytes|) == bytes
  {
    if bytes != [] {
      var n := |bytes| - 1;
      BigEndianIsUnique(bytes[..n]);
      assert FromBe(bytes) / 256 == FromBe(bytes[..n]) && FromBe(bytes) % 256 == bytes[n];
      assert bytes == bytes[..n] + [bytes[n]];
    }
  }

  // ---------------------------------------------------------------- frames

  const MAGIC: Bytes := [86, 84, 79, 80, 70, 76, 82, 49]
  const VERSION: nat := 1
  const PAYLOAD_BYTES: nat := 20
  const FRAME_BYTES: nat := 52
  const FILE_BYTES: nat := 104

  type Slot = x: int | 0 <= x < 2

  function Payload(floor: nat): (p: Bytes)
    ensures |p| == PAYLOAD_BYTES
  {
    MAGIC + ToBe(VERSION, 4) + ToBe(floor, 8)
  }

  function Encode(hash: Hash, floor: nat): Bytes {
    Payload(floor) + hash(Payload(floor))
  }

  /** A frame's floor, or nothing when any of checksum, magic or version is wrong. */
  function Decode(hash: Hash, frame: Bytes): Option<nat>
    requires |frame| == FRAME_BYTES
  {
    var payload, checksum := frame[..PAYLOAD_BYTES], frame[PAYLOAD_BYTES..];
    if hash(payload) != checksum then None
    else if payload[..8] != MAGIC then None
    else if FromBe(payload[8..12]) != VERSION then None
    else Some(FromBe(payload[12..20]))
  }

  function ReadFrame(hash: Hash, bytes: Bytes, slot: Slot): Option<nat> {
    if |bytes| < slot * FRAME_BYTES + FRAME_BYTES then None
    else Decode(hash, bytes[slot * FRAME_BYTES..slot * FRAME_BYTES + FRAME_BYTES])
  }

  lemma PayloadParts(floor: nat)
    ensures Payload(floor)[..8] == MAGIC && Payload(floor)[8..12] == ToBe(VERSION, 4)
        && Payload(floor)[12..20] == ToBe(floor, 8)
  {
  }

  /** A frame reads back as the floor it was made from. */
  lemma FrameRoundTrip(hash: Hash, floor: nat)
    requires Wide(hash) && floor < Pow256(8)
    ensures |Encode(hash, floor)| == FRAME_BYTES && Decode(hash, Encode(hash, floor)) == Some(floor)
  {
    var frame := Encode(hash, floor);
    assert frame[..PAYLOAD_BYTES] == Payload(floor) && frame[PAYLOAD_BYTES..] == hash(Payload(floor));
    PayloadParts(floor);
    BigEndianRoundTrip(VERSION, 4);
    BigEndianRoundTrip(floor, 8);
  }

  /** A frame is the magic, the version and the floor, each most significant byte first, and the payload's
      hash. */
  lemma FrameLayout(hash: Hash, floor: nat)
    requires Wide(hash) && floor < Pow256(8)
    ensures var frame := Encode(hash, floor);
            && |frame| == FRAME_BYTES && frame[..8] == MAGIC && frame[8..12] == [0, 0, 0, 1]
            && FromBe(frame[12..20]) == floor && frame[PAYLOAD_BYTES..] == hash(frame[..PAYLOAD_BYTES])
  {
    var frame := Encode(hash, floor);
    PayloadParts(floor);
    BigEndianRoundTrip(floor, 8);
    assert frame[..PAYLOAD_BYTES] == Payload(floor);
    assert frame[..8] == Payload(floor)[..8] && frame[8..12] == Payload(floor)[8..12];
    assert frame[12..20] == Payload(floor)[12..20];
    VersionBytes();
  }

  lemma VersionBytes()
    ensures ToBe(VERSION, 4) == [0, 0, 0, 1]
  {
    assert ToBe(0, 0) == [] && ToBe(0, 1) == [0] && ToBe(0, 2) == [0, 0] && ToBe(0, 3) == [0, 0, 0];
  }

  /** Bytes whose payload carries the magic and the version are the payload of the floor they hold. */
  lemma PayloadIsUnique(payload: Bytes)
    requires |payload| == PAYLOAD_BYTES && payload[..8] == MAGIC && FromBe(payload[8..12]) == VERSION
    ensures FromBe(payload[12..20]) < Pow256(8) && payload == Payload(FromBe(payload[12..20]))
  {
    BigEndianIsUnique(payload[8..12]);
    BigEndianIsUnique(payload[12..20]);
    assert payload == payload[..8] + payload[8..12] + payload[12..20];
  }

  /** A frame reads as a floor exactly when it is, byte for byte, the frame of that floor: one with any
      other checksum, magic or version reads as none. */
  lemma ReadsExactlyItsOwnFrames(hash: Hash, frame: Bytes, floor: nat)
    requires Wide(hash) && |frame| == FRAME_BYTES
    ensures Decode(hash, frame) == Some(floor) <==> floor < Pow256(8) && frame == Encode(hash, floor)
  {
    if Decode(hash, frame) == Some(floor) {
      var payload := frame[..PAYLOAD_BYTES];
      assert payload[..8] == MAGIC && FromBe(payload[8..12]) == VERSION;
      PayloadIsUnique(payload);
      assert frame == payload + frame[PAYLOAD_BYTES..];
    }
    if floor < Pow256(8) && frame == Encode(hash, floor) {
      FrameRoundTrip(hash, floor);
    }
  }

  /** Zero fill is never mistaken for a floor, whatever the hash. */
  lemma ZerosHoldNoFloor(hash: Hash, frame: Bytes)
    requires |frame| == FRAME_BYTES && frame[0] == 0
    ensures Decode(hash, frame) == None
  {
    assert frame[..PAYLOAD_BYTES][..8][0] == 0;
  }

  // ---------------------------------------------------------------- one write

  function Zeros(n: nat): (z: Bytes)
    ensures |z| == n
    ensures forall i :: 0 <= i < n ==> z[i] == 0
  {
    if n == 0 then [] else Zeros(n - 1) + [0]
  }

  /** A file cut or zero-extended to a length. */
  function Resized(file: Bytes, length: nat): (r: Bytes)
    ensures |r| == length
  {
    if length <= |file| then file[..length] else file + Zeros(length - |file|)
  }

  /** Bytes written at an offset, the gap before it, if any, zero. */
  function WrittenAt(file: Bytes, offset: nat, bytes: Bytes): (r: Bytes)
    ensures |r| == if |file| < offset + |bytes| then offset + |bytes| else |file|
  {
    var base := if |file| < offset + |bytes| then Resized(file, offset + |bytes|) else file;
    base[..offset] + bytes + base[offset + |bytes|..]
  }

  function Saved(file: Bytes, slot: Slot, frame: Bytes): (r: Bytes)
    ensures |r| == FILE_BYTES
  {
    Resized(WrittenAt(file, slot * FRAME_BYTES, frame), FILE_BYTES)
  }

  lemma ResizedKeeps(file: Bytes, length: nat, lo: nat, hi: nat)
    requires lo <= hi <= length && hi <= |file|
    ensures Resized(file, length)[lo..hi] == file[lo..hi]
  {
  }

  lemma WrittenThere(file: Bytes, offset: nat, bytes: Bytes)
    ensures WrittenAt(file, offset, bytes)[offset..offset + |bytes|] == bytes
  {
  }

  lemma WrittenElsewhere(file: Bytes, offset: nat, bytes: Bytes, lo: nat, hi: nat)
    requires lo <= hi <= |file| && (hi <= offset || offset + |bytes| <= lo)
    ensures WrittenAt(file, offset, bytes)[lo..hi] == file[lo..hi]
  {
    var end := offset + |bytes|;
    var base := if |file| < end then Resized(file, end) else file;
    assert base[lo..hi] == file[lo..hi];
    forall i | lo <= i < hi ensures WrittenAt(file, offset, bytes)[i] == base[i] {
    }
  }

  lemma SavedSlot(file: Bytes, slot: Slot, frame: Bytes)
    requires |frame| == FRAME_BYTES
    ensures Saved(file, slot, frame)[slot * FRAME_BYTES..slot * FRAME_BYTES + FRAME_BYTES] == frame
  {
    var at := slot * FRAME_BYTES;
    WrittenThere(file, at, frame);
    ResizedKeeps(WrittenAt(file, at, frame), FILE_BYTES, at, at + FRAME_BYTES);
  }

  lemma SavedOther(file: Bytes, slot: Slot, frame: Bytes)
    requires |frame| == FRAME_BYTES
    ensures var at := (1 - slot) * FRAME_BYTES;
            at + FRAME_BYTES <= |file| ==>
              Saved(file, slot, frame)[at..at + FRAME_BYTES] == file[at..at + FRAME_BYTES]
  {
    var at := (1 - slot) * FRAME_BYTES;
    if at + FRAME_BYTES <= |file| {
      WrittenElsewhere(file, slot * FRAME_BYTES, frame, at, at + FRAME_BYTES);
      ResizedKeeps(WrittenAt(file, slot * FRAME_BYTES, frame), FILE_BYTES, at, at + FRAME_BYTES);
    }
  }

  /** A save reads back in its slot and leaves a valid frame in the other untouched. */
  lemma SaveWritesItsSlotOnly(hash: Hash, file: Bytes, slot: Slot, floor: nat)
    requires Wide(hash) && floor < Pow256(8)
    ensures ReadFrame(hash, Saved(file, slot, Encode(hash, floor)), slot) == Some(floor)
    ensures ReadFrame(hash, file, 1 - slot).Some?
            ==> ReadFrame(hash, Saved(file, slot, Encode(hash, floor)), 1 - slot) == ReadFrame(hash, file, 1 - slot)
  {
    FrameRoundTrip(hash, floor);
    SavedSlot(file, slot, Encode(hash, floor));
    SavedOther(file, slot, Encode(hash, floor));
  }

  /** The first save of a new file leaves the other slot empty. */
  lemma FirstSaveLeavesOneFloor(hash: Hash, floor: nat)
    requires Wide(hash) && floor < Pow256(8)
    ensures ReadFrame(hash, Saved([], 0, Encode(hash, floor)), 1) == None
  {
    FrameRoundTrip(hash, floor);
    var file := Saved([], 0, Encode(hash, floor));
    assert file[FRAME_BYTES..FILE_BYTES][0] == 0;
    ZerosHoldNoFloor(hash, file[FRAME_BYTES..FILE_BYTES]);
  }

  // ---------------------------------------------------------------- the two slots and the handle

  datatype Slots = Slots(first: Option<nat>, second: Option<nat>)

  function At(slots: Slots, k: Slot): Option<nat> {
    if k == 0 then slots.first else slots.second
  }

  function Put(slots: Slots, k: Slot, v: Option<nat>): Slots {
    if k == 0 then slots.(first := v) else slots.(second := v)
  }

  function ViewOf(hash: Hash, file: Option<Bytes>): Slots {
    if file == None then Slots(None, None) else Slots(ReadFrame(hash, file.value, 0), ReadFrame(hash, file.value, 1))
  }

  /** The slot of the highest floor, the second on a tie. */
  function Newest(slots: Slots): Option<Slot> {
    if slots.first == None && slots.second == None then None
    else if slots.second == None then Some(0)
    else if slots.first == None || slots.first.value <= slots.second.value then Some(1)
    else Some(0)
  }

  function FloorOf(slots: Slots): nat {
    match Newest(slots)
    case None => 0
    case Some(k) => At(slots, k).value
  }

  function WriteSlot(slots: Slots): Slot {
    match Newest(slots)
    case None => 0
    case Some(k) => 1 - k
  }

  /** An open takes the highest floor there is, zero if there is none, and spares the slot that holds it: the
      second if both do. */
  lemma OpensAtTheHighest(slots: Slots, k: Slot)
    ensures At(slots, k).Some? ==> FloorOf(slots) >= At(slots, k).value
    ensures slots == Slots(None, None) ==> FloorOf(slots) == 0 && WriteSlot(slots) == 0
    ensures slots != Slots(None, None) ==> At(slots, 1 - WriteSlot(slots)) == Some(FloorOf(slots))
    ensures slots.first.Some? && slots.first == slots.second ==> WriteSlot(slots) == 0
  {
  }

  datatype Handle = Handle(last: nat, slot: Slot, poisoned: bool)

  function Opening(slots: Slots): Handle {
    Handle(FloorOf(slots), WriteSlot(slots), false)
  }

  datatype Decision = Refuse | Keep | Write

  function Decide(h: Handle, floor: nat): Decision {
    if h.poisoned || floor < h.last then Refuse else if floor == h.last then Keep else Write
  }

  function Advanced(h: Handle, floor: nat): Handle {
    Handle(floor, 1 - h.slot, false)
  }

  /** What a write finds: an absent file is created empty. */
  function BytesOf(file: Option<Bytes>): Bytes {
    if file == None then [] else file.value
  }

  class CommittedFloorFile {
    const hash: Hash
    var file: Option<Bytes>
    var lastPersisted: nat
    var writeSlot: Slot
    var poisoned: bool

    ghost function State(): Handle
      reads this
    {
      Handle(lastPersisted, writeSlot, poisoned)
    }

    /** `open_in`, on whatever the file holds; a file that cannot be probed or read counts as absent. */
    constructor (hash: Hash, file: Option<Bytes>, readable: bool)
      ensures this.hash == hash && this.file == file
      ensures State() == Opening(if readable then ViewOf(hash, file) else Slots(None, None))
    {
      this.hash := hash;
      this.file := file;
      lastPersisted, writeSlot, poisoned := 0, 0, false;
      new;
      if readable && file.Some? {
        var k := 0;
        var found := false;
        while k < 2
          modifies this
          invariant 0 <= k <= 2 && this.file == file && this.hash == hash && !poisoned
          invariant !found ==> lastPersisted == 0 && writeSlot == 0
          invariant !found ==> (k > 0 ==> ReadFrame(hash, file.value, 0) == None)
                               && (k > 1 ==> ReadFrame(hash, file.value, 1) == None)
          invariant found ==> k > 0
          invariant k == 1 && found ==> ReadFrame(hash, file.value, 0) == Some(lastPersisted) && writeSlot == 1
          invariant k == 2 ==> State() == Opening(ViewOf(hash, file))
        {
          var frame := ReadFrame(hash, file.value, k);
          if frame.Some? && (!found || lastPersisted <= frame.value) {
            found, lastPersisted, writeSlot := true, frame.value, 1 - k;
          }
          k := k + 1;
        }
      }
    }

    /** `save`; when the write does not succeed the file is left as `torn`. */
    method Save(floor: nat, succeeds: bool, torn: Option<Bytes>) returns (ok: bool)
      modifies this
      ensures var h := old(State());
              match Decide(h, floor)
              case Refuse => !ok && State() == h && file == old(file)
              case Keep => ok && State() == h && file == old(file)
              case Write =>
                if succeeds
                then ok && State() == Advanced(h, floor)
                     && file == Some(Saved(BytesOf(old(file)), h.slot, Encode(hash, floor)))
                else !ok && State() == h.(poisoned := true) && file == torn
    {
      if poisoned {
        return false;
      }
      if floor < lastPersisted {
        return false;
      }
      if floor == lastPersisted {
        return true;
      }
      if !succeeds {
        file := torn;
        poisoned := true;
        return false;
      }
      var bytes := BytesOf(file);
      bytes := WrittenAt(bytes, writeSlot * FRAME_BYTES, Encode(hash, floor));
      file := Some(Resized(bytes, FILE_BYTES));
      lastPersisted := floor;
      writeSlot := 1 - writeSlot;
      return true;
    }
  }

  /** Whatever the file holds, the next write starts within it or right at its end. */
  lemma WriteNeverStartsPastTheEnd(hash: Hash, file: Bytes)
    ensures WriteSlot(ViewOf(hash, Some(file))) * FRAME_BYTES <= |file|
  {
  }

  /** What a save of the first slot leaves in the second: what was there, cut or zero-extended. */
  lemma SavedTail(file: Bytes, frame: Bytes)
    requires |frame| == FRAME_BYTES
    ensures Saved(file, 0, frame)[FRAME_BYTES..FILE_BYTES] == Resized(file, FILE_BYTES)[FRAME_BYTES..FILE_BYTES]
  {
    var after, sized := Saved(file, 0, frame), Resized(file, FILE_BYTES);
    forall i | FRAME_BYTES <= i < FILE_BYTES ensures after[i] == sized[i] {
      var written := WrittenAt(file, 0, frame);
      assert i < |written| && i < |file| ==> written[i] == file[i];
    }
  }

  /** And of the second slot in the first. */
  lemma SavedHead(file: Bytes, frame: Bytes)
    requires |frame| == FRAME_BYTES
    ensures Saved(file, 1, frame)[..FRAME_BYTES] == Resized(file, FILE_BYTES)[..FRAME_BYTES]
  {
    var after, sized := Saved(file, 1, frame), Resized(file, FILE_BYTES);
    forall i | 0 <= i < FRAME_BYTES ensures after[i] == sized[i] {
      var written := WrittenAt(file, FRAME_BYTES, frame);
      assert written[i] == if i < |file| then file[i] else 0;
    }
  }

  lemma SavedViews(hash: Hash, file: Bytes, floor: nat)
    requires Wide(hash) && floor < Pow256(8)
    ensures var slot := WriteSlot(ViewOf(hash, Some(file)));
            var after := Saved(file, slot, Encode(hash, floor));
            && ReadFrame(hash, after, slot) == Some(floor)
            && (slot == 0 ==> ReadFrame(hash, after, 1) == ReadFrame(hash, Resized(file, FILE_BYTES), 1))
            && (slot == 1 ==> ReadFrame(hash, after, 0) == ReadFrame(hash, file, 0))
  {
    var slot := WriteSlot(ViewOf(hash, Some(file)));
    SaveWritesItsSlotOnly(hash, file, slot, floor);
    FrameRoundTrip(hash, floor);
    SavedTail(file, Encode(hash, floor));
  }

  /** For every file, a save changes what the two slots read as in its own slot only exactly when, writing
      the first slot, zero-extending the file to its full length reads the same second frame as before;
      and it leaves the handle as a reopen would find it exactly when no floor as high as the one saved
      comes to light there. */
  lemma SaveMatchesReopeningExactlyWhen(hash: Hash, file: Bytes, floor: nat)
    requires Wide(hash) && floor < Pow256(8)
    requires Decide(Opening(ViewOf(hash, Some(file))), floor).Write?
    ensures var h := Opening(ViewOf(hash, Some(file)));
            var after := ViewOf(hash, Some(Saved(file, h.slot, Encode(hash, floor))));
            var extended := ReadFrame(hash, Resized(file, FILE_BYTES), 1);
            && (after == Put(ViewOf(hash, Some(file)), h.slot, Some(floor))
                <==> (h.slot == 0 ==> extended == ReadFrame(hash, file, 1)))
            && (Opening(after) == Advanced(h, floor)
                <==> (h.slot == 0 ==> extended == None || extended.value < floor))
  {
    SavedViews(hash, file, floor);
  }

  /** A file whose second frame is missing or whole, or whose first is valid. */
  predicate Tidy(hash: Hash, file: Bytes) {
    |file| <= FRAME_BYTES || |file| >= FILE_BYTES || ReadFrame(hash, file, 0).Some?
  }

  lemma TidyExtends(hash: Hash, file: Bytes)
    requires Tidy(hash, file) && WriteSlot(ViewOf(hash, Some(file))) == 0
    ensures ReadFrame(hash, Resized(file, FILE_BYTES), 1) == ReadFrame(hash, file, 1)
  {
    var sized := Resized(file, FILE_BYTES);
    if |file| <= FRAME_BYTES {
      assert sized[FRAME_BYTES..FILE_BYTES][0] == 0;
      ZerosHoldNoFloor(hash, sized[FRAME_BYTES..FILE_BYTES]);
    } else if |file| >= FILE_BYTES {
      ResizedKeeps(file, FILE_BYTES, FRAME_BYTES, FILE_BYTES);
    }
  }

  lemma LowerThanSaved(slots: Slots, floor: nat)
    requires floor > FloorOf(slots)
    ensures slots.second.Some? ==> slots.second.value < floor
  {
  }

  /** So every save of a tidy file matches, and leaves it tidy; an absent file, and any file a save
      completed on, is tidy. */
  lemma TidySavesMatchReopening(hash: Hash, file: Bytes, floor: nat)
    requires Wide(hash) && floor < Pow256(8) && Tidy(hash, file)
    requires Decide(Opening(ViewOf(hash, Some(file))), floor).Write?
    ensures var h := Opening(ViewOf(hash, Some(file)));
            var after := Saved(file, h.slot, Encode(hash, floor));
            && ViewOf(hash, Some(after)) == Put(ViewOf(hash, Some(file)), h.slot, Some(floor))
            && Opening(ViewOf(hash, Some(after))) == Advanced(h, floor)
            && Tidy(hash, after)
  {
    SaveMatchesReopeningExactlyWhen(hash, file, floor);
    LowerThanSaved(ViewOf(hash, Some(file)), floor);
    if WriteSlot(ViewOf(hash, Some(file))) == 0 {
      TidyExtends(hash, file);
    }
  }

  /** Whatever the hash, a floor whose frame ends in a zero byte can show neither matches: 52 bytes that are
      no frame, then that frame without its last byte. Saving a lower floor completes it. */
  lemma PartialFrameComesToLight(hash: Hash, high: nat, floor: nat)
    requires Wide(hash) && 0 < floor < high < Pow256(8) && Encode(hash, high)[FRAME_BYTES - 1] == 0
    ensures var file := Zeros(FRAME_BYTES) + Encode(hash, high)[..FRAME_BYTES - 1];
            && ViewOf(hash, Some(file)) == Slots(None, None)
            && ReadFrame(hash, Resized(file, FILE_BYTES), 1) == Some(high)
            && ViewOf(hash, Some(Saved(file, 0, Encode(hash, floor)))) == Slots(Some(floor), Some(high))
  {
    var frame := Encode(hash, high);
    var file := Zeros(FRAME_BYTES) + frame[..FRAME_BYTES - 1];
    assert file[..FRAME_BYTES][0] == 0;
    ZerosHoldNoFloor(hash, file[..FRAME_BYTES]);
    assert ReadFrame(hash, file, 0) == None && ReadFrame(hash, file, 1) == None;
    FrameRoundTrip(hash, high);
    FrameFromItsStart(file, frame);
    SavedViews(hash, file, floor);
  }

  lemma FrameFromItsStart(file: Bytes, frame: Bytes)
    requires |frame| == FRAME_BYTES && frame[FRAME_BYTES - 1] == 0
    requires file == Zeros(FRAME_BYTES) + frame[..FRAME_BYTES - 1]
    ensures Resized(file, FILE_BYTES)[FRAME_BYTES..FILE_BYTES] == frame
  {
    var sized := Resized(file, FILE_BYTES);
    assert Zeros(1) == [0];
    forall i | 0 <= i < FRAME_BYTES ensures sized[FRAME_BYTES + i] == frame[i] {
    }
  }
}
