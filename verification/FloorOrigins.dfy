/**
  Where the floors that runs report come from: which an open or a save can ever return, from
  any file the first open finds.
 */
module FloorOrigins {
  import opened CommittedFloor
  import opened FloorDisk
  import opened FloorRuns
  import opened Options

  function Held(frame: Option<nat>): set<nat> {
    if frame == None then {} else {frame.value}
  }

  /** The floors a file's slots read as. */
  function Read(d: Disk, file: File): set<nat> {
    Held(Reading(d, file, 0)) + Held(Reading(d, file, 1))
  }

  /** And would read as in the file zero-extended to its full length. */
  function Frames(d: Disk, file: File): set<nat> {
    Held(d.extended(file, 0)) + Held(d.extended(file, 1))
  }

  lemma ReadAreFrames(d: Disk, file: File)
    ensures Read(d, file) <= Frames(d, file)
  {
  }

  // ---------------------------------------------------------------- no floor is invented

  /** Every floor in sight is a known one. */
  ghost predicate Traced(d: Disk, s: State, known: set<nat>) {
    && Frames(d, s.durable) <= known
    && Frames(d, s.cached) <= known
    && (s.handle.Some? ==> s.handle.value.last in known)
    && (forall i :: 0 <= i < |s.reported| ==> s.reported[i] in known)
  }

  lemma TornFrames(d: Disk, file: File, k: Slot, left: File, known: set<nat>)
    requires TearsLawfully(d) && d.torn(file, k, left) && Frames(d, file) <= known && Held(d.extended(left, k)) <= known
    ensures Frames(d, left) <= known
  {
  }

  lemma SavedFrames(d: Disk, file: File, k: Slot, floor: nat, known: set<nat>)
    requires Lawful(d) && floor < Pow256(8) && Frames(d, file) <= known && floor in known
    ensures Frames(d, d.written(file, k, floor)) <= known
  {
  }

  lemma OpenIsTraced(d: Disk, s: State, readable: bool, known: set<nat>)
    requires Traced(d, s, known) && s.handle == None && 0 in known
    ensures Traced(d, Step(d, s, Open(readable)), known)
  {
    ReadAreFrames(d, s.cached);
    FoundIsRead(d, s.cached);
  }

  lemma FoundIsRead(d: Disk, file: File)
    ensures FloorOf(Readings(d, file)) in Read(d, file) + {0}
  {
  }

  lemma SaveIsTraced(d: Disk, s: State, floor: nat, fromCache: bool, known: set<nat>)
    requires Lawful(d) && Traced(d, s, known) && Enabled(d, s, Save(floor, fromCache))
    ensures Traced(d, Saving(d, s, floor, fromCache), known + {floor})
    ensures !Writes(s, floor) ==> Traced(d, Saving(d, s, floor, fromCache), known)
  {
    if Writes(s, floor) {
      var k := s.handle.value.slot;
      SavedFrames(d, s.cached, k, floor, known + {floor});
      SavedFrames(d, Under(s, fromCache), k, floor, known + {floor});
    }
  }

  lemma DiskIsTraced(d: Disk, s: State, k: Slot, floor: nat, now: File, fromCache: bool, known: set<nat>)
    requires TearsLawfully(d) && Frames(d, s.durable) <= known && Frames(d, s.cached) <= known && floor in known
    requires TearsDisk(d, s, k, floor, now, fromCache)
    ensures Frames(d, now) <= known
  {
    TornFrames(d, Under(s, fromCache), k, now, known);
  }

  lemma TornIsTraced(d: Disk, s: State, e: Event, known: set<nat>)
    requires TearsLawfully(d) && Traced(d, s, known) && (e.SaveFails? || e.CrashInSave?) && Enabled(d, s, e)
    ensures Traced(d, Step(d, s, e), known + {e.floor})
  {
    var k := s.handle.value.slot;
    DiskIsTraced(d, s, k, e.floor, e.nowDurable, e.fromCache, known + {e.floor});
    if e.SaveFails? {
      TornFrames(d, s.cached, k, e.nowCached, known + {e.floor});
    }
  }

  lemma PowerLossIsTraced(d: Disk, s: State, left: File, known: set<nat>)
    requires Traced(d, s, known) && Enabled(d, s, PowerLoss(left))
    ensures Traced(d, Step(d, s, PowerLoss(left)), known)
  {
    assert Held(d.extended(left, 0)) <= known;
    assert Held(d.extended(left, 1)) <= known;
  }

  lemma StepIsTraced(d: Disk, s: State, e: Event, known: set<nat>)
    requires Lawful(d) && Enabled(d, s, e) && Traced(d, s, known) && 0 in known
    ensures s.attempted <= Step(d, s, e).attempted
    ensures Traced(d, Step(d, s, e), known + Step(d, s, e).attempted)
  {
    match e
    case Open(readable) => OpenIsTraced(d, s, readable, known);
    case Save(floor, fromCache) => SaveIsTraced(d, s, floor, fromCache, known);
    case SaveFails(_, _, _, _) => TornIsTraced(d, s, e, known);
    case CrashInSave(_, _, _) => TornIsTraced(d, s, e, known);
    case PowerLoss(left) => PowerLossIsTraced(d, s, left, known);
    case Restart =>
  }

  lemma {:induction false} RunIsTraced(d: Disk, s: State, es: seq<Event>, known: set<nat>)
    requires Lawful(d) && Run(d, s, es) && Traced(d, s, known) && 0 in known
    ensures s.attempted <= After(d, s, es).attempted
    ensures Traced(d, After(d, s, es), known + After(d, s, es).attempted)
    decreases |es|
  {
    if es != [] {
      var next := Step(d, s, es[0]);
      StepIsTraced(d, s, es[0], known);
      RunIsTraced(d, next, es[1..], known + next.attempted);
      var end := After(d, s, es);
      assert known + next.attempted + end.attempted == known + end.attempted;
    }
  }

  /** From any file, over every run: each floor reported is zero, one some save was asked to write, or a
      frame of the file zero-extended to its full length. */
  lemma NoFloorIsInvented(hash: Hash, file: File, es: seq<Event>, i: nat)
    requires Wide(hash) && Run(DiskOf(hash), Start(file), es) && i < |After(DiskOf(hash), Start(file), es).reported|
    ensures var end := After(DiskOf(hash), Start(file), es);
            end.reported[i] in {0} + end.attempted + Frames(DiskOf(hash), file)
  {
    DiskIsLawful(hash);
    RunIsTraced(DiskOf(hash), Start(file), es, {0} + Frames(DiskOf(hash), file));
  }

  // ---------------------------------------------------------------- when only what the file reads as is reported

  /** Zero-extending the file brings no floor to light. */
  predicate Plain(d: Disk, file: File) {
    Frames(d, file) <= {0} + Read(d, file)
  }

  /** An absent file, one of whole frames and one of full length are all plain. */
  lemma WholeFramesArePlain(hash: Hash, file: File)
    requires |BytesOf(file)| % FRAME_BYTES == 0 || |BytesOf(file)| >= FILE_BYTES
    ensures Plain(DiskOf(hash), file)
  {
    SlotIsPlain(hash, file, 0);
    SlotIsPlain(hash, file, 1);
  }

  lemma SlotIsPlain(hash: Hash, file: File, k: Slot)
    requires WholeSlot(file, k) || |BytesOf(file)| <= k * FRAME_BYTES
    ensures Reading(DiskOf(hash), file, k) == DiskOf(hash).extended(file, k)
  {
    if !WholeSlot(file, k) {
      PastTheEndIsNoFrame(hash, file, k);
    }
  }

  /** From a plain file each floor reported is zero, asked for, or read in the file. */
  lemma NoFloorIsInventedFromAPlainFile(hash: Hash, file: File, es: seq<Event>, i: nat)
    requires Wide(hash) && Plain(DiskOf(hash), file)
    requires Run(DiskOf(hash), Start(file), es) && i < |After(DiskOf(hash), Start(file), es).reported|
    ensures var end := After(DiskOf(hash), Start(file), es);
            end.reported[i] in {0} + end.attempted + Read(DiskOf(hash), file)
  {
    NoFloorIsInvented(hash, file, es, i);
  }

  lemma FullReads(d: Disk, file: File)
    requires FillsLawfully(d)
    ensures Readings(d, d.full(file)) == Extension(d, file)
  {
    ReadingsAre(d, d.full(file), d.extended(file, 0), d.extended(file, 1));
  }

  function Extension(d: Disk, file: File): Slots {
    Slots(d.extended(file, 0), d.extended(file, 1))
  }

  /** A save interrupted once the file has its full length: the next open goes by the extended frames. */
  lemma CrashExtends(d: Disk, file: File, asked: nat)
    requires FillsLawfully(d) && FloorOf(Readings(d, file)) < asked < Pow256(8)
    ensures var es := [Open(true), CrashInSave(asked, d.full(file), false), Open(true)];
            && Run(d, Start(file), es)
            && After(d, Start(file), es).reported
               == [FloorOf(Readings(d, file)), FloorOf(Extension(d, file))]
            && After(d, Start(file), es).attempted == {asked}
  {
    var seen, found := Readings(d, file), Extension(d, file);
    var crash := CrashInSave(asked, d.full(file), false);
    var s1 := State(file, file, Some(Opening(seen)), [FloorOf(seen)], {});
    var s2 := State(d.full(file), d.full(file), None, [FloorOf(seen)], {asked});
    var s3 := s2.(handle := Some(Opening(found)), reported := [FloorOf(seen), FloorOf(found)]);
    FullReads(d, file);
    OpenFinds(d, s2, found, s3, [], s3);
    OneMore(d, s1, crash, s2, [Open(true)], s3);
    OpenFinds(d, Start(file), seen, s1, [crash, Open(true)], s3);
  }

  /** The same for a partial second frame below the first: a failed save, then an interrupted one. */
  lemma FailureExtends(d: Disk, file: File, a: nat, v: nat) returns (es: seq<Event>)
    requires Lawful(d) && 0 < v < a && a + 2 < Pow256(8)
    requires Readings(d, file) == Slots(Some(a), None) && Extension(d, file) == Slots(Some(a), Some(v))
    ensures Run(d, Start(file), es) && After(d, Start(file), es).reported == [a, a + 1, v]
    ensures After(d, Start(file), es).attempted == {a + 1, a + 2}
  {
    var seen := Slots(Some(a), None);
    var s1 := State(file, file, Some(Opening(seen)), [a], {});
    es := FailedSyncThenCrash(d, s1, a, a + 1, a + 2, d.full(file));
    OpenFinds(d, Start(file), seen, s1, es, After(d, s1, es));
    es := [Open(true)] + es;
  }

  /** A floor that zero-extending brings to light stands in a slot the file holds a part of; the other
      slot is all zero past it, or whole before it. */
  lemma LatentSlot(d: Disk, file: File, v: nat)
    requires FillsLawfully(d) && v in Frames(d, file) && v != 0 && v !in Read(d, file)
    ensures var r := Readings(d, file);
            && r.second == None
            && ((Extension(d, file) == Slots(Some(v), None) && r.first == None)
                || (Extension(d, file) == Slots(r.first, Some(v)) && r.first != Some(v)))
  {
  }

  lemma LatentFloorComesOut(d: Disk, file: File, v: nat) returns (es: seq<Event>, i: nat)
    requires Lawful(d) && v in Frames(d, file) && v !in {0} + Read(d, file)
    requires FloorOf(Readings(d, file)) + 2 < Pow256(8)
    ensures Run(d, Start(file), es) && i < |After(d, Start(file), es).reported|
    ensures After(d, Start(file), es).reported[i] == v && v !in After(d, Start(file), es).attempted
  {
    var floor := FloorOf(Readings(d, file));
    LatentSlot(d, file, v);
    if v > floor {
      var asked := if v == floor + 1 then floor + 2 else floor + 1;
      CrashExtends(d, file, asked);
      es, i := [Open(true), CrashInSave(asked, d.full(file), false), Open(true)], 1;
    } else {
      es := FailureExtends(d, file, floor, v);
      i := 2;
    }
  }

  /** And only from a plain file: from any other some run reports a floor that was neither asked for nor
      read in the file. */
  lemma LatentFloorIsReported(hash: Hash, file: File) returns (es: seq<Event>, i: nat)
    requires Wide(hash) && !Plain(DiskOf(hash), file) && FloorOf(ViewOf(hash, file)) + 2 < Pow256(8)
    ensures Run(DiskOf(hash), Start(file), es) && i < |After(DiskOf(hash), Start(file), es).reported|
    ensures var end := After(DiskOf(hash), Start(file), es);
            end.reported[i] !in {0} + end.attempted + Read(DiskOf(hash), file)
  {
    var d := DiskOf(hash);
    DiskIsLawful(hash);
    ViewIsReadings(hash, file);
    var v :| v in Frames(d, file) && v !in {0} + Read(d, file);
    es, i := LatentFloorComesOut(d, file, v);
  }
}
