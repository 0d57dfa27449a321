/**
  Whole runs of the committed floor over its file: opens, saves, failed and interrupted writes,
  power losses and restarts, from any file.

  Reads return what is cached; a power loss leaves what is durable. The two differ only after
  a write that failed. An interrupted write of one slot leaves the other slot's bytes as they
  were, zero-extended at most, and in its own slot the old frame, the new one, or none that
  validates.
 */
module FloorRuns {
  import opened CommittedFloor
  import opened FloorDisk
  import opened Options

  // ---------------------------------------------------------------- the runs

  /** `reported` lists every floor an open returned or a save acknowledged. */
  datatype State = State(
    durable: File,
    cached: File,
    handle: Option<Handle>,
    reported: seq<nat>,
    attempted: set<nat>)

  /** `fromCache` says whether what is cached of the slot not written reached the disk too. */
  datatype Event =
    | Open(readable: bool)
    | Save(floor: nat, fromCache: bool)
    | SaveFails(floor: nat, nowCached: File, nowDurable: File, fromCache: bool)
    | CrashInSave(floor: nat, nowDurable: File, fromCache: bool)
    | PowerLoss(left: File)
    | Restart

  function Start(file: File): State {
    State(file, file, None, [], {})
  }

  /** An interrupted write of `floor` leaves the old frame, cached or durable, the new one, or none. */
  predicate Torn(a: Option<nat>, b: Option<nat>, floor: nat, now: Option<nat>) {
    now == None || now == a || now == b || now == Some(floor)
  }

  /** Each slot of what a power loss leaves is as it was on disk or as cached. */
  ghost predicate Survives(d: Disk, durable: File, cached: File, left: File) {
    forall k: Slot ::
      && (d.extended(left, k) == d.extended(durable, k) || d.extended(left, k) == d.extended(cached, k))
      && (d.whole(durable, k) && d.whole(cached, k) ==> d.whole(left, k))
  }

  function Under(s: State, fromCache: bool): File {
    if fromCache then s.cached else s.durable
  }

  predicate Writes(s: State, floor: nat) {
    s.handle.Some? && floor < Pow256(8) && Decide(s.handle.value, floor).Write?
  }

  predicate TearsDisk(d: Disk, s: State, k: Slot, floor: nat, now: File, fromCache: bool) {
    && d.torn(Under(s, fromCache), k, now)
    && Torn(d.extended(s.durable, k), d.extended(s.cached, k), floor, d.extended(now, k))
  }

  ghost predicate Enabled(d: Disk, s: State, e: Event) {
    match e
    case Open(_) => s.handle == None
    case Save(floor, _) => s.handle.Some? && floor < Pow256(8)
    case SaveFails(floor, nowCached, nowDurable, fromCache) =>
      && Writes(s, floor)
      && var k := s.handle.value.slot;
         && d.torn(s.cached, k, nowCached)
         && Torn(d.extended(s.cached, k), d.extended(s.cached, k), floor, d.extended(nowCached, k))
         && TearsDisk(d, s, k, floor, nowDurable, fromCache)
    case CrashInSave(floor, nowDurable, fromCache) =>
      Writes(s, floor) && TearsDisk(d, s, s.handle.value.slot, floor, nowDurable, fromCache)
    case PowerLoss(left) => Survives(d, s.durable, s.cached, left)
    case Restart => true
  }

  /** What an open goes by: a file that cannot be probed or read counts as holding nothing. */
  function SeenBy(d: Disk, s: State, readable: bool): Slots {
    if readable then Readings(d, s.cached) else Slots(None, None)
  }

  function Saving(d: Disk, s: State, floor: nat, fromCache: bool): State
    requires s.handle.Some?
  {
    var h := s.handle.value;
    match Decide(h, floor)
    case Refuse => s
    case Keep => s.(reported := s.reported + [floor])
    case Write =>
      State(d.written(Under(s, fromCache), h.slot, floor), d.written(s.cached, h.slot, floor),
            Some(Advanced(h, floor)), s.reported + [floor], s.attempted + {floor})
  }

  ghost function Step(d: Disk, s: State, e: Event): State
    requires Enabled(d, s, e)
  {
    match e
    case Open(readable) =>
      var seen := SeenBy(d, s, readable);
      s.(handle := Some(Opening(seen)), reported := s.reported + [FloorOf(seen)])
    case Save(floor, fromCache) => Saving(d, s, floor, fromCache)
    case SaveFails(floor, nowCached, nowDurable, _) =>
      s.(durable := nowDurable, cached := nowCached, handle := Some(s.handle.value.(poisoned := true)),
         attempted := s.attempted + {floor})
    case CrashInSave(floor, nowDurable, _) =>
      s.(durable := nowDurable, cached := nowDurable, handle := None, attempted := s.attempted + {floor})
    case PowerLoss(left) => s.(durable := left, cached := left, handle := None)
    case Restart => s.(handle := None)
  }

  ghost predicate Run(d: Disk, s: State, es: seq<Event>)
    decreases |es|
  {
    es == [] || (Enabled(d, s, es[0]) && Run(d, Step(d, s, es[0]), es[1..]))
  }

  ghost function After(d: Disk, s: State, es: seq<Event>): State
    requires Run(d, s, es)
    decreases |es|
  {
    if es == [] then s else After(d, Step(d, s, es[0]), es[1..])
  }

  // ---------------------------------------------------------------- the floor never regresses

  ghost predicate Ascending(r: seq<nat>) {
    forall i, j :: 0 <= i < j < |r| ==> r[i] <= r[j]
  }

  function Last(r: seq<nat>): nat {
    if r == [] then 0 else r[|r| - 1]
  }

  lemma AscendingSnoc(r: seq<nat>, floor: nat)
    requires Ascending(r)
    ensures Ascending(r + [floor]) <==> floor >= Last(r)
  {
    var more := r + [floor];
    if r != [] {
      assert forall i :: 0 <= i < |r| ==> r[i] <= r[|r| - 1];
      assert more[|r| - 1] == Last(r) && more[|r|] == floor;
    }
  }

  predicate AtLeast(frame: Option<nat>, floor: nat) {
    floor == 0 || (frame.Some? && frame.value >= floor)
  }

  /** Slot `k` reads as at least `last`, on disk and cached. */
  predicate Keeps(durable: Slots, cached: Slots, k: Slot, last: nat) {
    AtLeast(At(durable, k), last) && AtLeast(At(cached, k), last)
  }

  /** The slot that is not written next keeps the promise of the last floor reported. */
  predicate Promised(durable: Slots, cached: Slots, handle: Option<Handle>, last: nat) {
    match handle
    case None => Keeps(durable, cached, 0, last) || Keeps(durable, cached, 1, last)
    case Some(h) => Keeps(durable, cached, 1 - h.slot, last) && h.last == last
  }

  ghost predicate Inv(d: Disk, s: State) {
    && Ascending(s.reported)
    && Promised(Readings(d, s.durable), Readings(d, s.cached), s.handle, Last(s.reported))
  }

  /** An open that finds no less than was reported, in a frame the disk itself holds, no lower. */
  predicate SafeToGoBy(seen: Slots, durable: Slots, last: nat) {
    && FloorOf(seen) >= last
    && match Newest(seen)
       case None => true
       case Some(k) => AtLeast(At(durable, k), FloorOf(seen))
  }

  predicate SafeOpen(d: Disk, s: State, readable: bool) {
    SafeToGoBy(SeenBy(d, s, readable), Readings(d, s.durable), Last(s.reported))
  }

  lemma OpenPromises(seen: Slots, durable: Slots, cached: Slots, last: nat)
    requires SafeToGoBy(seen, durable, last) && (seen == cached || seen == Slots(None, None))
    ensures Promised(durable, cached, Some(Opening(seen)), FloorOf(seen))
  {
  }

  lemma OpenKeepsInv(d: Disk, s: State, readable: bool)
    requires Inv(d, s) && s.handle == None && SafeOpen(d, s, readable)
    ensures Inv(d, Step(d, s, Open(readable)))
  {
    var seen := SeenBy(d, s, readable);
    AscendingSnoc(s.reported, FloorOf(seen));
    OpenPromises(seen, Readings(d, s.durable), Readings(d, s.cached), Last(s.reported));
  }

  lemma SavePromises(durable: Slots, cached: Slots, h: Handle, floor: nat)
    requires At(durable, h.slot) == At(cached, h.slot) == Some(floor)
    ensures Promised(durable, cached, Some(Advanced(h, floor)), floor)
  {
  }

  lemma AtReadings(d: Disk, file: File, k: Slot, frame: Option<nat>)
    requires Reading(d, file, k) == frame
    ensures At(Readings(d, file), k) == frame
  {
  }

  lemma SaveReadings(d: Disk, file: File, k: Slot, floor: nat, after: File)
    requires WritesLawfully(d) && floor < Pow256(8) && after == d.written(file, k, floor)
    ensures At(Readings(d, after), k) == Some(floor)
  {
    AtReadings(d, after, k, Some(floor));
  }

  lemma SaveKeepsInv(d: Disk, s: State, floor: nat, fromCache: bool)
    requires WritesLawfully(d) && Inv(d, s) && Enabled(d, s, Save(floor, fromCache))
    ensures Inv(d, Step(d, s, Save(floor, fromCache)))
  {
    var h := s.handle.value;
    if !Decide(h, floor).Refuse? {
      AscendingSnoc(s.reported, floor);
    }
    if Decide(h, floor).Write? {
      var s' := Saving(d, s, floor, fromCache);
      SaveReadings(d, s.cached, h.slot, floor, s'.cached);
      SaveReadings(d, Under(s, fromCache), h.slot, floor, s'.durable);
      SavePromises(Readings(d, s'.durable), Readings(d, s'.cached), h, floor);
    }
  }

  lemma InterruptedKeeps(d: Disk, file: File, k: Slot, left: File, last: nat)
    requires TearsLawfully(d) && d.torn(file, k, left) && AtLeast(At(Readings(d, file), 1 - k), last)
    ensures AtLeast(At(Readings(d, left), 1 - k), last)
  {
  }

  lemma TearKeeps(d: Disk, s: State, k: Slot, floor: nat, now: File, fromCache: bool)
    requires TearsLawfully(d) && Keeps(Readings(d, s.durable), Readings(d, s.cached), 1 - k, Last(s.reported))
    requires TearsDisk(d, s, k, floor, now, fromCache)
    ensures AtLeast(At(Readings(d, now), 1 - k), Last(s.reported))
  {
    InterruptedKeeps(d, Under(s, fromCache), k, now, Last(s.reported));
  }

  lemma SaveFailsKeepsInv(d: Disk, s: State, e: Event)
    requires TearsLawfully(d) && Inv(d, s) && e.SaveFails? && Enabled(d, s, e)
    ensures Inv(d, Step(d, s, e))
  {
    var k := s.handle.value.slot;
    TearKeeps(d, s, k, e.floor, e.nowDurable, e.fromCache);
    InterruptedKeeps(d, s.cached, k, e.nowCached, Last(s.reported));
    FailurePromises(Readings(d, e.nowDurable), Readings(d, e.nowCached), s.handle.value, Last(s.reported));
  }

  lemma FailurePromises(durable: Slots, cached: Slots, h: Handle, last: nat)
    requires Keeps(durable, cached, 1 - h.slot, last) && h.last == last
    ensures Promised(durable, cached, Some(h.(poisoned := true)), last) && Promised(durable, cached, None, last)
  {
  }

  lemma CrashKeepsInv(d: Disk, s: State, e: Event)
    requires TearsLawfully(d) && Inv(d, s) && e.CrashInSave? && Enabled(d, s, e)
    ensures Inv(d, Step(d, s, e))
  {
    TearKeeps(d, s, s.handle.value.slot, e.floor, e.nowDurable, e.fromCache);
    FailurePromises(Readings(d, e.nowDurable), Readings(d, e.nowDurable), s.handle.value, Last(s.reported));
  }

  lemma SurvivorKeeps(d: Disk, s: State, left: File, k: Slot)
    requires Survives(d, s.durable, s.cached, left)
    requires Keeps(Readings(d, s.durable), Readings(d, s.cached), k, Last(s.reported))
    ensures AtLeast(At(Readings(d, left), k), Last(s.reported))
  {
  }

  /** Whichever slot keeps the promise. */
  function Keeper(durable: Slots, cached: Slots, handle: Option<Handle>, last: nat): (k: Slot)
    requires Promised(durable, cached, handle, last)
    ensures Keeps(durable, cached, k, last)
  {
    if handle.Some? then 1 - handle.value.slot else if Keeps(durable, cached, 0, last) then 0 else 1
  }

  lemma PowerLossKeepsInv(d: Disk, s: State, left: File)
    requires Inv(d, s) && Enabled(d, s, PowerLoss(left))
    ensures Inv(d, Step(d, s, PowerLoss(left)))
  {
    var k := Keeper(Readings(d, s.durable), Readings(d, s.cached), s.handle, Last(s.reported));
    SurvivorKeeps(d, s, left, k);
  }

  lemma StepKeepsInv(d: Disk, s: State, e: Event)
    requires Lawful(d) && Inv(d, s) && Enabled(d, s, e) && (e.Open? ==> SafeOpen(d, s, e.readable))
    ensures Inv(d, Step(d, s, e))
  {
    match e
    case Open(readable) => OpenKeepsInv(d, s, readable);
    case Save(floor, fromCache) => SaveKeepsInv(d, s, floor, fromCache);
    case SaveFails(_, _, _, _) => SaveFailsKeepsInv(d, s, e);
    case CrashInSave(_, _, _) => CrashKeepsInv(d, s, e);
    case PowerLoss(left) => PowerLossKeepsInv(d, s, left);
    case Restart =>
  }

  ghost predicate SafeOpens(d: Disk, s: State, es: seq<Event>)
    requires Run(d, s, es)
    decreases |es|
  {
    es == [] ||
    ((es[0].Open? ==> SafeOpen(d, s, es[0].readable)) && SafeOpens(d, Step(d, s, es[0]), es[1..]))
  }

  lemma {:induction false} RunKeepsInv(d: Disk, s: State, es: seq<Event>)
    requires Lawful(d) && Inv(d, s) && Run(d, s, es) && SafeOpens(d, s, es)
    ensures Inv(d, After(d, s, es))
    decreases |es|
  {
    if es != [] {
      StepKeepsInv(d, s, es[0]);
      RunKeepsInv(d, Step(d, s, es[0]), es[1..]);
    }
  }

  /** From any file, over every run whose opens are safe: no open and no acknowledged save reports less
      than one before it. */
  lemma FloorNeverRegresses(hash: Hash, file: File, es: seq<Event>)
    requires Wide(hash) && Run(DiskOf(hash), Start(file), es) && SafeOpens(DiskOf(hash), Start(file), es)
    ensures Ascending(After(DiskOf(hash), Start(file), es).reported)
  {
    DiskIsLawful(hash);
    RunKeepsInv(DiskOf(hash), Start(file), es);
  }

  /** Something a caller can see to: after a save has failed, no open until the machine has gone down; and
      once a floor has been reported, none of a file that cannot be read. */
  ghost predicate Careful(d: Disk, s: State, es: seq<Event>, failed: bool)
    requires Run(d, s, es)
    decreases |es|
  {
    es == [] ||
    (var e := es[0];
     && (e.Open? ==> if e.readable then !failed else Last(s.reported) == 0)
     && Careful(d, Step(d, s, e), es[1..], FailedAfter(e, failed)))
  }

  /** Whether a save has failed since the machine last went down. */
  predicate FailedAfter(e: Event, failed: bool) {
    e.SaveFails? || (failed && !e.CrashInSave? && !e.PowerLoss?)
  }

  lemma CarefulOpenIsSafe(d: Disk, s: State, readable: bool)
    requires Inv(d, s) && s.handle == None && if readable then s.cached == s.durable else Last(s.reported) == 0
    ensures SafeOpen(d, s, readable)
  {
    SettledIsSafe(Readings(d, s.cached), Last(s.reported));
  }

  lemma SettledIsSafe(slots: Slots, last: nat)
    requires Promised(slots, slots, None, last)
    ensures SafeToGoBy(slots, slots, last)
  {
  }

  lemma {:induction false} CarefulOpensAreSafe(d: Disk, s: State, es: seq<Event>, failed: bool)
    requires Lawful(d) && Inv(d, s) && (!failed ==> s.cached == s.durable)
    requires Run(d, s, es) && Careful(d, s, es, failed)
    ensures SafeOpens(d, s, es)
    decreases |es|
  {
    if es != [] {
      var e := es[0];
      if e.Open? {
        CarefulOpenIsSafe(d, s, e.readable);
      }
      StepKeepsInv(d, s, e);
      CarefulOpensAreSafe(d, Step(d, s, e), es[1..], FailedAfter(e, failed));
    }
  }

  /** From any file, over every careful run: no open and no acknowledged save reports less than one
      before it. */
  lemma FloorNeverRegressesAcrossReboots(hash: Hash, file: File, es: seq<Event>)
    requires Wide(hash) && Run(DiskOf(hash), Start(file), es) && Careful(DiskOf(hash), Start(file), es, false)
    ensures Ascending(After(DiskOf(hash), Start(file), es).reported)
  {
    DiskIsLawful(hash);
    CarefulOpensAreSafe(DiskOf(hash), Start(file), es, false);
    FloorNeverRegresses(hash, file, es);
  }

  /** What the runs assume of an interrupted write, in bytes: what it leaves in its slot is not, checksum and
      all, the frame of some third floor. */
  lemma TornExactlyWhenNoThirdFrame(hash: Hash, was: Option<nat>, cached: Option<nat>, floor: nat, left: File, k: Slot)
    requires Wide(hash)
    ensures Torn(was, cached, floor, DiskOf(hash).extended(left, k))
       <==> forall v: nat | v < Pow256(8) && SlotBytes(left, k) == Encode(hash, v) ::
              v == floor || was == Some(v) || cached == Some(v)
  {
    var frame := SlotBytes(left, k);
    forall v: nat ensures Decode(hash, frame) == Some(v) <==> v < Pow256(8) && frame == Encode(hash, v) {
      ReadsExactlyItsOwnFrames(hash, frame, v);
    }
    var now := Decode(hash, frame);
    if now.Some? {
      assert now.value < Pow256(8) && frame == Encode(hash, now.value);
    }
  }

  // ---------------------------------------------------------------- what a handle acknowledges

  /** A save is acknowledged exactly when no save of the handle has failed and the floor is no lower than the
      last; it reaches the disk exactly when it is also higher, and then reads back there and after any power
      loss. Any other leaves the file alone. */
  lemma AcknowledgedExactlyWhen(d: Disk, s: State, floor: nat, fromCache: bool)
    requires WritesLawfully(d) && Enabled(d, s, Save(floor, fromCache))
    ensures var h, s' := s.handle.value, Step(d, s, Save(floor, fromCache));
            && s'.reported == (if !h.poisoned && floor >= h.last then s.reported + [floor] else s.reported)
            && (if !h.poisoned && floor > h.last
                then && Reading(d, s'.durable, h.slot) == Reading(d, s'.cached, h.slot) == Some(floor)
                     && s'.handle == Some(Handle(floor, 1 - h.slot, false)) && floor in s'.attempted
                else s'.durable == s.durable && s'.cached == s.cached && s'.handle == s.handle)
  {
  }

  predicate OnlySaves(es: seq<Event>) {
    forall i :: 0 <= i < |es| ==> es[i].Save?
  }

  /** After a failed save, every save of the same handle is refused and changes nothing: the file has to be
      opened again. */
  lemma {:induction false} PoisonedHandleNeverWrites(d: Disk, s: State, es: seq<Event>)
    requires s.handle.Some? && s.handle.value.poisoned && Run(d, s, es) && OnlySaves(es)
    ensures After(d, s, es) == s
    decreases |es|
  {
    if es != [] {
      assert Step(d, s, es[0]) == s;
      PoisonedHandleNeverWrites(d, s, es[1..]);
    }
  }

  lemma FailedSavePoisons(d: Disk, s: State, e: Event, es: seq<Event>)
    requires e.SaveFails? && Enabled(d, s, e) && Run(d, Step(d, s, e), es) && OnlySaves(es)
    ensures After(d, Step(d, s, e), es) == Step(d, s, e) && Step(d, s, e).reported == s.reported
  {
    PoisonedHandleNeverWrites(d, Step(d, s, e), es);
  }

  // ---------------------------------------------------------------- opens that are not safe

  /** An open of a file that cannot be read keeps reports ascending exactly when none was above zero. */
  lemma BlindOpenIsSafeExactlyWhen(d: Disk, s: State)
    requires Ascending(s.reported) && s.handle == None
    ensures SafeOpen(d, s, false) <==> Last(s.reported) == 0
    ensures Ascending(Step(d, s, Open(false)).reported) <==> Last(s.reported) == 0
  {
    AscendingSnoc(s.reported, 0);
  }

  /** One event, then the rest of a run. */
  lemma OneMore(d: Disk, s: State, e: Event, next: State, es: seq<Event>, end: State)
    requires Enabled(d, s, e) && Step(d, s, e) == next && Run(d, next, es) && After(d, next, es) == end
    ensures Run(d, s, [e] + es) && After(d, s, [e] + es) == end
  {
    assert ([e] + es)[1..] == es;
  }

  lemma OpenFinds(d: Disk, s: State, seen: Slots, next: State, es: seq<Event>, end: State)
    requires s.handle == None && Readings(d, s.cached) == seen
    requires next == s.(handle := Some(Opening(seen)), reported := s.reported + [FloorOf(seen)])
    requires Run(d, next, es) && After(d, next, es) == end
    ensures Run(d, s, [Open(true)] + es) && After(d, s, [Open(true)] + es) == end
  {
    OneMore(d, s, Open(true), next, es, end);
  }

  lemma ReadingsAre(d: Disk, file: File, first: Option<nat>, second: Option<nat>)
    requires Reading(d, file, 0) == first && Reading(d, file, 1) == second
    ensures Readings(d, file) == Slots(first, second)
  {
  }

  /** A save of the first slot of a file that holds nothing in its second. */
  lemma LoneFloorReads(d: Disk, file: File, floor: nat, after: File)
    requires WritesLawfully(d) && floor < Pow256(8) && d.extended(file, 1) == None
    requires after == d.written(file, 0, floor)
    ensures Readings(d, after) == Slots(Some(floor), None)
  {
    ReadingsAre(d, after, Some(floor), None);
  }

  /** A save of the first slot, then the process ends. */
  lemma SaveAndRestart(d: Disk, s: State, floor: nat, after: File, next: State, es: seq<Event>, end: State)
    requires s.handle.Some? && Writes(s, floor) && s.handle.value.slot == 0 && s.cached == s.durable
    requires after == d.written(s.cached, 0, floor)
    requires next == State(after, after, None, s.reported + [floor], s.attempted + {floor})
    requires Run(d, next, es) && After(d, next, es) == end
    ensures Run(d, s, [Save(floor, false), Restart] + es) && After(d, s, [Save(floor, false), Restart] + es) == end
  {
    var saved := Saving(d, s, floor, false);
    OneMore(d, saved, Restart, next, es, end);
    OneMore(d, s, Save(floor, false), saved, [Restart] + es, end);
    assert [Save(floor, false)] + ([Restart] + es) == [Save(floor, false), Restart] + es;
  }

  lemma BlankFileReads(d: Disk)
    requires FillsLawfully(d)
    ensures Readings(d, None) == Slots(None, None) && d.extended(None, 1) == None
  {
    ReadingsAre(d, None, None, None);
  }

  /** From a file that reads as one floor, reported: a blind open, a lower save, and the floor is gone. */
  lemma BlindOpenThenSave(d: Disk, s: State, low: nat)
    requires Lawful(d) && 0 < low < Pow256(8) && s.handle == None && s.cached == s.durable
    requires d.extended(s.cached, 1) == None
    ensures var es := [Open(false), Save(low, false), Restart, Open(true)];
            && Run(d, s, es)
            && After(d, s, es).reported == s.reported + [0, low, low]
  {
    var blank, lone := Slots(None, None), Slots(Some(low), None);
    var file := d.written(s.cached, 0, low);
    var s1 := s.(handle := Some(Opening(blank)), reported := s.reported + [0]);
    var s2 := State(file, file, None, s1.reported + [low], s.attempted + {low});
    var end := s2.(handle := Some(Opening(lone)), reported := s2.reported + [low]);
    LoneFloorReads(d, s.cached, low, file);
    OpenFinds(d, s2, lone, end, [], end);
    SaveAndRestart(d, s1, low, file, s2, [Open(true)], end);
    OneMore(d, s, Open(false), s1, [Save(low, false), Restart, Open(true)], end);
  }

  /** A new file with one floor saved in it, and its handle. */
  function Fresh(d: Disk, floor: nat): State {
    var file := d.written(None, 0, floor);
    State(file, file, Some(Handle(floor, 1, false)), [0, floor], {floor})
  }

  lemma FirstSave(d: Disk, floor: nat, s: State, es: seq<Event>, end: State)
    requires Lawful(d) && 0 < floor < Pow256(8) && s == Fresh(d, floor) && Run(d, s, es) && After(d, s, es) == end
    ensures Run(d, Start(None), [Open(true), Save(floor, false)] + es)
    ensures After(d, Start(None), [Open(true), Save(floor, false)] + es) == end
  {
    var blank := Slots(None, None);
    var blankly := State(None, None, Some(Opening(blank)), [0], {});
    BlankFileReads(d);
    OneMore(d, blankly, Save(floor, false), s, es, end);
    OpenFinds(d, Start(None), blank, blankly, [Save(floor, false)] + es, end);
    assert [Open(true)] + ([Save(floor, false)] + es) == [Open(true), Save(floor, false)] + es;
  }

  lemma FreshReads(d: Disk, floor: nat, s: State)
    requires Lawful(d) && floor < Pow256(8) && s == Fresh(d, floor)
    ensures d.extended(s.durable, 0) == Some(floor) && d.extended(s.durable, 1) == None && d.whole(s.durable, 1)
  {
    BlankFileReads(d);
  }

  /** After a floor is saved, one open that cannot read the file reports zero, and a lower save then takes
      the floor's place for good. */
  lemma BlindOpenCanLoseAFloor(d: Disk, low: nat, floor: nat)
    requires Lawful(d) && 0 < low < floor < Pow256(8)
    ensures var es := [Open(true), Save(floor, false)] + [Restart, Open(false), Save(low, false), Restart, Open(true)];
            Run(d, Start(None), es) && After(d, Start(None), es).reported == [0, floor, 0, low, low]
  {
    var rest := [Open(false), Save(low, false), Restart, Open(true)];
    var s := Fresh(d, floor);
    FreshReads(d, floor, s);
    var down := s.(handle := None);
    BlindOpenThenSave(d, down, low);
    var end := After(d, down, rest);
    OneMore(d, s, Restart, down, rest, end);
    FirstSave(d, floor, s, [Restart] + rest, end);
    assert [Restart] + rest == [Restart, Open(false), Save(low, false), Restart, Open(true)];
  }

  /** An open that goes by what is only cached, then a write of the disk's one good slot, interrupted: what
      is left is what the disk holds in the other. */
  lemma OpenThenCrash(d: Disk, s: State, a: nat, b: nat, top: nat) returns (es: seq<Event>)
    requires BlotsLawfully(d) && TearsLawfully(d) && s.handle == None && d.whole(s.durable, 1)
    requires Readings(d, s.cached) == Slots(Some(a), Some(b)) && a <= b < top < Pow256(8)
    ensures Run(d, s, es)
    ensures After(d, s, es).reported == s.reported + [b, FloorOf(Slots(None, d.extended(s.durable, 1)))]
    ensures After(d, s, es).attempted == s.attempted + {top}
  {
    var both, low := Slots(Some(a), Some(b)), Slots(None, d.extended(s.durable, 1));
    var left := d.blotted(s.durable, 0);
    var crash := CrashInSave(top, left, false);
    ReadingsAre(d, left, None, low.second);
    var s1 := s.(handle := Some(Opening(both)), reported := s.reported + [b]);
    var s2 := State(left, left, None, s1.reported, s.attempted + {top});
    var s3 := s2.(handle := Some(Opening(low)), reported := s2.reported + [FloorOf(low)]);
    OpenFinds(d, s2, low, s3, [], s3);
    OneMore(d, s1, crash, s2, [Open(true)], s3);
    es := [crash, Open(true)];
    OpenFinds(d, s, both, s1, es, s3);
    es := [Open(true)] + es;
  }

  /** A save of the second slot that fails with its frame cached only, and a restart. */
  lemma FailAndRestart(d: Disk, s: State, floor: nat, kept: File, next: State, es: seq<Event>, end: State)
    requires WritesLawfully(d) && Writes(s, floor) && s.handle.value.slot == 1 && s.cached == s.durable
    requires d.torn(s.durable, 1, kept) && d.extended(kept, 1) == d.extended(s.durable, 1)
    requires next == State(kept, d.written(s.cached, 1, floor), None, s.reported, s.attempted + {floor})
    requires Run(d, next, es) && After(d, next, es) == end
    ensures var more := [SaveFails(floor, next.cached, kept, false), Restart] + es;
            Run(d, s, more) && After(d, s, more) == end
  {
    var failure := SaveFails(floor, next.cached, kept, false);
    var failed := next.(handle := Some(s.handle.value.(poisoned := true)));
    OneMore(d, failed, Restart, next, es, end);
    OneMore(d, s, failure, failed, [Restart] + es, end);
    assert [failure] + ([Restart] + es) == [failure, Restart] + es;
  }

  /** Both together, with a handle that found one floor, in the first slot. */
  lemma FailedSyncThenCrash(d: Disk, s: State, a: nat, b: nat, top: nat, kept: File) returns (es: seq<Event>)
    requires Lawful(d) && a < b < top < Pow256(8) && s.cached == s.durable && s.handle == Some(Handle(a, 1, false))
    requires d.extended(s.durable, 0) == Some(a) && d.whole(kept, 1)
    requires d.torn(s.durable, 1, kept) && d.extended(kept, 1) == d.extended(s.durable, 1)
    ensures Run(d, s, es)
    ensures After(d, s, es).reported == s.reported + [b, FloorOf(Slots(None, d.extended(s.durable, 1)))]
    ensures After(d, s, es).attempted == s.attempted + {b, top}
  {
    var cached := d.written(s.cached, 1, b);
    ReadingsAre(d, cached, Some(a), Some(b));
    var next := State(kept, cached, None, s.reported, s.attempted + {b});
    es := OpenThenCrash(d, next, a, b, top);
    FailAndRestart(d, s, b, kept, next, es, After(d, next, es));
    es := [SaveFails(b, cached, kept, false), Restart] + es;
  }

  /** An open between a failed save and the machine going down can lose a floor an earlier save
      acknowledged, with the one it reports itself. */
  lemma ReopeningAfterAFailedSyncCanLoseAnAcknowledgedFloor(d: Disk, a: nat, b: nat, top: nat) returns (es: seq<Event>)
    requires Lawful(d) && 0 < a < b < top < Pow256(8)
    ensures Run(d, Start(None), es) && After(d, Start(None), es).reported == [0, a, b, 0]
  {
    var s := Fresh(d, a);
    FreshReads(d, a, s);
    es := FailedSyncThenCrash(d, s, a, b, top, s.durable);
    FirstSave(d, a, s, es, After(d, s, es));
    es := [Open(true), Save(a, false)] + es;
  }

  lemma LowReadings(slots: Slots, k: Slot, floor: nat)
    requires floor > 0 && At(slots, k) == None && !AtLeast(At(slots, 1 - k), floor)
    ensures FloorOf(slots) < floor
  {
  }

  /** The condition on opens is exact: from any state kept so far, an open that is not safe reports less
      than was reported, or the next save can be interrupted so that the open after it does. */
  lemma UnsafeOpenCanRegress(d: Disk, s: State, readable: bool) returns (es: seq<Event>)
    requires Lawful(d) && Inv(d, s) && s.handle == None && !SafeOpen(d, s, readable)
    requires FloorOf(SeenBy(d, s, readable)) + 1 < Pow256(8)
    ensures es != [] && es[0] == Open(readable)
    ensures Run(d, s, es) && !Ascending(After(d, s, es).reported)
  {
    var seen := SeenBy(d, s, readable);
    var floor := FloorOf(seen);
    var after := Step(d, s, Open(readable));
    AscendingSnoc(s.reported, floor);
    if floor < Last(s.reported) {
      es := [Open(readable)];
      OneMore(d, s, Open(readable), after, [], after);
    } else {
      var k := WriteSlot(seen);
      var left := d.blotted(s.durable, k);
      var crash := CrashInSave(floor + 1, left, false);
      var found := Readings(d, left);
      var down := State(left, left, None, after.reported, after.attempted + {floor + 1});
      var end := down.(handle := Some(Opening(found)), reported := down.reported + [FloorOf(found)]);
      LowReadings(found, k, floor);
      AscendingSnoc(after.reported, FloorOf(found));
      OpenFinds(d, down, found, end, [], end);
      OneMore(d, after, crash, down, [Open(true)], end);
      OneMore(d, s, Open(readable), after, [crash, Open(true)], end);
      es := [Open(readable), crash, Open(true)];
    }
  }
}
