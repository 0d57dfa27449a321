/**
  The per-path byte cursor of `file_source.rs`, and what it guarantees while the
  file under it is appended to, truncated, regrown and replaced.
 */
module FileSource {
  import opened Options
  import C = Continuity
  import L = LineReader

  datatype FileIdentity = FileIdentity(inode: Option<nat>, fileSize: nat, mtime: string)

  /** Which file a replay rewound the head in, and to where. */
  datatype Rewound = Rewound(inode: nat, at: nat)

  datatype FileCursor = FileCursor(
    readByte: nat,
    committedByte: nat,
    seen: Option<FileIdentity>,
    generations: C.Gens,
    rewoundFor: Option<Rewound>)

  const FRESH: FileCursor := FileCursor(0, 0, None, C.FRESH, None)

  /** What `stat` answers for a path that names nothing. */
  const NO_FILE: FileIdentity := FileIdentity(None, 0, "")

  /** A completed read, without its records. */
  datatype Slice = Slice(start: nat, end: nat, identity: FileIdentity, discontinuity: Option<C.Discontinuity>)

  /** A batch's progress marker for one path. */
  datatype Marker = Marker(inode: Option<nat>, startByte: nat, endByte: nat, fileSize: nat)

  function ObservedOf(seen: Option<FileIdentity>): Option<C.Observed> {
    if seen.Some? then Some(C.Observed(seen.value.inode, seen.value.fileSize)) else None
  }

  /** The judgement a read makes of the open descriptor. */
  function Judge(c: FileCursor, found: FileIdentity): Option<C.Discontinuity> {
    C.Check(ObservedOf(c.seen), found.inode, found.fileSize, c.readByte)
  }

  /** Where a read of the file now open starts. */
  function ReadStart(c: FileCursor, found: FileIdentity): nat {
    if Judge(c, found).Some? then 0 else c.readByte
  }

  predicate CanSkip(c: FileCursor, current: FileIdentity) {
    && c.seen.Some?
    && c.seen.value.inode == current.inode
    && c.seen.value.fileSize == current.fileSize
    && c.seen.value.mtime != ""
    && c.seen.value.mtime == current.mtime
    && c.readByte == current.fileSize
  }

  // ---------------------------------------------------------------- the cursor operations as functions

  function Fold(c: FileCursor, slice: Slice): FileCursor {
    var restarted := if slice.discontinuity.Some?
                     then c.(committedByte := 0, generations := C.Discontinue(c.generations)) else c;
    restarted.(generations := C.Issue(restarted.generations, slice.start, slice.end),
               readByte := slice.end,
               seen := Some(slice.identity))
  }

  /** `restart` is the identity a failed read had already judged discontinuous. */
  function FoldFailure(c: FileCursor, restart: Option<FileIdentity>): FileCursor {
    if restart.None? then c
    else FileCursor(0, 0, restart, C.Discontinue(c.generations), c.rewoundFor)
  }

  function Commit(c: FileCursor, m: Marker, current: FileIdentity): (FileCursor, bool) {
    var (generations, settled) := C.Settle(c.generations, m.startByte, m.endByte);
    var c := c.(generations := generations);
    if settled.Stale? || !C.CommitIsCurrent(m.inode, current.inode, current.fileSize, m.endByte) then (c, false)
    else
      var c := c.(committedByte := m.endByte);
      if c.readByte < m.endByte then (c.(readByte := m.endByte), true)
      else if settled.Unknown? && c.readByte > m.endByte then
        (c.(readByte := m.endByte,
            seen := Some(FileIdentity(if m.inode.Some? then m.inode else current.inode, m.fileSize, ""))),
         true)
      else (c, true)
  }

  predicate IdentityMatches(marker: Option<nat>, current: Option<nat>) {
    marker == current
  }

  predicate MayDelete(stillCurrent: bool, m: Marker, current: FileIdentity) {
    stillCurrent && IdentityMatches(m.inode, current.inode) && m.endByte >= current.fileSize
  }

  predicate ReplayRefused(m: Marker, current: FileIdentity) {
    || (m.inode.Some? && current.inode.Some? && current.inode != m.inode)
    || m.startByte > current.fileSize
    || current.fileSize < m.fileSize
  }

  function Rewind(c: FileCursor, m: Marker, current: FileIdentity): FileCursor {
    var at := Max(m.startByte, c.committedByte);
    c.(readByte := at,
       generations := C.ReissueFrom(c.generations, at),
       rewoundFor := if current.inode.Some? then Some(Rewound(current.inode.value, at)) else None)
  }

  /** The file the cursor takes its position to be in. */
  function PositionIn(c: FileCursor): Option<nat> {
    if c.rewoundFor.Some? && c.rewoundFor.value.at == c.readByte then Some(c.rewoundFor.value.inode)
    else if c.seen.Some? then c.seen.value.inode else None
  }

  /** Where the next read of a marker's file starts, if the cursor is in that file. */
  function ReadPosition(c: FileCursor, markerInode: Option<nat>): Option<nat> {
    if markerInode.Some? && PositionIn(c) != markerInode then None else Some(c.readByte)
  }

  // ---------------------------------------------------------------- the adapter object

  /** One cursor per path; every operation touches the cursor of its own path only. */
  class Source {
    var cursors: map<string, FileCursor>
    var deleteAfterCommit: bool

    ghost function Cursor(path: string): FileCursor
      reads this
    {
      if path in cursors then cursors[path] else FRESH
    }

    constructor (deleteAfterCommit: bool)
      ensures cursors == map[] && this.deleteAfterCommit == deleteAfterCommit
    {
      cursors := map[];
      this.deleteAfterCommit := deleteAfterCommit;
    }

    method ApplySlice(path: string, slice: Slice)
      modifies this`cursors
      ensures cursors == old(cursors)[path := Fold(old(Cursor(path)), slice)]
    {
      var cursor := if path in cursors then cursors[path] else FRESH;
      if slice.discontinuity.Some? {
        cursor := cursor.(committedByte := 0);
        cursor := cursor.(generations := C.Discontinue(cursor.generations));
      }
      cursor := cursor.(generations := C.Issue(cursor.generations, slice.start, slice.end));
      cursor := cursor.(readByte := slice.end);
      cursor := cursor.(seen := Some(slice.identity));
      cursors := cursors[path := cursor];
    }

    method ApplyFailedRead(path: string, restart: Option<FileIdentity>)
      modifies this`cursors
      ensures restart.None? ==> cursors == old(cursors)
      ensures restart.Some? ==> cursors == old(cursors)[path := FoldFailure(old(Cursor(path)), restart)]
    {
      if restart.Some? {
        var cursor := if path in cursors then cursors[path] else FRESH;
        cursor := cursor.(committedByte := 0);
        cursor := cursor.(readByte := 0);
        cursor := cursor.(generations := C.Discontinue(cursor.generations));
        cursor := cursor.(seen := restart);
        cursors := cursors[path := cursor];
      }
    }

    /** `current` and `again` are the two stats of the path; `removable` says whether removing the file
        would succeed. */
    method CommitProgress(path: string, m: Marker, current: FileIdentity, again: FileIdentity, removable: bool)
      returns (removed: bool)
      modifies this`cursors
      ensures var (cursor, stillCurrent) := Commit(old(Cursor(path)), m, current);
              && removed == (deleteAfterCommit && MayDelete(stillCurrent, m, again) && removable)
              && cursors == if removed then old(cursors) - {path} else old(cursors)[path := cursor]
    {
      var c := if path in cursors then cursors[path] else FRESH;
      var (generations, settled) := C.Settle(c.generations, m.startByte, m.endByte);
      c := c.(generations := generations);
      var stillCurrent := !settled.Stale? && C.CommitIsCurrent(m.inode, current.inode, current.fileSize, m.endByte);
      if stillCurrent {
        c := c.(committedByte := m.endByte);
        if c.readByte < m.endByte {
          c := c.(readByte := m.endByte);
        } else if settled.Unknown? && c.readByte > m.endByte {
          c := c.(readByte := m.endByte);
          var inode := if m.inode.Some? then m.inode else current.inode;
          c := c.(seen := Some(FileIdentity(inode, m.fileSize, "")));
        }
      }
      cursors := cursors[path := c];
      removed := false;
      if deleteAfterCommit {
        if stillCurrent && IdentityMatches(m.inode, again.inode) && m.endByte >= again.fileSize && removable {
          cursors := cursors - {path};
          removed := true;
        }
      }
    }

    method ReplayFromMarker(path: string, m: Marker, current: FileIdentity) returns (ok: bool)
      modifies this`cursors
      ensures ok <==> !ReplayRefused(m, current)
      ensures cursors == if ok then old(cursors)[path := Rewind(old(Cursor(path)), m, current)] else old(cursors)
    {
      if m.inode.Some? && current.inode.Some? && current.inode != m.inode {
        return false;
      }
      if m.startByte > current.fileSize || current.fileSize < m.fileSize {
        return false;
      }
      var c := if path in cursors then cursors[path] else FRESH;
      c := c.(readByte := Max(m.startByte, c.committedByte));
      c := c.(rewoundFor := if current.inode.Some? then Some(Rewound(current.inode.value, c.readByte)) else None);
      c := c.(generations := C.ReissueFrom(c.generations, c.readByte));
      cursors := cursors[path := c];
      return true;
    }
  }

  // ---------------------------------------------------------------- the world around one path

  /** The file at the path. A truncation or a replacement starts a new incarnation. */
  datatype File = Absent | Present(incarnation: nat, id: FileIdentity)

  /** A range of one incarnation that a read handed to the engine. */
  datatype Handed = Handed(incarnation: nat, start: nat, end: nat)

  /** `inodes` holds the inode of each incarnation so far; `adopted` is the one the cursor's position
      belongs to; `log` is every read ever made. */
  datatype World = World(
    file: File,
    inodes: seq<Option<nat>>,
    deleteAfterCommit: bool,
    cursor: FileCursor,
    adopted: Option<nat>,
    log: seq<Handed>)

  datatype Event =
    | Append(grown: nat, mtime: string)
    | Replace(id: FileIdentity)
    | Remove
    | Read(end: nat, grown: nat, mtime: string)
    | FailRead(judged: bool)
    | SkipRead
    | CommitBatch(marker: Marker, removable: bool, meanwhile: Option<FileIdentity>)
    | Replay(marker: Marker)

  function Initial(deleteAfterCommit: bool): World {
    World(Absent, [], deleteAfterCommit, FRESH, None, [])
  }

  function StatOf(file: File): FileIdentity {
    if file.Present? then file.id else NO_FILE
  }

  function Grow(file: File, grown: nat, mtime: string): File
    requires file.Present?
  {
    Present(file.incarnation, FileIdentity(file.id.inode, file.id.fileSize + grown, mtime))
  }

  function Replaced(w: World, id: FileIdentity): World {
    w.(file := Present(|w.inodes|, id), inodes := w.inodes + [id.inode])
  }

  /** The path between the two stats of a commit: as it was, or replaced. */
  function Meanwhile(w: World, id: Option<FileIdentity>): World {
    if id.None? then w else Replaced(w, id.value)
  }

  /** The file can be appended to, or read from where the cursor starts up to
      somewhere within what it holds when the read ends. */
  predicate Enabled(w: World, e: Event) {
    match e
    case Append(_, _) => w.file.Present?
    case Read(end, grown, _) => w.file.Present? && ReadStart(w.cursor, w.file.id) <= end <= w.file.id.fileSize + grown
    case SkipRead => w.file.Present? && CanSkip(w.cursor, w.file.id)
    case _ => true
  }

  function Step(w: World, e: Event): World
    requires Enabled(w, e)
  {
    match e
    case Append(grown, mtime) => w.(file := Grow(w.file, grown, mtime))
    case Replace(id) => Replaced(w, id)
    case Remove => w.(file := Absent)
    case Read(end, grown, mtime) =>
      var judged := Judge(w.cursor, w.file.id);
      var start := ReadStart(w.cursor, w.file.id);
      var file := Grow(w.file, grown, mtime);
      w.(file := file,
         cursor := Fold(w.cursor, Slice(start, end, file.id, judged)),
         adopted := if judged.Some? || w.adopted.None? then Some(file.incarnation) else w.adopted,
         log := w.log + [Handed(file.incarnation, start, end)])
    case FailRead(judged) =>
      if judged && w.file.Present? && Judge(w.cursor, w.file.id).Some?
      then w.(cursor := FoldFailure(w.cursor, Some(w.file.id)), adopted := Some(w.file.incarnation))
      else w
    case SkipRead => w
    case CommitBatch(m, removable, meanwhile) =>
      var (cursor, stillCurrent) := Commit(w.cursor, m, StatOf(w.file));
      var w2 := Meanwhile(w, meanwhile);
      if w.deleteAfterCommit && w2.file.Present? && MayDelete(stillCurrent, m, StatOf(w2.file)) && removable
      then w2.(file := Absent, cursor := FRESH, adopted := None)
      else w2.(cursor := cursor)
    case Replay(m) =>
      if ReplayRefused(m, StatOf(w.file)) then w else w.(cursor := Rewind(w.cursor, m, StatOf(w.file)))
  }

  // ---------------------------------------------------------------- hypotheses of the no-skip theorem

  /** The file at the path is the one the cursor adopted, or a stat can tell it is not. */
  ghost predicate Detectable(w: World) {
    w.file.Present? && w.adopted.Some? && w.adopted.value != w.file.incarnation && w.cursor.seen.Some? ==>
      var seen, now := w.cursor.seen.value, w.file.id;
      (seen.inode.Some? && now.inode.Some? && seen.inode != now.inode) || now.fileSize < seen.fileSize
  }

  ghost predicate OnRecord(w: World, m: Marker) {
    C.Settle(w.cursor.generations, m.startByte, m.endByte).1 != C.Unknown
  }

  /** The marker names a range read from the incarnation the cursor has adopted. */
  ghost predicate NamesAdoptedRange(w: World, m: Marker) {
    exists i :: 0 <= i < |w.log| && w.adopted == Some(w.log[i].incarnation)
             && w.log[i].start == m.startByte && w.log[i].end == m.endByte
  }

  ghost predicate Admissible(w: World, e: Event) {
    match e
    case Read(_, _, _) => Detectable(w)
    case CommitBatch(m, _, _) => OnRecord(w, m)
    case Replay(m) => NamesAdoptedRange(w, m)
    case _ => true
  }

  ghost predicate Run(w: World, es: seq<Event>)
    decreases |es|
  {
    es == [] || (Enabled(w, es[0]) && Run(Step(w, es[0]), es[1..]))
  }

  ghost predicate AdmissibleRun(w: World, es: seq<Event>)
    decreases |es|
  {
    es == [] || (Enabled(w, es[0]) && Admissible(w, es[0]) && AdmissibleRun(Step(w, es[0]), es[1..]))
  }

  ghost function After(w: World, es: seq<Event>): World
    requires Run(w, es)
    decreases |es|
  {
    if es == [] then w else After(Step(w, es[0]), es[1..])
  }

  lemma {:induction false} AdmissibleIsRun(w: World, es: seq<Event>)
    requires AdmissibleRun(w, es)
    ensures Run(w, es)
    decreases |es|
  {
    if es != [] {
      AdmissibleIsRun(Step(w, es[0]), es[1..]);
    }
  }

  // ---------------------------------------------------------------- committed point and read head

  lemma StepKeepsHeadAhead(w: World, e: Event)
    requires Enabled(w, e) && w.cursor.committedByte <= w.cursor.readByte
    ensures Step(w, e).cursor.committedByte <= Step(w, e).cursor.readByte
  {
  }

  /** On every run whatever, hypotheses or not, the committed point never passes the read head. */
  lemma {:induction false} CommittedNeverPassesHead(w: World, es: seq<Event>)
    requires Run(w, es) && w.cursor.committedByte <= w.cursor.readByte
    ensures After(w, es).cursor.committedByte <= After(w, es).cursor.readByte
    decreases |es|
  {
    if es != [] {
      StepKeepsHeadAhead(w, es[0]);
      CommittedNeverPassesHead(Step(w, es[0]), es[1..]);
    }
  }

  // ---------------------------------------------------------------- bytes handed out

  ghost predicate WasHandedOut(log: seq<Handed>, incarnation: nat, b: nat) {
    exists i :: 0 <= i < |log| && log[i].incarnation == incarnation && log[i].start <= b < log[i].end
  }

  /** Every byte of the incarnation below `n` has been handed out. */
  ghost predicate Covered(log: seq<Handed>, incarnation: nat, n: nat) {
    forall b: nat :: b < n ==> WasHandedOut(log, incarnation, b)
  }

  lemma CoveredStays(log: seq<Handed>, h: Handed, incarnation: nat, n: nat)
    requires Covered(log, incarnation, n)
    ensures Covered(log + [h], incarnation, n)
  {
    forall b: nat | b < n ensures WasHandedOut(log + [h], incarnation, b) {
      assert WasHandedOut(log, incarnation, b);
      var i :| 0 <= i < |log| && log[i].incarnation == incarnation && log[i].start <= b < log[i].end;
      assert (log + [h])[i] == log[i];
    }
  }

  lemma CoveredGrows(log: seq<Handed>, incarnation: nat, start: nat, end: nat)
    requires Covered(log, incarnation, start)
    ensures Covered(log + [Handed(incarnation, start, end)], incarnation, end)
  {
    var grown := log + [Handed(incarnation, start, end)];
    CoveredStays(log, Handed(incarnation, start, end), incarnation, start);
    forall b: nat | b < end ensures WasHandedOut(grown, incarnation, b) {
      if start <= b {
        assert grown[|log|] == Handed(incarnation, start, end);
      }
    }
  }

  // ---------------------------------------------------------------- the invariant

  /** Within what the cursor observed, and handed out from the first byte on. */
  ghost predicate Read0(w: World, n: nat) {
    && w.adopted.Some? && w.cursor.seen.Some?
    && n <= w.cursor.seen.value.fileSize
    && Covered(w.log, w.adopted.value, n)
  }

  ghost predicate HistoryInv(w: World) {
    && (w.file.Present? ==> w.file.incarnation < |w.inodes| && w.inodes[w.file.incarnation] == w.file.id.inode)
    && (forall i :: 0 <= i < |w.log| ==> w.log[i].incarnation < |w.inodes| && w.log[i].start <= w.log[i].end)
    && (w.file.Present? && w.adopted != Some(w.file.incarnation) ==>
          forall i :: 0 <= i < |w.log| ==> w.log[i].incarnation != w.file.incarnation)
  }

  ghost predicate AdoptedInv(w: World) {
    && w.adopted.Some? && w.adopted.value < |w.inodes| && w.cursor.seen.Some?
    && w.cursor.seen.value.inode == w.inodes[w.adopted.value]
    && Read0(w, w.cursor.readByte)
    && (forall x :: x in w.cursor.generations.issued && x.generation == w.cursor.generations.current ==>
          Read0(w, x.end) && x.start < w.cursor.readByte)
    && (forall i :: 0 <= i < |w.log| && w.log[i].incarnation == w.adopted.value ==> Read0(w, w.log[i].end))
    && (w.file.Present? && w.file.incarnation == w.adopted.value ==>
          w.cursor.seen.value.fileSize <= w.file.id.fileSize)
  }

  ghost predicate Inv(w: World) {
    && w.cursor.committedByte <= w.cursor.readByte
    && (forall x :: x in w.cursor.generations.issued ==>
                      x.start < x.end && x.generation <= w.cursor.generations.current)
    && HistoryInv(w)
    && (if w.adopted.None? then w.cursor == FRESH else AdoptedInv(w))
  }

  /** A judged discontinuity is always a file the cursor had not adopted. */
  lemma JudgedMeansNewFile(w: World)
    requires Inv(w) && w.file.Present? && Judge(w.cursor, w.file.id).Some?
    ensures w.adopted != Some(w.file.incarnation)
  {
  }

  lemma ReadKeepsInv(w: World, e: Event)
    requires Inv(w) && e.Read? && Enabled(w, e) && Detectable(w)
    ensures Inv(Step(w, e))
  {
    var w' := Step(w, e);
    var k := w.file.incarnation;
    var start := ReadStart(w.cursor, w.file.id);
    var h := Handed(k, start, e.end);
    assert w'.log == w.log + [h];
    if Judge(w.cursor, w.file.id).Some? {
      JudgedMeansNewFile(w);
    }
    assert w'.adopted == Some(k);
    assert Covered(w.log, k, start);
    CoveredGrows(w.log, k, start, e.end);
    assert Read0(w', e.end);
    forall i | 0 <= i < |w'.log| && w'.log[i].incarnation == k
      ensures Read0(w', w'.log[i].end)
    {
      if i < |w.log| {
        CoveredStays(w.log, h, k, w.log[i].end);
      }
    }
    forall x | x in w'.cursor.generations.issued && x.generation == w'.cursor.generations.current
      ensures Read0(w', x.end) && x.start < w'.cursor.readByte
    {
      if x in w.cursor.generations.issued && Judge(w.cursor, w.file.id).None? {
        CoveredStays(w.log, h, k, x.end);
      }
    }
  }

  lemma FailReadKeepsInv(w: World, judged: bool)
    requires Inv(w)
    ensures Inv(Step(w, FailRead(judged)))
  {
    if judged && w.file.Present? && Judge(w.cursor, w.file.id).Some? {
      JudgedMeansNewFile(w);
    }
  }

  lemma SettleKeepsRecords(g: C.Gens, start: nat, end: nat)
    ensures forall x :: x in C.Settle(g, start, end).0.issued ==> x in g.issued
    ensures C.Settle(g, start, end).0.current == g.current
    ensures C.Settle(g, start, end).1 == C.Current ==> C.Issued(start, end, g.current) in g.issued
  {
  }

  lemma ReplacedKeepsInv(w: World, id: FileIdentity)
    requires Inv(w)
    ensures Inv(Replaced(w, id))
  {
    var w' := Replaced(w, id);
    if w.adopted.Some? {
      forall n | Read0(w, n) ensures Read0(w', n) {
      }
    }
  }

  /** The cursor's part of a commit, whatever has meanwhile become of the path. */
  lemma SettledKeepsInv(w: World, w2: World, m: Marker, current: FileIdentity)
    requires Inv(w2) && OnRecord(w2, m) && w2.adopted.Some?
    requires w == w2.(cursor := Commit(w2.cursor, m, current).0)
    ensures Inv(w)
  {
    SettleKeepsRecords(w2.cursor.generations, m.startByte, m.endByte);
    forall x | x in w.cursor.generations.issued && x.generation == w.cursor.generations.current
      ensures Read0(w, x.end) && x.start < w.cursor.readByte
    {
      assert Read0(w2, x.end);
    }
    assert Read0(w2, w2.cursor.readByte);
    forall i | 0 <= i < |w.log| && w.log[i].incarnation == w.adopted.value ensures Read0(w, w.log[i].end) {
      assert Read0(w2, w.log[i].end);
    }
  }

  lemma CommitKeepsInv(w: World, m: Marker, removable: bool, meanwhile: Option<FileIdentity>)
    requires Inv(w) && OnRecord(w, m)
    ensures Inv(Step(w, CommitBatch(m, removable, meanwhile)))
  {
    var w2 := Meanwhile(w, meanwhile);
    DeletingCommitHasAdopted(w, CommitBatch(m, removable, meanwhile));
    SettledKeepsInv(w2.(cursor := Commit(w.cursor, m, StatOf(w.file)).0), w2, m, StatOf(w.file));
  }

  lemma ReplayKeepsInv(w: World, m: Marker)
    requires Inv(w) && NamesAdoptedRange(w, m)
    ensures Inv(Step(w, Replay(m)))
  {
    var i :| 0 <= i < |w.log| && w.adopted == Some(w.log[i].incarnation)
          && w.log[i].start == m.startByte && w.log[i].end == m.endByte;
    assert Read0(w, w.log[i].end);
    assert Read0(w, w.cursor.readByte);
    var w' := Step(w, Replay(m));
    assert Read0(w', w'.cursor.readByte);
    forall x | x in w'.cursor.generations.issued && x.generation == w'.cursor.generations.current
      ensures Read0(w', x.end) && x.start < w'.cursor.readByte
    {
      assert Read0(w, x.end);
    }
    forall j | 0 <= j < |w.log| && w.log[j].incarnation == w.adopted.value ensures Read0(w', w.log[j].end) {
      assert Read0(w, w.log[j].end);
    }
  }

  lemma FileChangeKeepsInv(w: World, e: Event)
    requires Inv(w) && Enabled(w, e) && (e.Append? || e.Replace? || e.Remove? || e.SkipRead?)
    ensures Inv(Step(w, e))
  {
    var w' := Step(w, e);
    if w.adopted.Some? {
      forall n | Read0(w, n) ensures Read0(w', n) {
      }
    }
  }

  lemma StepKeepsInv(w: World, e: Event)
    requires Inv(w) && Enabled(w, e) && Admissible(w, e)
    ensures Inv(Step(w, e))
  {
    match e
    case Read(_, _, _) => ReadKeepsInv(w, e);
    case FailRead(judged) => FailReadKeepsInv(w, judged);
    case CommitBatch(m, removable, meanwhile) => CommitKeepsInv(w, m, removable, meanwhile);
    case Replay(m) => ReplayKeepsInv(w, m);
    case _ => FileChangeKeepsInv(w, e);
  }

  lemma {:induction false} RunKeepsInv(w: World, es: seq<Event>)
    requires Inv(w) && AdmissibleRun(w, es)
    ensures Run(w, es) && Inv(After(w, es))
    decreases |es|
  {
    AdmissibleIsRun(w, es);
    if es != [] {
      StepKeepsInv(w, es[0]);
      RunKeepsInv(Step(w, es[0]), es[1..]);
    }
  }

  // ---------------------------------------------------------------- the theorems

  /** On every admissible run, every byte of the adopted file below the read
      head has been handed out, and so has every byte below the committed point. */
  lemma HeadNeverSkips(deleteAfterCommit: bool, es: seq<Event>)
    requires AdmissibleRun(Initial(deleteAfterCommit), es)
    ensures Run(Initial(deleteAfterCommit), es)
    ensures var w := After(Initial(deleteAfterCommit), es);
            if w.adopted.Some? then Covered(w.log, w.adopted.value, w.cursor.readByte) else w.cursor.readByte == 0
    ensures var w := After(Initial(deleteAfterCommit), es);
            w.cursor.committedByte <= w.cursor.readByte
  {
    RunKeepsInv(Initial(deleteAfterCommit), es);
    var w := After(Initial(deleteAfterCommit), es);
    assert w.adopted.Some? ==> Read0(w, w.cursor.readByte);
  }

  /** No live record names bytes that are still to be handed out: a range that a
      replay makes the next reads hand out again is recorded once, when it is. */
  lemma NoLiveRecordAheadOfHead(deleteAfterCommit: bool, es: seq<Event>, x: C.Issued)
    requires AdmissibleRun(Initial(deleteAfterCommit), es)
    ensures Run(Initial(deleteAfterCommit), es)
    ensures var c := After(Initial(deleteAfterCommit), es).cursor;
            x in c.generations.issued && x.generation == c.generations.current ==> x.start < c.readByte
  {
    RunKeepsInv(Initial(deleteAfterCommit), es);
  }

  /** The next read leaves no byte of the file at the path behind it unread
      exactly when that file is the adopted one, or the judgement restarts the
      read, or the head is at byte 0. */
  lemma NextReadSkipsNothingExactlyWhenJudged(deleteAfterCommit: bool, es: seq<Event>)
    requires AdmissibleRun(Initial(deleteAfterCommit), es)
    ensures Run(Initial(deleteAfterCommit), es)
    ensures var w := After(Initial(deleteAfterCommit), es);
            w.file.Present? ==>
              (Covered(w.log, w.file.incarnation, ReadStart(w.cursor, w.file.id))
               <==> w.adopted == Some(w.file.incarnation) || Judge(w.cursor, w.file.id).Some? || w.cursor.readByte == 0)
  {
    RunKeepsInv(Initial(deleteAfterCommit), es);
    var w := After(Initial(deleteAfterCommit), es);
    if w.file.Present? {
      if w.adopted == Some(w.file.incarnation) {
        assert Read0(w, w.cursor.readByte);
      } else if 0 < ReadStart(w.cursor, w.file.id) {
        assert !WasHandedOut(w.log, w.file.incarnation, 0);
      }
    }
  }

  /** The restart judgement is never spurious: the adopted file is not re-read from byte 0. */
  lemma AdoptedFileIsNeverRestarted(deleteAfterCommit: bool, es: seq<Event>)
    requires AdmissibleRun(Initial(deleteAfterCommit), es)
    ensures Run(Initial(deleteAfterCommit), es)
    ensures var w := After(Initial(deleteAfterCommit), es);
            w.file.Present? && w.adopted == Some(w.file.incarnation) ==>
              Judge(w.cursor, w.file.id).None? && ReadStart(w.cursor, w.file.id) == w.cursor.readByte
  {
    RunKeepsInv(Initial(deleteAfterCommit), es);
    var w := After(Initial(deleteAfterCommit), es);
    if w.file.Present? && Judge(w.cursor, w.file.id).Some? {
      JudgedMeansNewFile(w);
    }
  }

  /** The stat-before-read shortcut is a stutter of the read it replaces: on the
      unchanged file either mode returns nothing and leaves the whole cursor alone. */
  lemma SkipIsAStutter(c: FileCursor, content: seq<L.byte>, id: FileIdentity, maxRecords: nat, maxBytes: nat)
    requires CanSkip(c, id) && |content| == id.fileSize
    ensures c.seen == Some(id) && id.mtime != ""
    ensures Judge(c, id).None? && ReadStart(c, id) == |content|
    ensures L.ReadFrom(content, ReadStart(c, id), maxRecords, maxBytes) == L.Taken([], c.readByte)
    ensures L.ReadWhole(content, ReadStart(c, id), maxBytes) == L.Taken([], c.readByte)
    ensures Fold(c, Slice(ReadStart(c, id), c.readByte, id, Judge(c, id))) == c
  {
    L.ReadAtEndIsEmpty(content, maxRecords, maxBytes);
  }

  /** A commit with no record behind it (a restart, an evicted record) moves the
      cursor exactly when its range lies in the file at the path and neither
      identity contradicts it; the head then restarts at the range's end, and if
      it was above, the next read judges the file by the length and identity the
      batch itself saw. */
  lemma RecoveryCommitRestartsAtItsEnd(c: FileCursor, m: Marker, current: FileIdentity, found: FileIdentity)
    requires C.Settle(c.generations, m.startByte, m.endByte).1 == C.Unknown
    ensures var (c', moved) := Commit(c, m, current);
            && (moved <==> (&& m.endByte <= current.fileSize
                            && (m.inode == current.inode || m.inode.None? || current.inode.None?)))
            && (!moved ==> c' == c)
            && (moved ==> c'.readByte == c'.committedByte == m.endByte)
            && (moved && c.readByte > m.endByte ==>
                  && (found.fileSize < m.fileSize ==> Judge(c', found).Some?)
                  && (m.inode.Some? && found.inode.Some? && m.inode != found.inode ==> Judge(c', found).Some?)
                  && (m.inode.None? && current.inode.Some? && found.inode.Some? && current.inode != found.inode ==>
                        Judge(c', found).Some?)
                  && !CanSkip(c', found))
  {
    var q := c.generations.issued;
    assert C.FirstMatch(q, m.startByte, m.endByte) == |q|;
  }

  // ---------------------------------------------------------------- delete-after-commit

  /** Every byte of the file at the path has been handed out. */
  ghost predicate FullyRead(w: World) {
    w.file.Present? ==> Covered(w.log, w.file.incarnation, w.file.id.fileSize)
  }

  /** The path as a commit's second stat finds it. */
  function BeforeDeletion(w: World, e: Event): World
    requires e.CommitBatch?
  {
    Meanwhile(w, e.meanwhile)
  }

  ghost predicate Deletes(w: World, e: Event) {
    e.CommitBatch? && BeforeDeletion(w, e).file.Present? && Enabled(w, e) && Step(w, e).file.Absent?
  }

  /** A commit that deletes the file destroys no unread byte exactly when the file it finds is the
      incarnation the cursor adopted, or empty. */
  lemma DeletionLosesNothingExactlyWhenAdopted(w: World, e: Event)
    requires Inv(w) && Admissible(w, e) && Deletes(w, e)
    ensures var w2 := BeforeDeletion(w, e);
            FullyRead(w2) <==> w2.adopted == Some(w2.file.incarnation) || w2.file.id.fileSize == 0
  {
    var w2, m := BeforeDeletion(w, e), e.marker;
    if e.meanwhile.Some? {
      ReplacedKeepsInv(w, e.meanwhile.value);
    }
    SettleKeepsRecords(w.cursor.generations, m.startByte, m.endByte);
    assert w.adopted.Some? && Read0(w2, m.endByte);
    if w2.adopted != Some(w2.file.incarnation) && 0 < w2.file.id.fileSize {
      assert !WasHandedOut(w2.log, w2.file.incarnation, 0);
    }
  }

  /** Where a stat can tell the adopted file from another, the judgement tells which it is. */
  lemma JudgementTellsTheFile(w: World)
    requires Inv(w) && w.file.Present? && w.adopted.Some? && Detectable(w)
    ensures w.adopted == Some(w.file.incarnation) <==> Judge(w.cursor, w.file.id).None?
  {
    if Judge(w.cursor, w.file.id).Some? {
      JudgedMeansNewFile(w);
    }
  }

  lemma DeletingCommitHasAdopted(w: World, e: Event)
    requires Inv(w) && Admissible(w, e) && e.CommitBatch?
    ensures w.adopted.Some? && Inv(BeforeDeletion(w, e)) && BeforeDeletion(w, e).adopted == w.adopted
  {
    var issued := w.cursor.generations.issued;
    assert C.FirstMatch(issued, e.marker.startByte, e.marker.endByte) < |issued|;
    if e.meanwhile.Some? {
      ReplacedKeepsInv(w, e.meanwhile.value);
    }
  }

  /** In terms the adapter can check: where a stat can tell the adopted file from another, a deletion loses
      nothing exactly when the continuity judgement of the file about to be deleted finds nothing, or the
      file is empty. */
  lemma DeletionLosesNothingExactlyWhenJudged(deleteAfterCommit: bool, es: seq<Event>, e: Event)
    requires AdmissibleRun(Initial(deleteAfterCommit), es)
    ensures Run(Initial(deleteAfterCommit), es)
    ensures var w := After(Initial(deleteAfterCommit), es);
            Admissible(w, e) && Deletes(w, e) && Detectable(BeforeDeletion(w, e)) ==>
              var w2 := BeforeDeletion(w, e);
              FullyRead(w2) <==> Judge(w2.cursor, w2.file.id).None? || w2.file.id.fileSize == 0
  {
    RunKeepsInv(Initial(deleteAfterCommit), es);
    var w := After(Initial(deleteAfterCommit), es);
    if Admissible(w, e) && Deletes(w, e) && Detectable(BeforeDeletion(w, e)) {
      DeletingCommitHasAdopted(w, e);
      DeletionLosesNothingExactlyWhenAdopted(w, e);
      JudgementTellsTheFile(BeforeDeletion(w, e));
    }
  }

  /** The commit that shows the condition is needed: the file is truncated and
      regrown to exactly the committed range's end before any read of it. */
  const REGROWN: seq<Event> := [
    Replace(FileIdentity(Some(7), 100, "a")),
    Read(40, 0, "a"),
    Replace(FileIdentity(Some(7), 40, "b"))]

  const LATE_COMMIT: Event := CommitBatch(Marker(Some(7), 0, 40, 100), true, None)

  lemma RegrownFileIsDeletedUnread()
    ensures AdmissibleRun(Initial(true), REGROWN) && Run(Initial(true), REGROWN)
    ensures var w := After(Initial(true), REGROWN);
            Admissible(w, LATE_COMMIT) && Detectable(w) && Deletes(w, LATE_COMMIT) && !FullyRead(w)
  {
    var w0 := Initial(true);
    var w1 := Step(w0, REGROWN[0]);
    var w2 := Step(w1, REGROWN[1]);
    var w3 := Step(w2, REGROWN[2]);
    assert REGROWN[1..][1..][1..] == [];
    assert REGROWN[1..][0] == REGROWN[1] && REGROWN[1..][1..][0] == REGROWN[2];
    assert AdmissibleRun(w3, []) && Run(w3, []);
    assert AdmissibleRun(w2, REGROWN[1..][1..]);
    assert AdmissibleRun(w1, REGROWN[1..]);
    AdmissibleIsRun(w0, REGROWN);
    assert After(w0, REGROWN) == w3;
    assert w3.cursor.generations.issued == [C.Issued(0, 40, 0)];
    assert !WasHandedOut(w3.log, w3.file.incarnation, 0);
  }

  // ---------------------------------------------------------------- whose position the cursor reports

  /** A rewind on record at the very byte the head is at, for another file than the last one read. */
  predicate RewindOutlivedItsFile(c: FileCursor) {
    && c.rewoundFor.Some? && c.rewoundFor.value.at == c.readByte
    && c.seen.Some? && c.seen.value.inode != Some(c.rewoundFor.value.inode)
  }

  /** The cursor answers for markers of the file its position is in, and for no other. */
  ghost predicate AnswersForItsFile(w: World)
    requires w.adopted.Some? && w.adopted.value < |w.inodes|
  {
    forall inode: nat :: ReadPosition(w.cursor, Some(inode)).Some? <==> w.inodes[w.adopted.value] == Some(inode)
  }

  /** After every admissible run: the cursor answers for markers of exactly the file its position is in,
      except exactly while a rewind on record has outlived its file. */
  lemma PositionAnswersForItsFileExactlyWhen(deleteAfterCommit: bool, es: seq<Event>)
    requires AdmissibleRun(Initial(deleteAfterCommit), es)
    ensures Run(Initial(deleteAfterCommit), es)
    ensures var w := After(Initial(deleteAfterCommit), es);
            w.adopted.Some? ==>
              && w.adopted.value < |w.inodes|
              && (AnswersForItsFile(w) <==> !RewindOutlivedItsFile(w.cursor))
  {
    RunKeepsInv(Initial(deleteAfterCommit), es);
    var w := After(Initial(deleteAfterCommit), es);
    if w.adopted.Some? {
      assert w.cursor.seen.value.inode == w.inodes[w.adopted.value];
      if RewindOutlivedItsFile(w.cursor) {
        assert ReadPosition(w.cursor, Some(w.cursor.rewoundFor.value.inode)).Some?;
      } else {
        assert PositionIn(w.cursor) == w.cursor.seen.value.inode;
      }
    }
  }

  /** Such a rewind: a file is read and rewound to byte 0, then replaced, and the first read of the new
      file takes nothing yet. The cursor is in the new file, and still answers for the old one only. */
  const OUTLIVED: seq<Event> := [
    Replace(FileIdentity(Some(7), 10, "a")),
    Read(10, 0, "a"),
    Replay(Marker(Some(7), 0, 10, 10)),
    Replace(FileIdentity(Some(8), 5, "b")),
    Read(0, 0, "b")]

  /** The world once the file has been read and rewound. */
  const REWOUND: World := World(
    Present(0, FileIdentity(Some(7), 10, "a")), [Some(7)], false,
    FileCursor(0, 0, Some(FileIdentity(Some(7), 10, "a")), C.FRESH, Some(Rewound(7, 0))), Some(0), [Handed(0, 0, 10)])

  lemma ReadAndRewound()
    ensures AdmissibleRun(Initial(false), OUTLIVED[..3]) && Run(Initial(false), OUTLIVED[..3])
    ensures After(Initial(false), OUTLIVED[..3]) == REWOUND
  {
    var w1 := Step(Initial(false), OUTLIVED[0]);
    var w2 := Step(w1, OUTLIVED[1]);
    assert w2.log == [Handed(0, 0, 10)] && w2.log[0].end == 10;
    assert w2.cursor.generations.issued == [C.Issued(0, 10, 0)];
    assert C.StartingBelow([C.Issued(0, 10, 0)], 0) == [];
    OneMore(w2, OUTLIVED[2], []);
    OneMore(w1, OUTLIVED[1], [OUTLIVED[2]]);
    OneMore(Initial(false), OUTLIVED[0], [OUTLIVED[1], OUTLIVED[2]]);
    assert [OUTLIVED[2]] + [] == [OUTLIVED[2]] && [OUTLIVED[1]] + [OUTLIVED[2]] == [OUTLIVED[1], OUTLIVED[2]];
    assert [OUTLIVED[0]] + [OUTLIVED[1], OUTLIVED[2]] == OUTLIVED[..3];
  }

  lemma ThenReplaced()
    ensures AdmissibleRun(REWOUND, OUTLIVED[3..]) && Run(REWOUND, OUTLIVED[3..])
    ensures var w := After(REWOUND, OUTLIVED[3..]);
            && w.adopted == Some(1) && w.inodes == [Some(7), Some(8)]
            && ReadPosition(w.cursor, Some(7)) == Some(0) && ReadPosition(w.cursor, Some(8)) == None
  {
    var w4 := Step(REWOUND, OUTLIVED[3]);
    assert Judge(w4.cursor, w4.file.id).Some?;
    OneMore(w4, OUTLIVED[4], []);
    OneMore(REWOUND, OUTLIVED[3], [OUTLIVED[4]]);
    assert [OUTLIVED[4]] + [] == [OUTLIVED[4]] && [OUTLIVED[3]] + [OUTLIVED[4]] == OUTLIVED[3..];
  }

  lemma {:induction false} RunOn(w: World, es: seq<Event>, more: seq<Event>)
    requires AdmissibleRun(w, es) && Run(w, es) && AdmissibleRun(After(w, es), more)
    ensures AdmissibleRun(w, es + more) && Run(w, es + more) && Run(After(w, es), more)
    ensures After(w, es + more) == After(After(w, es), more)
    decreases |es|
  {
    AdmissibleIsRun(After(w, es), more);
    if es == [] {
      assert es + more == more;
    } else {
      assert (es + more)[1..] == es[1..] + more;
      RunOn(Step(w, es[0]), es[1..], more);
    }
  }

  lemma EmptyReadKeepsTheOldRewind()
    ensures AdmissibleRun(Initial(false), OUTLIVED) && Run(Initial(false), OUTLIVED)
    ensures var w := After(Initial(false), OUTLIVED);
            && w.adopted == Some(1) && w.inodes == [Some(7), Some(8)]
            && ReadPosition(w.cursor, Some(7)) == Some(0) && ReadPosition(w.cursor, Some(8)) == None
  {
    ReadAndRewound();
    ThenReplaced();
    RunOn(Initial(false), OUTLIVED[..3], OUTLIVED[3..]);
    assert OUTLIVED[..3] + OUTLIVED[3..] == OUTLIVED;
  }

  /** A run one event longer. */
  lemma OneMore(w: World, e: Event, es: seq<Event>)
    requires Enabled(w, e) && Admissible(w, e) && AdmissibleRun(Step(w, e), es)
    ensures AdmissibleRun(w, [e] + es) && Run(w, [e] + es) && Run(Step(w, e), es)
    ensures After(w, [e] + es) == After(Step(w, e), es)
  {
    assert ([e] + es)[0] == e && ([e] + es)[1..] == es;
    AdmissibleIsRun(Step(w, e), es);
  }
}
