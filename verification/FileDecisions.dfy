/**
  When each operation of the file cursor acts, and what it then does, told of the world and not of
  the code's own tests.
 */
module FileDecisions {
  import opened FileSource
  import opened Options
  import C = Continuity

  /** Both inodes are known, and they differ. */
  predicate KnownToDiffer(a: Option<nat>, b: Option<nat>) {
    a.Some? && b.Some? && a != b
  }

  // ---------------------------------------------------------------- reads

  /** A read starts over exactly when the file at the path is known to be another than the one last seen, or
      is shorter than it was then, or than the position; else it goes on at the position. */
  lemma ReadStartsOverExactlyWhen(c: FileCursor, found: FileIdentity)
    ensures Judge(c, found).Some?
       <==> || found.fileSize < c.readByte
            || (c.seen.Some? && found.fileSize < c.seen.value.fileSize)
            || (c.seen.Some? && KnownToDiffer(c.seen.value.inode, found.inode))
    ensures ReadStart(c, found) == if Judge(c, found).Some? then 0 else c.readByte
  {
    C.JudgedExactlyWhen(ObservedOf(c.seen), found.inode, found.fileSize, c.readByte);
  }

  /** The read is skipped exactly when the path's stat, modification time included, is the one last seen and
      everything of it has been read. */
  lemma SkippedExactlyWhen(c: FileCursor, current: FileIdentity)
    ensures CanSkip(c, current) <==> c.seen == Some(current) && current.mtime != "" && c.readByte == current.fileSize
  {
  }

  /** A read that takes something puts what it took on record, of the generation it leaves the cursor in; what
      it took starts where the judgement says. */
  lemma ReadPutsItsRangeOnRecord(w: World, e: Event)
    requires e.Read? && Enabled(w, e) && ReadStart(w.cursor, w.file.id) < e.end
    ensures var w', start := Step(w, e), ReadStart(w.cursor, w.file.id);
            && C.Issued(start, e.end, w'.cursor.generations.current) in w'.cursor.generations.issued
            && w'.cursor.readByte == e.end && w'.log == w.log + [Handed(w.file.incarnation, start, e.end)]
            && w'.cursor.generations.current
               == w.cursor.generations.current + (if Judge(w.cursor, w.file.id).Some? then 1 else 0)
  {
    var issued := Step(w, e).cursor.generations.issued;
    assert issued[|issued| - 1].start == ReadStart(w.cursor, w.file.id);
  }

  /** The file at the path only grows. */
  predicate OnlyGrows(es: seq<Event>) {
    forall i :: 0 <= i < |es| ==> es[i].Append?
  }

  lemma {:induction false} GrowsFrom(w: World, es: seq<Event>)
    requires Run(w, es) && OnlyGrows(es) && w.file.Present?
    ensures var w' := After(w, es);
            && w' == w.(file := w'.file) && w'.file.Present? && w'.file.incarnation == w.file.incarnation
            && w'.file.id.inode == w.file.id.inode && w'.file.id.fileSize >= w.file.id.fileSize
    decreases |es|
  {
    if es != [] {
      GrowsFrom(Step(w, es[0]), es[1..]);
    }
  }

  /** A read that judges the file another and then fails has seen it all the same: however much the file grows
      before the next read, past its old length and the old position too, that read starts at byte 0. */
  lemma FailedReadRemembersItsJudgement(w: World, es: seq<Event>)
    requires w.file.Present? && Judge(w.cursor, w.file.id).Some?
    requires Run(Step(w, FailRead(true)), es) && OnlyGrows(es)
    ensures var w' := After(Step(w, FailRead(true)), es);
            && w'.file.Present? && ReadStart(w'.cursor, w'.file.id) == 0 && w'.cursor.committedByte == 0
            && w'.adopted == Some(w.file.incarnation) && w'.cursor.generations.current > w.cursor.generations.current
  {
    GrowsFrom(Step(w, FailRead(true)), es);
  }

  // ---------------------------------------------------------------- commits

  /** The commit is of the file at the path: its range was not read before a discontinuity, lies within the
      file, and neither inode contradicts it. */
  ghost predicate TakenFor(c: FileCursor, m: Marker, current: FileIdentity) {
    && C.Settle(c.generations, m.startByte, m.endByte).1 != C.Stale
    && m.endByte <= current.fileSize
    && !KnownToDiffer(m.inode, current.inode)
  }

  /** A commit moves the committed point, to its end, exactly when it is taken; one that is not leaves all but
      the record of its range alone. One on record leaves the head where it is, or takes it along. */
  lemma CommitIsTakenExactlyWhen(c: FileCursor, m: Marker, current: FileIdentity)
    ensures var (c', taken) := Commit(c, m, current);
            && (taken <==> TakenFor(c, m, current))
            && (!taken ==> c' == c.(generations := c'.generations))
            && (taken ==> c'.committedByte == m.endByte)
            && (taken && C.Settle(c.generations, m.startByte, m.endByte).1 == C.Current ==>
                  c'.readByte == Max(c.readByte, m.endByte) && c'.seen == c.seen && c'.rewoundFor == c.rewoundFor)
  {
    C.CurrentExactlyWhen(m.inode, current.inode, current.fileSize, m.endByte);
  }

  /** A commit deletes the file exactly when deletion is on and works, the commit is taken for the file its
      first stat finds, and its second stat finds a file of the very inode the batch names, or neither has
      one, no longer than the range's end. */
  lemma DeletesExactlyWhen(w: World, e: Event)
    requires e.CommitBatch?
    ensures var now := BeforeDeletion(w, e).file;
            Deletes(w, e)
            <==> && w.deleteAfterCommit && e.removable && now.Present?
                 && TakenFor(w.cursor, e.marker, StatOf(w.file))
                 && e.marker.inode == now.id.inode && now.id.fileSize <= e.marker.endByte
  {
    CommitIsTakenExactlyWhen(w.cursor, e.marker, StatOf(w.file));
  }

  /** So a file put in place of the committed one between the two stats is never deleted if its inode is
      another; and deletion, when it happens, forgets the cursor. */
  lemma ReplacementIsKept(w: World, e: Event)
    requires e.CommitBatch? && e.meanwhile.Some? && e.meanwhile.value.inode != e.marker.inode
    ensures !Deletes(w, e) && Step(w, e).file == Present(|w.inodes|, e.meanwhile.value)
  {
    DeletesExactlyWhen(w, e);
  }

  lemma DeletionForgetsTheCursor(w: World, e: Event)
    requires Deletes(w, e)
    ensures Step(w, e).cursor == FRESH && Step(w, e).adopted == None
  {
  }

  // ---------------------------------------------------------------- replays

  /** The range cannot be re-read: the file at the path is known to be another, is shorter than when the range
      was read, or ends before the range starts. */
  predicate CannotReplay(m: Marker, current: FileIdentity) {
    KnownToDiffer(m.inode, current.inode) || current.fileSize < m.fileSize || current.fileSize < m.startByte
  }

  /** A replay changes nothing if its range cannot be re-read. Otherwise it rewinds the head to the range's
      start, or the committed point if that is higher, leaves that point and what was seen alone, notes which
      file it rewound in, and forgets the records from there on, no others. */
  lemma ReplayRewindsExactlyWhen(w: World, m: Marker, x: C.Issued)
    ensures var c, c' := w.cursor, Step(w, Replay(m)).cursor;
            if CannotReplay(m, StatOf(w.file)) then Step(w, Replay(m)) == w
            else && c'.readByte == (if m.startByte < c.committedByte then c.committedByte else m.startByte)
                 && c'.committedByte == c.committedByte && c'.seen == c.seen
                 && (x in c'.generations.issued <==> x in c.generations.issued && x.start < c'.readByte)
                 && c'.generations.current == c.generations.current
                 && (w.file.Present? && w.file.id.inode.Some? ==> PositionIn(c') == w.file.id.inode)
                 && Step(w, Replay(m)) == w.(cursor := c')
  {
  }
}
