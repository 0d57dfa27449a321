/**
  Whether a file's committed point is the highest byte committed of it: it is while commits
  come in the order of their ends, and a later commit of an earlier end takes it back.
 */
module FileCommitted {
  import opened FileSource
  import opened Options
  import C = Continuity

  /** The commit deletes the file, and the cursor with it. */
  predicate Removes(w: World, e: Event) {
    && e.CommitBatch? && w.deleteAfterCommit && e.removable
    && var w2 := Meanwhile(w, e.meanwhile);
       w2.file.Present? && MayDelete(Commit(w.cursor, e.marker, StatOf(w.file)).1, e.marker, StatOf(w2.file))
  }

  /** The cursor starts over: a read judged another file, or the file was deleted. */
  predicate StartsOver(w: World, e: Event) {
    || (w.file.Present? && (e.Read? || (e.FailRead? && e.judged)) && Judge(w.cursor, w.file.id).Some?)
    || Removes(w, e)
  }

  /** The event is a commit that is taken for the file at the path. */
  predicate Commits(w: World, e: Event) {
    e.CommitBatch? && !Removes(w, e) && Commit(w.cursor, e.marker, StatOf(w.file)).1
  }

  /** And ends below the committed point. */
  predicate CommitsBelow(w: World, e: Event) {
    Commits(w, e) && e.marker.endByte < w.cursor.committedByte
  }

  /** Where every event leaves the committed point. */
  lemma CommittedAfter(w: World, e: Event)
    requires Enabled(w, e)
    ensures Step(w, e).cursor.committedByte ==
            if StartsOver(w, e) then 0
            else if Commits(w, e) then e.marker.endByte
            else w.cursor.committedByte
  {
  }

  /** Whatever the state, the committed point moves back exactly when the cursor starts over past a commit, or
      a commit is taken that ends below it. */
  lemma CommittedMovesBackExactlyWhen(w: World, e: Event)
    requires Enabled(w, e)
    ensures Step(w, e).cursor.committedByte < w.cursor.committedByte
            <==> (StartsOver(w, e) && w.cursor.committedByte > 0) || CommitsBelow(w, e)
  {
    CommittedAfter(w, e);
  }

  /** The highest byte committed since the cursor last started over. */
  function HighestAfter(w: World, e: Event, highest: nat): nat {
    if StartsOver(w, e) then 0 else if Commits(w, e) then Max(highest, e.marker.endByte) else highest
  }

  /** All along the run, the committed point is the highest byte committed. */
  ghost predicate AlwaysHighest(w: World, es: seq<Event>, highest: nat)
    requires Run(w, es)
    decreases |es|
  {
    && w.cursor.committedByte == highest
    && (es == [] || AlwaysHighest(Step(w, es[0]), es[1..], HighestAfter(w, es[0], highest)))
  }

  /** No commit taken on the run ends below the committed point of its time. */
  ghost predicate InOrder(w: World, es: seq<Event>)
    requires Run(w, es)
    decreases |es|
  {
    es == [] || (!CommitsBelow(w, es[0]) && InOrder(Step(w, es[0]), es[1..]))
  }

  lemma StaysHighestExactlyWhen(w: World, e: Event)
    requires Enabled(w, e)
    ensures Step(w, e).cursor.committedByte == HighestAfter(w, e, w.cursor.committedByte) <==> !CommitsBelow(w, e)
  {
    CommittedAfter(w, e);
  }

  lemma {:induction false} HighestExactlyWhenInOrder(w: World, es: seq<Event>)
    requires Run(w, es)
    ensures AlwaysHighest(w, es, w.cursor.committedByte) <==> InOrder(w, es)
    decreases |es|
  {
    if es != [] {
      var next := Step(w, es[0]);
      StaysHighestExactlyWhen(w, es[0]);
      HighestExactlyWhenInOrder(next, es[1..]);
    }
  }

  /** Over every run, hypotheses or not, the committed point is at all times the highest byte committed of the
      file exactly when no commit taken ends below it. */
  lemma CommittedIsHighestExactlyWhenInOrder(deleteAfterCommit: bool, es: seq<Event>)
    requires Run(Initial(deleteAfterCommit), es)
    ensures AlwaysHighest(Initial(deleteAfterCommit), es, 0) <==> InOrder(Initial(deleteAfterCommit), es)
  {
    HighestExactlyWhenInOrder(Initial(deleteAfterCommit), es);
  }

  // ---------------------------------------------------------------- a run that takes it back

  const ID: FileIdentity := FileIdentity(Some(7), 20, "a")

  function Batch(start: nat, end: nat): Marker {
    Marker(Some(7), start, end, 20)
  }

  /** The file read to its end in two batches and rewound to its start. */
  const REWOUND_TO_START: World := World(
    Present(0, ID), [Some(7)], false, FileCursor(0, 0, Some(ID), C.FRESH, Some(Rewound(7, 0))), Some(0),
    [Handed(0, 0, 10), Handed(0, 10, 20)])

  /** Then read in one batch, rewound into it, and read again in part. */
  const READ_AGAIN: World := World(
    Present(0, ID), [Some(7)], false,
    FileCursor(15, 0, Some(ID), C.Gens(0, [C.Issued(0, 20, 0), C.Issued(10, 15, 0)]), Some(Rewound(7, 10))), Some(0),
    [Handed(0, 0, 10), Handed(0, 10, 20), Handed(0, 0, 20), Handed(0, 10, 15)])

  const TO_THE_END: seq<Event> := [Replace(ID), Read(10, 0, "a"), Read(20, 0, "a"), Replay(Batch(0, 10))]
  const AND_AGAIN: seq<Event> := [Read(20, 0, "a"), Replay(Batch(10, 20)), Read(15, 0, "a")]
  const TWO_COMMITS: seq<Event> := [CommitBatch(Batch(0, 20), false, None), CommitBatch(Batch(10, 15), false, None)]

  /** The file once it is there, and once it has been read to its end. */
  const THERE: World := World(Present(0, ID), [Some(7)], false, FRESH, None, [])
  const READ: World := World(
    Present(0, ID), [Some(7)], false,
    FileCursor(20, 0, Some(ID), C.Gens(0, [C.Issued(0, 10, 0), C.Issued(10, 20, 0)]), None), Some(0),
    [Handed(0, 0, 10), Handed(0, 10, 20)])

  lemma ReadInTwo()
    ensures AdmissibleRun(THERE, [TO_THE_END[1], TO_THE_END[2]]) && Run(THERE, [TO_THE_END[1], TO_THE_END[2]])
    ensures After(THERE, [TO_THE_END[1], TO_THE_END[2]]) == READ
  {
    var half := THERE.(cursor := FileCursor(10, 0, Some(ID), C.Gens(0, [C.Issued(0, 10, 0)]), None),
                       adopted := Some(0), log := [Handed(0, 0, 10)]);
    assert Step(THERE, TO_THE_END[1]) == half;
    assert Step(half, TO_THE_END[2]) == READ;
    OneMore(half, TO_THE_END[2], []);
    OneMore(THERE, TO_THE_END[1], [TO_THE_END[2]]);
  }

  lemma ThenRewound()
    ensures AdmissibleRun(READ, [TO_THE_END[3]]) && Run(READ, [TO_THE_END[3]])
    ensures After(READ, [TO_THE_END[3]]) == REWOUND_TO_START
  {
    assert READ.log[0] == Handed(0, 0, 10);
    assert NamesAdoptedRange(READ, Batch(0, 10));
    assert C.StartingBelow([C.Issued(0, 10, 0), C.Issued(10, 20, 0)], 0) == [];
    assert Step(READ, TO_THE_END[3]) == REWOUND_TO_START;
    OneMore(READ, TO_THE_END[3], []);
  }

  lemma ReadToTheEnd()
    ensures AdmissibleRun(Initial(false), TO_THE_END) && Run(Initial(false), TO_THE_END)
    ensures After(Initial(false), TO_THE_END) == REWOUND_TO_START
  {
    var both, rewind := [TO_THE_END[1], TO_THE_END[2]], [TO_THE_END[3]];
    ReadInTwo();
    ThenRewound();
    RunOn(THERE, both, rewind);
    assert Step(Initial(false), TO_THE_END[0]) == THERE;
    OneMore(Initial(false), TO_THE_END[0], both + rewind);
    assert [TO_THE_END[0]] + (both + rewind) == TO_THE_END;
  }

  lemma ReadTwice()
    ensures AdmissibleRun(REWOUND_TO_START, AND_AGAIN) && Run(REWOUND_TO_START, AND_AGAIN)
    ensures After(REWOUND_TO_START, AND_AGAIN) == READ_AGAIN
  {
    var w1 := REWOUND_TO_START.(
      cursor := FileCursor(20, 0, Some(ID), C.Gens(0, [C.Issued(0, 20, 0)]), Some(Rewound(7, 0))),
      log := [Handed(0, 0, 10), Handed(0, 10, 20), Handed(0, 0, 20)]);
    var w2 := w1.(cursor := FileCursor(10, 0, Some(ID), C.Gens(0, [C.Issued(0, 20, 0)]), Some(Rewound(7, 10))));
    assert Step(REWOUND_TO_START, AND_AGAIN[0]) == w1;
    assert w1.log[1] == Handed(0, 10, 20);
    assert NamesAdoptedRange(w1, Batch(10, 20));
    assert C.StartingBelow([C.Issued(0, 20, 0)], 10) == [C.Issued(0, 20, 0)];
    assert Step(w1, AND_AGAIN[1]) == w2;
    assert Step(w2, AND_AGAIN[2]) == READ_AGAIN;
    OneMore(w2, AND_AGAIN[2], []);
    OneMore(w1, AND_AGAIN[1], [AND_AGAIN[2]]);
    OneMore(REWOUND_TO_START, AND_AGAIN[0], [AND_AGAIN[1], AND_AGAIN[2]]);
  }

  lemma CommittedTwice()
    ensures AdmissibleRun(READ_AGAIN, TWO_COMMITS) && Run(READ_AGAIN, TWO_COMMITS)
    ensures Step(READ_AGAIN, TWO_COMMITS[0]).cursor.committedByte == 20
    ensures After(READ_AGAIN, TWO_COMMITS).cursor.committedByte == 15
  {
    var q := [C.Issued(0, 20, 0), C.Issued(10, 15, 0)];
    var w1 := READ_AGAIN.(
      cursor := FileCursor(20, 20, Some(ID), C.Gens(0, [C.Issued(10, 15, 0)]), Some(Rewound(7, 10))));
    assert C.FirstMatch(q, 0, 20) == 0 && q[..0] == [] && q[1..] == [C.Issued(10, 15, 0)];
    assert C.FirstMatch([C.Issued(10, 15, 0)], 10, 15) == 0;
    assert Step(READ_AGAIN, TWO_COMMITS[0]) == w1;
    OneMore(w1, TWO_COMMITS[1], []);
    OneMore(READ_AGAIN, TWO_COMMITS[0], [TWO_COMMITS[1]]);
  }

  /** On an admissible run: a rewound range is read again in other batches, and they are committed out of the
      order of their ends. The committed point of one unchanged file goes from 20 to 15. */
  lemma OverlappingBatchesTakeItBack()
    ensures var es := TO_THE_END + AND_AGAIN + TWO_COMMITS;
            AdmissibleRun(Initial(false), es) && Run(Initial(false), es)
            && After(Initial(false), es).cursor.committedByte == 15
    ensures var es := TO_THE_END + AND_AGAIN + TWO_COMMITS[..1];
            Run(Initial(false), es) && After(Initial(false), es).cursor.committedByte == 20
  {
    ReadToTheEnd();
    ReadTwice();
    CommittedTwice();
    RunOn(Initial(false), TO_THE_END, AND_AGAIN);
    RunOn(Initial(false), TO_THE_END + AND_AGAIN, TWO_COMMITS);
    OneMore(READ_AGAIN, TWO_COMMITS[0], []);
    assert TWO_COMMITS[..1] == [TWO_COMMITS[0]] + [];
    RunOn(Initial(false), TO_THE_END + AND_AGAIN, TWO_COMMITS[..1]);
  }
}
