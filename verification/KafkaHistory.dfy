/**
  Whole histories of the Kafka source: passes with rejections, oversized records, poll
  errors and re-assignments, commits and rewinds, in any order. What a history does to
  one partition is told by its happenings, and the theorems are about those.
 */
module KafkaHistory {
  import opened KafkaPartition
  import opened KafkaPass
  import opened Options
  import A = KafkaAccumulator

  datatype Op =
    | OpPass(topics: seq<string>, desired: seq<Partition>, assignedTopics: nat, polls: seq<Poll>,
             maxRecords: nat, maxBytes: nat)
    | OpCommit(m: Marker)
    | OpRewind(m: Marker, broker: Option<int>)

  function Apply(env: Env, s: Source, op: Op): Source {
    match op
    case OpPass(topics, desired, assignedTopics, polls, maxRecords, maxBytes) =>
      Pass(env, s, topics, desired, assignedTopics, polls, maxRecords, maxBytes)
    case OpCommit(m) => CommitAt(env, s, m)
    case OpRewind(m, broker) => Rewind(env, s, m, broker)
  }

  function Run(env: Env, ops: seq<Op>): Source {
    if ops == [] then NEW else Apply(env, Run(env, ops[..|ops| - 1]), ops[|ops| - 1])
  }

  ghost predicate Valid(op: Op) {
    op.OpPass? ==> ValidPass(op.topics, op.desired)
  }

  /** Logs have increasing offsets, and a pass assigns partitions of its own sources. */
  ghost predicate History(env: Env, ops: seq<Op>) {
    LogsIncrease(env) && forall i :: 0 <= i < |ops| ==> Valid(ops[i])
  }

  lemma HistoryPrefix(env: Env, ops: seq<Op>, k: nat)
    requires History(env, ops) && k <= |ops|
    ensures History(env, ops[..k])
  {
  }

  lemma ApplyKeepsInv(env: Env, s: Source, op: Op)
    requires Inv(env, s) && Valid(op)
    ensures Inv(env, Apply(env, s, op))
  {
    if op.OpPass? {
      PassKeepsInv(env, s, op.topics, op.desired, op.assignedTopics, op.polls, op.maxRecords, op.maxBytes);
    }
  }

  lemma {:induction false} RunKeepsInv(env: Env, ops: seq<Op>)
    requires History(env, ops)
    ensures Inv(env, Run(env, ops))
  {
    if ops != [] {
      HistoryPrefix(env, ops, |ops| - 1);
      RunKeepsInv(env, ops[..|ops| - 1]);
      ApplyKeepsInv(env, Run(env, ops[..|ops| - 1]), ops[|ops| - 1]);
    }
  }

  // ---------------------------------------------------------------- what an operation hands out

  /** The poll loop of a pass, run to its end. */
  function Polled(env: Env, s: Source, op: Op): PollState
    requires op.OpPass?
  {
    var settled := Settle(env, s, op.desired);
    PollAll(env, op.topics, op.assignedTopics, Begin(settled, op.topics, op.maxRecords, op.maxBytes), op.polls)
  }

  /** What an operation hands out of a partition: the result of a pass that did not fail. */
  function Result(env: Env, s: Source, op: Op, tp: Partition): Option<A.PartAcc> {
    if !op.OpPass? || op.desired == [] || Polled(env, s, op).failed then None
    else Kept(Polled(env, s, op), op.topics, tp)
  }

  /** A pass leaves each cursor past exactly what it handed out, which continues the log from there. */
  lemma PassEffect(env: Env, s: Source, op: Op, tp: Partition)
    requires Inv(env, s) && Valid(op) && op.OpPass?
    ensures CursorOf(Apply(env, s, op), tp) == Advance(CursorOf(s, tp), Result(env, s, op, tp))
    ensures Result(env, s, op, tp).Some? ==>
              KeptIsLog(env.log(tp), At(env.log(tp), NextOffset(env, s, tp)), Result(env, s, op, tp).value)
  {
    if op.desired != [] {
      var settled := Settle(env, s, op.desired);
      SettleAligns(env, s, op.desired);
      BeginIsInv(env, settled, op.topics, op.maxRecords, op.maxBytes);
      var first := Begin(settled, op.topics, op.maxRecords, op.maxBytes);
      PollAllKeepsInv(env, settled.position, op.topics, op.assignedTopics, first, op.polls);
      PolledEffect(env, settled, op.topics, Polled(env, s, op), tp);
    }
  }

  lemma PolledEffect(env: Env, s: Source, topics: seq<string>, ps: PollState, tp: Partition)
    requires Aligned(env, s) && PollInv(env, s.position, topics, ps)
    ensures ps.failed ==> CursorOf(Finish(s, topics, ps), tp) == CursorOf(s, tp)
    ensures !ps.failed ==> CursorOf(Finish(s, topics, ps), tp) == Advance(CursorOf(s, tp), Kept(ps, topics, tp))
    ensures Kept(ps, topics, tp).Some? ==>
              KeptIsLog(env.log(tp), At(env.log(tp), NextOffset(env, s, tp)), Kept(ps, topics, tp).value)
  {
    if Kept(ps, topics, tp).Some? {
      assert PollInvAt(env, s.position, topics, ps, tp);
    }
    if !ps.failed {
      FinishEffect(s, topics, ps, tp);
    }
  }

  // ---------------------------------------------------------------- what happens to one partition

  datatype Happened =
    | Nothing
    | Read(part: A.PartAcc)
    | Committed(end: int)
    | Rewound(start: int, broker: Option<int>)

  function Happening(env: Env, s: Source, op: Op, tp: Partition): Happened {
    match op
    case OpPass(_, _, _, _, _, _) =>
      if Result(env, s, op, tp).Some? then Read(Result(env, s, op, tp).value) else Nothing
    case OpCommit(m) => if m.tp == tp && !Foreign(env, m) then Committed(m.end) else Nothing
    case OpRewind(m, broker) => if m.tp == tp && !Foreign(env, m) then Rewound(m.start, broker) else Nothing
  }

  function Happenings(env: Env, ops: seq<Op>, tp: Partition): (hs: seq<Happened>)
    ensures |hs| == |ops|
  {
    if ops == [] then []
    else
      Happenings(env, ops[..|ops| - 1], tp) + [Happening(env, Run(env, ops[..|ops| - 1]), ops[|ops| - 1], tp)]
  }

  /** The offsets of one result. */
  datatype Range = Range(start: int, end: int)

  /** What a partition's happenings come to: the offset its reading last (re)started at, the records
      handed out since, every range ever handed out, and its cursor. */
  datatype Tale = Tale(base: int, since: seq<A.Payload>, handed: set<Range>, cursor: PartitionCursor)

  /** A rewind restarts the reading; so does a commit that comes before anything was read or rewound. */
  function Tell(t: Tale, h: Happened): Tale {
    match h
    case Nothing => t
    case Read(part) =>
      Tale(t.base, t.since + part.records, t.handed + {Range(part.startOffset, part.endOffset)},
           Advance(t.cursor, Some(part)))
    case Committed(end) =>
      var cursor := t.cursor.(committed := Some(end + 1));
      if t.cursor == UNREAD then Tale(end + 1, [], t.handed, cursor) else t.(cursor := cursor)
    case Rewound(start, broker) =>
      var at := ClampRewind(start, Frontier(broker, t.cursor.committed));
      Tale(at, [], t.handed, PartitionCursor(None, Some(at)))
  }

  function Told(stored: int, hs: seq<Happened>): Tale {
    if hs == [] then Tale(stored, [], {}, UNREAD) else Tell(Told(stored, hs[..|hs| - 1]), hs[|hs| - 1])
  }

  function ResumeAt(c: PartitionCursor, stored: int): int {
    if Desired(c).Some? then Desired(c).value else stored
  }

  /** A result holds the log from the offset the cursor stood at. */
  ghost predicate Genuine(log: seq<Record>, stored: int, c: PartitionCursor, h: Happened) {
    h.Read? ==> KeptIsLog(log, At(log, ResumeAt(c, stored)), h.part)
  }

  ghost predicate AllGenuine(log: seq<Record>, stored: int, hs: seq<Happened>) {
    forall k :: 0 <= k < |hs| ==> Genuine(log, stored, Told(stored, hs[..k]).cursor, hs[k])
  }

  lemma HappeningMovesCursor(env: Env, s: Source, op: Op, tp: Partition, t: Tale)
    requires Inv(env, s) && Valid(op) && t.cursor == CursorOf(s, tp)
    ensures var h := Happening(env, s, op, tp);
            && CursorOf(Apply(env, s, op), tp) == Tell(t, h).cursor
            && Genuine(env.log(tp), env.stored(tp), t.cursor, h)
  {
    if op.OpPass? {
      PassEffect(env, s, op, tp);
    }
  }

  lemma ToldSnoc(stored: int, hs: seq<Happened>, h: Happened)
    ensures Told(stored, hs + [h]) == Tell(Told(stored, hs), h)
  {
    assert (hs + [h])[..|hs|] == hs;
  }

  lemma GenuineSnoc(log: seq<Record>, stored: int, hs: seq<Happened>, h: Happened)
    requires AllGenuine(log, stored, hs) && Genuine(log, stored, Told(stored, hs).cursor, h)
    ensures AllGenuine(log, stored, hs + [h])
  {
    var more := hs + [h];
    forall k | 0 <= k < |more| ensures Genuine(log, stored, Told(stored, more[..k]).cursor, more[k]) {
      assert more[..k] == hs[..k];
      assert k == |hs| ==> hs[..k] == hs;
    }
  }

  /** The adapter's cursor of a partition is the one its happenings tell of, and every result among
      them holds the log from where that cursor stood. */
  lemma {:induction false} TaleIsTrue(env: Env, ops: seq<Op>, tp: Partition)
    requires History(env, ops)
    ensures Told(env.stored(tp), Happenings(env, ops, tp)).cursor == CursorOf(Run(env, ops), tp)
    ensures AllGenuine(env.log(tp), env.stored(tp), Happenings(env, ops, tp))
  {
    if ops != [] {
      var before, op := ops[..|ops| - 1], ops[|ops| - 1];
      HistoryPrefix(env, ops, |before|);
      TaleIsTrue(env, before, tp);
      RunKeepsInv(env, before);
      var hs := Happenings(env, before, tp);
      var h := Happening(env, Run(env, before), op, tp);
      HappeningMovesCursor(env, Run(env, before), op, tp, Told(env.stored(tp), hs));
      ToldSnoc(env.stored(tp), hs, h);
      GenuineSnoc(env.log(tp), env.stored(tp), hs, h);
    }
  }

  function TaleOf(env: Env, ops: seq<Op>, tp: Partition): Tale {
    Told(env.stored(tp), Happenings(env, ops, tp))
  }

  // ---------------------------------------------------------------- the log since the last (re)start

  /** `archive` is the log from offset `base` up to offset `next`, without gap or repetition. */
  ghost predicate Spans(log: seq<Record>, base: int, next: int, archive: seq<A.Payload>) {
    At(log, base) <= At(log, next) && archive == Payloads(log, At(log, base), At(log, next))
  }

  /** What was handed out since the last (re)start is the log from there up to the next offset. */
  ghost predicate Faithful(log: seq<Record>, stored: int, t: Tale) {
    Spans(log, t.base, ResumeAt(t.cursor, stored), t.since)
  }

  /** A cursor that has read nothing since a (re)start: nothing was handed out since. */
  predicate Unmoved(stored: int, t: Tale) {
    (t.cursor.lastRead.None? ==> t.since == []) && (t.cursor == UNREAD ==> t.base == stored)
  }

  lemma {:induction false} AlwaysUnmoved(stored: int, hs: seq<Happened>)
    ensures Unmoved(stored, Told(stored, hs))
  {
    if hs != [] {
      AlwaysUnmoved(stored, hs[..|hs| - 1]);
    }
  }

  /** No record lies between two offsets. */
  ghost predicate NoneBetween(log: seq<Record>, a: int, b: int) {
    forall i :: 0 <= i < |log| ==> (log[i].offset < a <==> log[i].offset < b)
  }

  lemma {:induction false} AtFromCounts(log: seq<Record>, offset: int, k: nat)
    requires Increasing(log) && k <= |log| && forall i :: 0 <= i < k ==> log[i].offset < offset
    ensures forall i :: 0 <= i < |log| ==> (log[i].offset < offset <==> i < AtFrom(log, offset, k))
    decreases |log| - k
  {
    if k < |log| && log[k].offset < offset {
      AtFromCounts(log, offset, k + 1);
    }
  }

  lemma SameAtWhenNoneBetween(log: seq<Record>, a: int, b: int)
    requires Increasing(log)
    ensures NoneBetween(log, a, b) <==> At(log, a) == At(log, b)
  {
    AtFromCounts(log, a, 0);
    AtFromCounts(log, b, 0);
    var i, j := At(log, a), At(log, b);
    if i < j {
      assert log[i].offset < b && !(log[i].offset < a);
    } else if j < i {
      assert log[j].offset < a && !(log[j].offset < b);
    }
  }

  /** Whether a commit leaves the reading where it was: something was read since the last (re)start,
      or nothing ever was, or no record lies between the cursor's offset and the commit's. */
  ghost predicate Quiet(log: seq<Record>, c: PartitionCursor, end: int) {
    c.lastRead.Some? || c.committed.None? || NoneBetween(log, c.committed.value, end + 1)
  }

  lemma {:induction false} PayloadsLength(log: seq<Record>, a: nat, b: nat)
    requires a <= b <= |log|
    ensures |Payloads(log, a, b)| == b - a
    decreases b
  {
    if a < b {
      PayloadsLength(log, a, b - 1);
    }
  }

  /** With nothing handed out, moving the next offset leaves no gap exactly when no record lies between. */
  lemma MoveLeavesNoGapExactlyWhen(log: seq<Record>, base: int, from: int, to: int)
    requires Increasing(log) && Spans(log, base, from, [])
    ensures Spans(log, base, to, []) <==> NoneBetween(log, from, to)
  {
    SameAtWhenNoneBetween(log, from, to);
    var b, f, t := At(log, base), At(log, from), At(log, to);
    PayloadsLength(log, b, f);
    assert b == f;
    if b <= t {
      PayloadsLength(log, b, t);
      assert Payloads(log, b, t) == [] <==> b == t;
    }
  }

  lemma NothingSince(log: seq<Record>, at: int)
    ensures Spans(log, at, at, [])
  {
  }

  lemma CommitOnATale(log: seq<Record>, stored: int, t: Tale, end: int)
    requires Increasing(log) && Faithful(log, stored, t) && Unmoved(stored, t)
    ensures Faithful(log, stored, Tell(t, Committed(end))) <==> Quiet(log, t.cursor, end)
  {
    var t' := Tell(t, Committed(end));
    var next, next' := ResumeAt(t.cursor, stored), ResumeAt(t'.cursor, stored);
    if t.cursor == UNREAD {
      assert t'.base == next' == end + 1 && t'.since == [];
      NothingSince(log, end + 1);
    } else if t.cursor.lastRead.Some? {
      assert t'.base == t.base && t'.since == t.since && next' == next;
    } else {
      assert t'.base == t.base && t'.since == t.since == [] && next == t.cursor.committed.value && next' == end + 1;
      MoveLeavesNoGapExactlyWhen(log, t.base, next, next');
    }
  }

  /** A commit keeps the hand-out since the last (re)start gap-free exactly when it is quiet: any other
      moves a rewound cursor over records that are then not handed out again. */
  lemma CommitSkipsNothingExactlyWhenQuiet(log: seq<Record>, stored: int, hs: seq<Happened>, end: int)
    requires Increasing(log) && Faithful(log, stored, Told(stored, hs))
    ensures Faithful(log, stored, Told(stored, hs + [Committed(end)])) <==> Quiet(log, Told(stored, hs).cursor, end)
  {
    ToldSnoc(stored, hs, Committed(end));
    AlwaysUnmoved(stored, hs);
    CommitOnATale(log, stored, Told(stored, hs), end);
  }

  lemma {:induction false} PayloadsConcat(log: seq<Record>, a: nat, b: nat, c: nat)
    requires a <= b <= c <= |log|
    ensures Payloads(log, a, b) + Payloads(log, b, c) == Payloads(log, a, c)
    decreases c
  {
    if b < c {
      PayloadsConcat(log, a, b, c - 1);
    }
  }

  lemma KeptEnd(log: seq<Record>, lo: nat, part: A.PartAcc)
    requires Increasing(log) && KeptIsLog(log, lo, part)
    ensures At(log, part.endOffset + 1) == lo + |part.records|
  {
    AtAfter(log, lo + |part.records| - 1);
  }

  lemma SpansGrow(log: seq<Record>, base: int, next: int, archive: seq<A.Payload>, part: A.PartAcc)
    requires Increasing(log) && Spans(log, base, next, archive) && KeptIsLog(log, At(log, next), part)
    ensures Spans(log, base, part.endOffset + 1, archive + part.records)
  {
    KeptEnd(log, At(log, next), part);
    PayloadsConcat(log, At(log, base), At(log, next), At(log, next) + |part.records|);
  }

  /** Every commit among the happenings was quiet when it came. */
  ghost predicate QuietCommits(log: seq<Record>, stored: int, hs: seq<Happened>) {
    forall k :: 0 <= k < |hs| && hs[k].Committed? ==> Quiet(log, Told(stored, hs[..k]).cursor, hs[k].end)
  }

  lemma {:induction false} StaysFaithful(log: seq<Record>, stored: int, hs: seq<Happened>)
    requires Increasing(log) && AllGenuine(log, stored, hs) && QuietCommits(log, stored, hs)
    ensures Faithful(log, stored, Told(stored, hs))
  {
    if hs == [] {
      NothingSince(log, stored);
    } else {
      var before, h := hs[..|hs| - 1], hs[|hs| - 1];
      forall k | 0 <= k < |before| ensures before[..k] == hs[..k] && before[k] == hs[k] {}
      StaysFaithful(log, stored, before);
      var t := Told(stored, before);
      assert Genuine(log, stored, t.cursor, h);
      match h
      case Nothing =>
      case Read(part) => SpansGrow(log, t.base, ResumeAt(t.cursor, stored), t.since, part);
      case Committed(end) =>
        CommitSkipsNothingExactlyWhenQuiet(log, stored, before, end);
        assert hs == before + [h];
      case Rewound(_, _) => NothingSince(log, Tell(t, h).base);
    }
  }

  /** Over any history with quiet commits: what was handed out of a partition since it last
      (re)started is exactly its log from there to the next offset to read, in order, none skipped
      and none repeated. */
  lemma HandedOutIsTheLog(env: Env, ops: seq<Op>, tp: Partition)
    requires History(env, ops) && QuietCommits(env.log(tp), env.stored(tp), Happenings(env, ops, tp))
    ensures var t := TaleOf(env, ops, tp);
            Spans(env.log(tp), t.base, NextOffset(env, Run(env, ops), tp), t.since)
  {
    TaleIsTrue(env, ops, tp);
    StaysFaithful(env.log(tp), env.stored(tp), Happenings(env, ops, tp));
  }

  lemma OneMoreOp(env: Env, ops: seq<Op>, op: Op, tp: Partition)
    requires History(env, ops) && Valid(op)
    ensures History(env, ops + [op]) && Run(env, ops + [op]) == Apply(env, Run(env, ops), op)
    ensures TaleOf(env, ops + [op], tp) == Tell(TaleOf(env, ops, tp), Happening(env, Run(env, ops), op, tp))
  {
    assert (ops + [op])[..|ops|] == ops;
    ToldSnoc(env.stored(tp), Happenings(env, ops, tp), Happening(env, Run(env, ops), op, tp));
  }

  /** After any history, a batch of the adapter's own group is rewound and then commits: the next read starts
      past it, with nothing handed out since the rewind. That skips nothing exactly when the log holds no
      record from where the rewind went to there. */
  lemma RewindThenCommit(env: Env, ops: seq<Op>, m: Marker, broker: Option<int>)
    requires History(env, ops) && !Foreign(env, m)
    ensures var more := ops + [OpRewind(m, broker)] + [OpCommit(m)];
            var log, t := env.log(m.tp), TaleOf(env, more, m.tp);
            var at := RewindTo(Run(env, ops), m, broker);
            && History(env, more) && t.base == at && t.since == []
            && NextOffset(env, Run(env, more), m.tp) == m.end + 1
            && (Faithful(log, env.stored(m.tp), t) <==> NoneBetween(log, at, m.end + 1))
  {
    var rewound := ops + [OpRewind(m, broker)];
    TaleIsTrue(env, ops, m.tp);
    OneMoreOp(env, ops, OpRewind(m, broker), m.tp);
    OneMoreOp(env, rewound, OpCommit(m), m.tp);
    TaleIsTrue(env, rewound + [OpCommit(m)], m.tp);
    RewoundThenCommitted(env.log(m.tp), env.stored(m.tp), TaleOf(env, ops, m.tp), m.start, broker, m.end);
  }

  lemma RewoundThenCommitted(log: seq<Record>, stored: int, t: Tale, start: int, broker: Option<int>, end: int)
    requires Increasing(log)
    ensures var t' := Tell(Tell(t, Rewound(start, broker)), Committed(end));
            var at := ClampRewind(start, Frontier(broker, t.cursor.committed));
            && t'.base == at && t'.since == [] && t'.cursor == PartitionCursor(None, Some(end + 1))
            && (Faithful(log, stored, t') <==> NoneBetween(log, at, end + 1))
  {
    var at := ClampRewind(start, Frontier(broker, t.cursor.committed));
    NothingSince(log, at);
    MoveLeavesNoGapExactlyWhen(log, at, at, end + 1);
  }

  const SPOT: Partition := Partition("t", 0)

  /** The commit that shows the condition is needed: offsets 0, 1 and 2 are in the log, the partition is
      rewound to 0 and then the batch ending at 1 commits. The next read starts at 2; 0 and 1 are not
      handed out again. */
  lemma CommitAfterARewindSkips(group: string, payload: A.Payload)
    ensures var log := [Record(0, payload), Record(1, payload), Record(2, payload)];
            var env, m := Env(_ => log, _ => 0, group), Marker(SPOT, 0, 1, group);
            var ops := [OpRewind(m, None)] + [OpCommit(m)];
            var t := TaleOf(env, ops, SPOT);
            && History(env, ops) && t.base == 0 && t.since == [] && NextOffset(env, Run(env, ops), SPOT) == 2
            && !Faithful(log, 0, t)
  {
    var log := [Record(0, payload), Record(1, payload), Record(2, payload)];
    var env, m := Env(_ => log, _ => 0, group), Marker(SPOT, 0, 1, group);
    RewindThenCommit(env, [], m, None);
    assert [] + [OpRewind(m, None)] == [OpRewind(m, None)];
    assert log[0].offset < 2 && !(log[0].offset < 0);
  }

  // ---------------------------------------------------------------- nothing is ever skipped

  ghost predicate Covers(ranges: set<Range>, offset: int) {
    exists r :: r in ranges && r.start <= offset <= r.end
  }

  /** Every record from offset `from` up to offset `to` lies in one of the ranges. */
  ghost predicate Reached(log: seq<Record>, ranges: set<Range>, from: int, to: int) {
    forall i :: 0 <= i < |log| && from <= log[i].offset < to ==> Covers(ranges, log[i].offset)
  }

  /** Ranges each of which begins and ends where everything before it was handed out too. */
  ghost predicate Chained(log: seq<Record>, ranges: set<Range>, from: int) {
    forall r :: r in ranges ==> Reached(log, ranges, from, r.start) && Reached(log, ranges, from, r.end + 1)
  }

  lemma MoreIsReached(log: seq<Record>, ranges: set<Range>, more: set<Range>, from: int, to: int)
    requires Reached(log, ranges, from, to) && ranges <= more
    ensures Reached(log, more, from, to)
  {
    forall i | 0 <= i < |log| && from <= log[i].offset < to ensures Covers(more, log[i].offset) {
      assert Covers(ranges, log[i].offset);
    }
  }

  /** A result that continues the log from where everything was reached reaches its own end. */
  lemma ResultReaches(log: seq<Record>, ranges: set<Range>, from: int, next: int, part: A.PartAcc, more: set<Range>)
    requires Increasing(log) && Reached(log, ranges, from, next) && KeptIsLog(log, At(log, next), part)
    requires more == ranges + {Range(part.startOffset, part.endOffset)}
    ensures Reached(log, more, from, part.startOffset) && Reached(log, more, from, part.endOffset + 1)
  {
    var lo := At(log, next);
    AtFromCounts(log, next, 0);
    forall i | 0 <= i < |log| && from <= log[i].offset < part.endOffset + 1 ensures Covers(more, log[i].offset) {
      if i < lo {
        assert Covers(ranges, log[i].offset);
      } else {
        assert lo < i ==> log[lo].offset < log[i].offset;
        assert Range(part.startOffset, part.endOffset) in more;
      }
    }
    assert part.startOffset <= part.endOffset;
  }

  /** A result keeps the ranges chained. */
  lemma ResultChains(log: seq<Record>, ranges: set<Range>, from: int, next: int, part: A.PartAcc, more: set<Range>)
    requires Increasing(log) && Chained(log, ranges, from) && Reached(log, ranges, from, next)
    requires KeptIsLog(log, At(log, next), part) && more == ranges + {Range(part.startOffset, part.endOffset)}
    ensures Chained(log, more, from)
  {
    ResultReaches(log, ranges, from, next, part, more);
    forall r | r in ranges ensures Reached(log, more, from, r.start) && Reached(log, more, from, r.end + 1) {
      MoreIsReached(log, ranges, more, from, r.start);
      MoreIsReached(log, ranges, more, from, r.end + 1);
    }
  }

  ghost predicate EndsARange(ranges: set<Range>, end: int) {
    exists r :: r in ranges && r.end == end
  }

  ghost predicate StartsARange(ranges: set<Range>, start: int) {
    exists r :: r in ranges && r.start == start
  }

  /** A commit ends where a handed-out range ended; a rewind goes back to where one started, and the
      broker answers it with the stored offset or one that a handed-out range ended before. */
  ghost predicate Names(ranges: set<Range>, stored: int, h: Happened) {
    match h
    case Nothing => true
    case Read(_) => true
    case Committed(end) => EndsARange(ranges, end)
    case Rewound(start, broker) =>
      && StartsARange(ranges, start)
      && (broker.Some? ==> broker.value == stored || EndsARange(ranges, broker.value - 1))
  }

  /** So does every commit and rewind among the happenings, of ranges handed out by then, by this
      process or by those before it, which handed out `earlier`. */
  ghost predicate NamesHandedOut(earlier: set<Range>, stored: int, hs: seq<Happened>) {
    forall k :: 0 <= k < |hs| ==> Names(earlier + Told(stored, hs[..k]).handed, stored, hs[k])
  }

  /** Everything up to the next offset, and up to the committed one, has been handed out. */
  ghost predicate NoGap(log: seq<Record>, ranges: set<Range>, from: int, c: PartitionCursor) {
    && Chained(log, ranges, from)
    && Reached(log, ranges, from, ResumeAt(c, from))
    && (c.committed.Some? ==> Reached(log, ranges, from, c.committed.value))
  }

  lemma CommitKeepsNoGap(log: seq<Record>, ranges: set<Range>, from: int, c: PartitionCursor, end: int)
    requires NoGap(log, ranges, from, c) && EndsARange(ranges, end)
    ensures NoGap(log, ranges, from, c.(committed := Some(end + 1)))
  {
    var r :| r in ranges && r.end == end;
    assert Reached(log, ranges, from, r.end + 1);
  }

  lemma RewindKeepsNoGap(log: seq<Record>, ranges: set<Range>, from: int, c: PartitionCursor, start: int,
                         broker: Option<int>)
    requires NoGap(log, ranges, from, c) && StartsARange(ranges, start)
    requires broker.Some? ==> broker.value == from || EndsARange(ranges, broker.value - 1)
    ensures NoGap(log, ranges, from, PartitionCursor(None, Some(ClampRewind(start, Frontier(broker, c.committed)))))
  {
    var r :| r in ranges && r.start == start;
    assert Reached(log, ranges, from, r.start);
    if broker.Some? && broker.value != from {
      var b :| b in ranges && b.end == broker.value - 1;
      assert Reached(log, ranges, from, b.end + 1);
    }
  }

  lemma PassKeepsNoGap(log: seq<Record>, ranges: set<Range>, from: int, c: PartitionCursor, part: A.PartAcc,
                       more: set<Range>)
    requires Increasing(log) && NoGap(log, ranges, from, c) && KeptIsLog(log, At(log, ResumeAt(c, from)), part)
    requires more == ranges + {Range(part.startOffset, part.endOffset)}
    ensures NoGap(log, more, from, Advance(c, Some(part)))
  {
    ResultChains(log, ranges, from, ResumeAt(c, from), part, more);
    ResultReaches(log, ranges, from, ResumeAt(c, from), part, more);
    if c.committed.Some? {
      MoreIsReached(log, ranges, more, from, c.committed.value);
    }
  }

  lemma {:induction false} HistoryKeepsNoGap(log: seq<Record>, earlier: set<Range>, stored: int, hs: seq<Happened>)
    requires Increasing(log) && Chained(log, earlier, stored)
    requires AllGenuine(log, stored, hs) && NamesHandedOut(earlier, stored, hs)
    ensures NoGap(log, earlier + Told(stored, hs).handed, stored, Told(stored, hs).cursor)
  {
    if hs == [] {
      assert earlier + {} == earlier;
    } else {
      var before, h := hs[..|hs| - 1], hs[|hs| - 1];
      forall k | 0 <= k < |before| ensures before[..k] == hs[..k] && before[k] == hs[k] {}
      HistoryKeepsNoGap(log, earlier, stored, before);
      var t := Told(stored, before);
      var ranges := earlier + t.handed;
      assert Genuine(log, stored, t.cursor, h) && Names(ranges, stored, h);
      match h
      case Nothing =>
      case Read(part) =>
        PassKeepsNoGap(log, ranges, stored, t.cursor, part, ranges + {Range(part.startOffset, part.endOffset)});
        assert earlier + Tell(t, h).handed == ranges + {Range(part.startOffset, part.endOffset)};
      case Committed(end) => CommitKeepsNoGap(log, ranges, stored, t.cursor, end);
      case Rewound(start, broker) => RewindKeepsNoGap(log, ranges, stored, t.cursor, start, broker);
    }
  }

  /** Over any history whose commits and rewinds name ranges that were handed out, by this process or
      by an earlier one of which the same held: every record from the stored offset up to the next
      offset to read has been handed out at some time, whatever was rewound and committed since. */
  lemma NothingIsEverSkipped(env: Env, earlier: set<Range>, ops: seq<Op>, tp: Partition)
    requires History(env, ops) && Chained(env.log(tp), earlier, env.stored(tp))
    requires NamesHandedOut(earlier, env.stored(tp), Happenings(env, ops, tp))
    ensures var handed := earlier + TaleOf(env, ops, tp).handed;
            && Reached(env.log(tp), handed, env.stored(tp), NextOffset(env, Run(env, ops), tp))
            && Chained(env.log(tp), handed, env.stored(tp))
  {
    TaleIsTrue(env, ops, tp);
    HistoryKeepsNoGap(env.log(tp), earlier, env.stored(tp), Happenings(env, ops, tp));
  }

  // ---------------------------------------------------------------- every pass of a history

  /** After the assignment of any pass is settled, and before it polls, the consumer stands at the
      offset the cursor wants, of every partition of the pass, and holds none of them paused. */
  lemma PollStartsWhereTheCursorIs(env: Env, ops: seq<Op>, desired: seq<Partition>, tp: Partition)
    requires History(env, ops) && tp in desired
    ensures var s := Settle(env, Run(env, ops), desired);
            tp in s.position && s.position[tp] == NextOffset(env, Run(env, ops), tp) && tp !in s.held
  {
    RunKeepsInv(env, ops);
    SettleAligns(env, Run(env, ops), desired);
    SettleResumes(env, Run(env, ops), desired);
    var s := Settle(env, Run(env, ops), desired);
    assert tp in s.assignment;
    assert tp in s.held ==> tp in s.held * s.assignment;
  }

  /** A partition that has never been read, on a retained assignment, has had nothing delivered. */
  lemma UnreadPartitionHasNothingDelivered(env: Env, ops: seq<Op>, tp: Partition)
    requires History(env, ops)
    ensures var s := Run(env, ops);
            tp in s.assignment && Desired(CursorOf(s, tp)).None? ==>
              tp in s.position && s.position[tp] == env.stored(tp) && TaleOf(env, ops, tp).since == []
  {
    RunKeepsInv(env, ops);
    TaleIsTrue(env, ops, tp);
    AlwaysUnmoved(env.stored(tp), Happenings(env, ops, tp));
  }

  lemma EmptyPassDrops(env: Env, s: Source, topics: seq<string>, ps: PollState, tp: Partition)
    requires Sticky(env, Finish(s, topics, ps)) && tp in s.assignment
    ensures ps.acc.totalRecords == 0 && Desired(CursorOf(Finish(s, topics, ps), tp)).None? ==>
              Finish(s, topics, ps).assignment == {}
  {
  }

  /** An assignment at the stored offset that never delivered is retried: a pass that kept nothing
      and leaves a partition unread drops the assignment, so the next pass assigns afresh. */
  lemma DeadAssignmentIsRetried(env: Env, ops: seq<Op>, op: Op, tp: Partition)
    requires History(env, ops) && Valid(op) && op.OpPass? && tp in op.desired
    ensures var s' := Apply(env, Run(env, ops), op);
            Polled(env, Run(env, ops), op).acc.totalRecords == 0 && Desired(CursorOf(s', tp)).None? ==>
              s'.assignment == {}
  {
    RunKeepsInv(env, ops);
    ApplyKeepsInv(env, Run(env, ops), op);
    SettleAligns(env, Run(env, ops), op.desired);
    EmptyPassDrops(env, Settle(env, Run(env, ops), op.desired), op.topics, Polled(env, Run(env, ops), op), tp);
  }

  /** Every result of a pass carries the offsets of exactly the records it holds, from where the
      cursor stood on; a source that failed on its own gets none. */
  lemma ResultsNameTheirRecords(env: Env, ops: seq<Op>, op: Op, tp: Partition)
    requires History(env, ops) && Valid(op) && op.OpPass?
    ensures var result := Result(env, Run(env, ops), op, tp);
            result.Some? ==>
              && KeptIsLog(env.log(tp), At(env.log(tp), NextOffset(env, Run(env, ops), tp)), result.value)
              && tp.topic in op.topics && IndexOf(op.topics, tp.topic) !in Polled(env, Run(env, ops), op).errors
  {
    RunKeepsInv(env, ops);
    PassEffect(env, Run(env, ops), op, tp);
    var settled := Settle(env, Run(env, ops), op.desired);
    FailedTopicKeepsNothing(env, op.topics, op.assignedTopics,
                            Begin(settled, op.topics, op.maxRecords, op.maxBytes), op.polls);
  }

  /** A rewind lands at the requested start or at the committed frontier, whichever is higher; one for
      another group's range moves nothing. */
  lemma RewindNeverBelowFrontier(env: Env, s: Source, m: Marker, broker: Option<int>)
    ensures m.group != env.group ==> Rewind(env, s, m, broker) == s && CommitAt(env, s, m) == s
    ensures var at := Desired(CursorOf(Rewind(env, s, m, broker), m.tp));
            m.group == env.group ==>
              && at.Some? && at.value >= m.start
              && (broker.Some? ==> at.value >= broker.value)
              && (CursorOf(s, m.tp).committed.Some? ==> at.value >= CursorOf(s, m.tp).committed.value)
              && (at.value == m.start || Some(at.value) == broker || Some(at.value) == CursorOf(s, m.tp).committed)
  {
  }
}
