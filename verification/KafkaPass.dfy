/**
  The multiplexed read pass of `kafka_source.rs`: sticky assignment, seek on
  divergence, one poll loop demultiplexed by topic, and cursors that advance
  over kept records only.

  The consumer is a next offset per assigned partition. A partition's log is the
  sequence of records it will ever hold; when a record becomes available is the
  poll's choice, so one fixed log stands for a log that grows.
 */
module KafkaPass {
  import opened KafkaPartition
  import opened Options
  import A = KafkaAccumulator

  datatype Record = Record(offset: int, payload: A.Payload)

  /** `stored` is where an assignment at the group's stored offset resolves; `group` is the
      consumer group the engine reads as. */
  datatype Env = Env(log: Partition -> seq<Record>, stored: Partition -> int, group: string)

  ghost predicate Increasing(log: seq<Record>) {
    forall i, j :: 0 <= i < j < |log| ==> log[i].offset < log[j].offset
  }

  ghost predicate LogsIncrease(env: Env) {
    forall tp: Partition :: Increasing(env.log(tp))
  }

  function AtFrom(log: seq<Record>, offset: int, k: nat): (i: nat)
    requires k <= |log|
    ensures k <= i <= |log|
    ensures i < |log| ==> log[i].offset >= offset
    ensures k < i ==> log[i - 1].offset < offset
    decreases |log| - k
  {
    if k == |log| || log[k].offset >= offset then k else AtFrom(log, offset, k + 1)
  }

  /** The index of the first record at or after an offset. */
  function At(log: seq<Record>, offset: int): (i: nat)
    ensures i <= |log|
    ensures i < |log| ==> log[i].offset >= offset
  {
    AtFrom(log, offset, 0)
  }

  function Payloads(log: seq<Record>, lo: nat, hi: nat): seq<A.Payload>
    requires lo <= hi <= |log|
    decreases hi
  {
    if lo == hi then [] else Payloads(log, lo, hi - 1) + [log[hi - 1].payload]
  }

  datatype PartitionCursor = PartitionCursor(lastRead: Option<int>, committed: Option<int>)

  const UNREAD: PartitionCursor := PartitionCursor(None, None)

  /** The adapter, and of its consumer the positions and the partitions it holds paused. */
  datatype Source = Source(
    cursors: map<Partition, PartitionCursor>,
    assignment: set<Partition>,
    delivered: map<Partition, int>,
    storedPending: set<Partition>,
    paused: set<Partition>,
    position: map<Partition, int>,
    held: set<Partition>)

  const NEW: Source := Source(map[], {}, map[], {}, {}, map[], {})

  function CursorIn(cursors: map<Partition, PartitionCursor>, tp: Partition): PartitionCursor {
    if tp in cursors then cursors[tp] else UNREAD
  }

  function CursorOf(s: Source, tp: Partition): PartitionCursor {
    CursorIn(s.cursors, tp)
  }

  /** The offset the next read asks for; none means the group's stored offset. */
  function Desired(c: PartitionCursor): Option<int> {
    if c.lastRead.Some? then Some(c.lastRead.value + 1) else c.committed
  }

  function Resume(env: Env, cursors: map<Partition, PartitionCursor>, tp: Partition): int {
    var d := Desired(CursorIn(cursors, tp));
    if d.Some? then d.value else env.stored(tp)
  }

  function NextOffset(env: Env, s: Source, tp: Partition): int {
    Resume(env, s.cursors, tp)
  }

  // ---------------------------------------------------------------- settling the assignment

  function Unread(cursors: map<Partition, PartitionCursor>, wanted: set<Partition>): set<Partition> {
    set tp | tp in wanted && Desired(CursorIn(cursors, tp)).None?
  }

  function Positions(env: Env, cursors: map<Partition, PartitionCursor>, wanted: set<Partition>): map<Partition, int> {
    map tp | tp in wanted :: Resume(env, cursors, tp)
  }

  function Reassign(env: Env, s: Source, wanted: set<Partition>): Source {
    s.(assignment := wanted,
       position := Positions(env, s.cursors, wanted),
       delivered := Positions(env, s.cursors, wanted - Unread(s.cursors, wanted)),
       storedPending := Unread(s.cursors, wanted),
       paused := {},
       held := s.held - wanted)
  }

  function Resumed(s: Source): Source {
    s.(held := s.held - s.paused, paused := {})
  }

  /** A retained partition whose delivery head is not where the cursor wants it. */
  predicate Diverged(s: Source, tp: Partition) {
    var want := Desired(CursorOf(s, tp));
    want.Some? && (tp !in s.delivered || s.delivered[tp] != want.value)
  }

  function Seek(s: Source, tp: Partition): Source {
    if Diverged(s, tp) then
      var want := Desired(CursorOf(s, tp)).value;
      s.(position := s.position[tp := want], delivered := s.delivered[tp := want])
    else s
  }

  function SeekAll(s: Source, desired: seq<Partition>): Source
    decreases |desired|
  {
    if desired == [] then s else SeekAll(Seek(s, desired[0]), desired[1..])
  }

  function Settle(env: Env, s: Source, desired: seq<Partition>): Source {
    var wanted := set tp | tp in desired;
    if s.assignment != wanted then Reassign(env, s, wanted) else SeekAll(Resumed(s), desired)
  }

  // ---------------------------------------------------------------- the poll loop

  /** `pauses` says whether a pause that the delivery asks for succeeds. */
  datatype Poll = Deliver(tp: Partition, pauses: bool) | PollError

  /** `errors` and `stopped` are the topics failed and paused in this pass. */
  datatype PollState = PollState(
    acc: A.Acc,
    position: map<Partition, int>,
    deliveredNow: map<Partition, int>,
    mustReassign: bool,
    failed: bool,
    errors: set<nat>,
    stopped: set<nat>,
    held: set<Partition>)

  function IndexOf(topics: seq<string>, topic: string): (i: nat)
    requires topic in topics
    ensures i < |topics| && topics[i] == topic
  {
    if topics[0] == topic then 0 else 1 + IndexOf(topics[1..], topic)
  }

  function KeyOf(topics: seq<string>, tp: Partition): A.Key
    requires tp.topic in topics
  {
    A.Key(IndexOf(topics, tp.topic), tp.id)
  }

  predicate Fits(ps: PollState, topics: seq<string>) {
    A.Shaped(ps.acc) && |ps.acc.usage| == |topics|
  }

  /** A record of a known topic: too big for any batch, kept, or turned away. */
  function Received(ps: PollState, topics: seq<string>, tp: Partition, record: Record): (r: PollState)
    requires Fits(ps, topics) && tp.topic in topics
    ensures Fits(r, topics)
  {
    var k := KeyOf(topics, tp);
    var moved := ps.(position := ps.position[tp := record.offset + 1]);
    if |record.payload| > ps.acc.maxBytes
    then moved.(acc := A.Fail(ps.acc, k.topic), mustReassign := true, errors := ps.errors + {k.topic})
    else moved.(acc := A.Push(ps.acc, k, record.offset, record.payload),
                deliveredNow := ps.deliveredNow[tp := record.offset + 1],
                mustReassign := ps.mustReassign || !A.Keeps(ps.acc, k, record.payload))
  }

  /** The assigned partitions of a topic. */
  function PartsOf(position: map<Partition, int>, topic: string): set<Partition> {
    set tp | tp in position && tp.topic == topic
  }

  /** A topic that has become full is paused, once a pass. */
  function PauseIfFull(ps: PollState, topics: seq<string>, topic: string, pauses: bool): PollState
    requires Fits(ps, topics) && topic in topics
  {
    var idx := IndexOf(topics, topic);
    if !ps.acc.full[idx] || idx in ps.stopped then ps
    else ps.(stopped := ps.stopped + {idx}, held := if pauses then ps.held + PartsOf(ps.position, topic) else ps.held)
  }

  /** The consumer has a record of a partition of the pass to deliver. */
  predicate CanDeliver(env: Env, topics: seq<string>, ps: PollState, tp: Partition) {
    tp in ps.position && tp.topic in topics && At(env.log(tp), ps.position[tp]) < |env.log(tp)|
  }

  function NextRecord(env: Env, ps: PollState, tp: Partition): Record
    requires tp in ps.position && At(env.log(tp), ps.position[tp]) < |env.log(tp)|
  {
    env.log(tp)[At(env.log(tp), ps.position[tp])]
  }

  /** One poll that delivers the consumer's next record of a partition; a
      partition with nothing to deliver leaves everything as it was. */
  function PollStep(env: Env, topics: seq<string>, ps: PollState, poll: Poll): (r: PollState)
    requires Fits(ps, topics)
    ensures Fits(r, topics)
  {
    match poll
    case PollError => ps.(failed := true)
    case Deliver(tp, pauses) =>
      if tp !in ps.position || At(env.log(tp), ps.position[tp]) == |env.log(tp)| then ps
      else if tp.topic !in topics then ps.(failed := true)
      else
        PauseIfFull(Received(ps, topics, tp, NextRecord(env, ps, tp)), topics, tp.topic, pauses)
  }

  predicate Stops(ps: PollState, assignedTopics: nat) {
    ps.failed || (assignedTopics > 0 && ps.acc.fullTopics >= assignedTopics)
  }

  function PollAll(env: Env, topics: seq<string>, assignedTopics: nat, ps: PollState, polls: seq<Poll>): (r: PollState)
    requires Fits(ps, topics)
    ensures Fits(r, topics)
    decreases |polls|
  {
    if polls == [] || Stops(ps, assignedTopics) then ps
    else PollAll(env, topics, assignedTopics, PollStep(env, topics, ps, polls[0]), polls[1..])
  }

  function Begin(s: Source, topics: seq<string>, maxRecords: nat, maxBytes: nat): (ps: PollState)
    ensures Fits(ps, topics)
  {
    PollState(A.Empty(|topics|, maxRecords, maxBytes), s.position, map[], false, false, {}, {}, s.held)
  }

  /** What the pass kept of a partition. */
  function Kept(ps: PollState, topics: seq<string>, tp: Partition): Option<A.PartAcc> {
    if tp.topic in topics && KeyOf(topics, tp) in ps.acc.parts then Some(ps.acc.parts[KeyOf(topics, tp)]) else None
  }

  // ---------------------------------------------------------------- closing the pass

  function Advance(c: PartitionCursor, kept: Option<A.PartAcc>): PartitionCursor {
    if kept.Some? then c.(lastRead := Some(kept.value.endOffset)) else c
  }

  function AdvanceAll(cursors: map<Partition, PartitionCursor>, topics: seq<string>, ps: PollState)
    : map<Partition, PartitionCursor>
  {
    map tp | tp in cursors.Keys + ps.position.Keys :: Advance(CursorIn(cursors, tp), Kept(ps, topics, tp))
  }

  /** The partitions of the topics a pass stopped early. */
  function StoppedParts(ps: PollState, topics: seq<string>): set<Partition> {
    set tp | tp in ps.position && tp.topic in topics && IndexOf(topics, tp.topic) in ps.stopped
  }

  function Finish(s: Source, topics: seq<string>, ps: PollState): Source {
    if ps.failed then s.(assignment := {}, position := ps.position, held := ps.held)
    else
      var pending := s.storedPending - ps.deliveredNow.Keys;
      var drop := ps.mustReassign || (ps.acc.totalRecords == 0 && pending != {});
      s.(assignment := if drop then {} else s.assignment,
         position := ps.position,
         held := ps.held,
         paused := s.paused + StoppedParts(ps, topics),
         delivered := s.delivered + ps.deliveredNow,
         storedPending := pending,
         cursors := AdvanceAll(s.cursors, topics, ps))
  }

  /** One whole pass over the partitions `desired` of the sources `topics`; with
      nothing to assign, the pass returns before it touches the consumer. */
  function Pass(env: Env, s: Source, topics: seq<string>, desired: seq<Partition>, assignedTopics: nat,
                polls: seq<Poll>, maxRecords: nat, maxBytes: nat): Source
  {
    if desired == [] then s
    else
      var settled := Settle(env, s, desired);
      Finish(settled, topics, PollAll(env, topics, assignedTopics, Begin(settled, topics, maxRecords, maxBytes), polls))
  }

  /** What the metadata phase makes of the broker's answers: the partitions to read, how many sources
      contribute one, and the sources whose answer failed. */
  datatype Resolved = Resolved(desired: seq<Partition>, assignedTopics: nat, errors: set<nat>)

  function PartitionsOf(topic: string, ids: seq<int>): seq<Partition> {
    if ids == [] then [] else PartitionsOf(topic, ids[..|ids| - 1]) + [Partition(topic, ids[|ids| - 1])]
  }

  /** `metadata` holds each source's partition ids, or nothing where asking for them failed. */
  function Resolve(topics: seq<string>, metadata: seq<Option<seq<int>>>): Resolved
    requires |topics| == |metadata|
  {
    if topics == [] then Resolved([], 0, {})
    else
      var n := |topics| - 1;
      var r := Resolve(topics[..n], metadata[..n]);
      match metadata[n]
      case None => r.(errors := r.errors + {n})
      case Some(ids) =>
        Resolved(r.desired + PartitionsOf(topics[n], ids), r.assignedTopics + (if ids == [] then 0 else 1), r.errors)
  }

  lemma {:induction false} PartitionsOfAre(topic: string, ids: seq<int>, tp: Partition)
    ensures tp in PartitionsOf(topic, ids) <==> tp.topic == topic && tp.id in ids
  {
    if ids != [] {
      PartitionsOfAre(topic, ids[..|ids| - 1], tp);
      assert ids == ids[..|ids| - 1] + [ids[|ids| - 1]];
    }
  }

  ghost predicate Answered(topics: seq<string>, metadata: seq<Option<seq<int>>>, tp: Partition)
    requires |topics| == |metadata|
  {
    exists i :: 0 <= i < |topics| && topics[i] == tp.topic && metadata[i].Some? && tp.id in metadata[i].value
  }

  /** A failed answer costs its own source only: the pass wants exactly the partitions answered for, and
      fails exactly the sources that were not. */
  lemma {:induction false} ResolveIsolatesFailures(topics: seq<string>, metadata: seq<Option<seq<int>>>, tp: Partition,
                                                   i: nat)
    requires |topics| == |metadata|
    ensures var r := Resolve(topics, metadata);
            && (tp in r.desired <==> Answered(topics, metadata, tp))
            && (i in r.errors <==> i < |topics| && metadata[i] == None)
            && (r.assignedTopics == 0 <==> r.desired == [])
  {
    if topics != [] {
      var n := |topics| - 1;
      var ts, ms := topics[..n], metadata[..n];
      ResolveIsolatesFailures(ts, ms, tp, i);
      assert forall j :: 0 <= j < n ==> ts[j] == topics[j] && ms[j] == metadata[j];
      if metadata[n].Some? {
        PartitionsOfAre(topics[n], metadata[n].value, tp);
      }
    }
  }

  // ---------------------------------------------------------------- commits and rewinds

  function ClampRewind(start: int, frontier: Option<int>): int {
    if frontier.Some? then Max(start, frontier.value) else start
  }

  /** The committed frontier: the higher of what the broker and this process know. */
  function Frontier(broker: Option<int>, inMemory: Option<int>): Option<int> {
    if broker.Some? && inMemory.Some? then Some(Max(broker.value, inMemory.value))
    else if broker.Some? then broker else inMemory
  }

  /** A progress marker: offsets `start` to `end` of a partition, read as `group`. */
  datatype Marker = Marker(tp: Partition, start: int, end: int, group: string)

  /** A range read as another group never moves this group's cursor. */
  predicate Foreign(env: Env, m: Marker) {
    m.group != env.group
  }

  function RewindTo(s: Source, m: Marker, broker: Option<int>): int {
    ClampRewind(m.start, Frontier(broker, CursorOf(s, m.tp).committed))
  }

  function Rewind(env: Env, s: Source, m: Marker, broker: Option<int>): Source {
    if Foreign(env, m) then s
    else s.(cursors := s.cursors[m.tp := PartitionCursor(None, Some(RewindTo(s, m, broker)))])
  }

  /** A commit moves the resume position only while nothing has been read since the last rewind. */
  function CommitAt(env: Env, s: Source, m: Marker): Source {
    if Foreign(env, m) then s
    else s.(cursors := s.cursors[m.tp := CursorOf(s, m.tp).(committed := Some(m.end + 1))])
  }

  // ---------------------------------------------------------------- the adapter object

  class KafkaSource {
    var cursors: map<Partition, PartitionCursor>
    var assignment: set<Partition>
    var delivered: map<Partition, int>
    var storedPending: set<Partition>
    var paused: set<Partition>
    /** The consumer's positions, and the partitions it holds paused. */
    var position: map<Partition, int>
    var held: set<Partition>

    ghost function View(): Source
      reads this
    {
      Source(cursors, assignment, delivered, storedPending, paused, position, held)
    }

    constructor ()
      ensures View() == NEW
    {
      cursors, assignment, delivered := map[], {}, map[];
      storedPending, paused, position, held := {}, {}, map[], {};
    }

    /** Assigns afresh when the partition set changed, else seeks where the
        delivery head diverged from the cursor. */
    method SettleAssignment(env: Env, desired: seq<Partition>)
      modifies this
      ensures View() == Settle(env, old(View()), desired)
    {
      var wanted := set tp | tp in desired;
      if assignment != wanted {
        assignment := wanted;
        position := Positions(env, cursors, wanted);
        storedPending := Unread(cursors, wanted);
        delivered := Positions(env, cursors, wanted - storedPending);
        held := held - wanted;
        paused := {};
      } else {
        held := held - paused;
        paused := {};
        SeekDiverged(desired);
      }
    }

    method SeekDiverged(desired: seq<Partition>)
      modifies this
      ensures View() == SeekAll(old(View()), desired)
    {
      var i := 0;
      while i < |desired|
        invariant 0 <= i <= |desired|
        invariant SeekAll(View(), desired[i..]) == SeekAll(old(View()), desired)
      {
        var tp := desired[i];
        var want := Desired(CursorIn(cursors, tp));
        ghost var before := View();
        if want.Some? && (tp !in delivered || delivered[tp] != want.value) {
          position := position[tp := want.value];
          delivered := delivered[tp := want.value];
        }
        assert View() == Seek(before, tp);
        assert desired[i..][1..] == desired[i + 1..];
        i := i + 1;
      }
    }

    /** A whole pass: the metadata phase, then the reading of what it resolved. */
    method ReadSources(env: Env, topics: seq<string>, metadata: seq<Option<seq<int>>>, polls: seq<Poll>,
                       maxRecords: nat, maxBytes: nat) returns (ok: bool, errors: set<nat>)
      requires |topics| == |metadata|
      modifies this
      ensures var r := Resolve(topics, metadata);
              && View() == Pass(env, old(View()), topics, r.desired, r.assignedTopics, polls, maxRecords, maxBytes)
              && (r.desired == [] ==> ok && errors == r.errors)
              && (r.desired != [] ==>
                    var s := Settle(env, old(View()), r.desired);
                    var ps := PollAll(env, topics, r.assignedTopics, Begin(s, topics, maxRecords, maxBytes), polls);
                    ok == !ps.failed && errors == r.errors + ps.errors)
    {
      var desired: seq<Partition>, assignedTopics: nat, unresolved: set<nat> := [], 0, {};
      var i := 0;
      while i < |topics|
        invariant 0 <= i <= |topics| && View() == old(View())
        invariant Resolve(topics[..i], metadata[..i]) == Resolved(desired, assignedTopics, unresolved)
      {
        assert topics[..i + 1][..i] == topics[..i] && metadata[..i + 1][..i] == metadata[..i];
        if metadata[i] == None {
          unresolved := unresolved + {i};
        } else {
          desired := desired + PartitionsOf(topics[i], metadata[i].value);
          assignedTopics := assignedTopics + (if metadata[i].value == [] then 0 else 1);
        }
        i := i + 1;
      }
      assert topics[..i] == topics && metadata[..i] == metadata;
      ok, errors := ReadAll(env, topics, desired, assignedTopics, polls, maxRecords, maxBytes);
      errors := errors + unresolved;
    }

    /** The pass after its metadata phase; `errors` are the sources failed on their own. */
    method ReadAll(env: Env, topics: seq<string>, desired: seq<Partition>, assignedTopics: nat,
                   polls: seq<Poll>, maxRecords: nat, maxBytes: nat) returns (ok: bool, errors: set<nat>)
      modifies this
      ensures View() == Pass(env, old(View()), topics, desired, assignedTopics, polls, maxRecords, maxBytes)
      ensures desired != [] ==>
                var s := Settle(env, old(View()), desired);
                var ps := PollAll(env, topics, assignedTopics, Begin(s, topics, maxRecords, maxBytes), polls);
                ok == !ps.failed && errors == ps.errors
      ensures desired == [] ==> ok && errors == {}
    {
      if desired == [] {
        return true, {};
      }
      SettleAssignment(env, desired);
      var settled := Source(cursors, assignment, delivered, storedPending, paused, position, held);
      var ps := Begin(settled, topics, maxRecords, maxBytes);
      ghost var first := ps;
      var i := 0;
      while i < |polls| && !Stops(ps, assignedTopics)
        invariant 0 <= i <= |polls| && Fits(ps, topics)
        invariant View() == settled
        invariant PollAll(env, topics, assignedTopics, ps, polls[i..])
               == PollAll(env, topics, assignedTopics, first, polls)
      {
        assert polls[i..][1..] == polls[i + 1..];
        ps := PollStep(env, topics, ps, polls[i]);
        i := i + 1;
      }
      ClosePass(topics, ps);
      return !ps.failed, ps.errors;
    }

    method ClosePass(topics: seq<string>, ps: PollState)
      modifies this
      ensures View() == Finish(old(View()), topics, ps)
    {
      position := ps.position;
      held := ps.held;
      if ps.failed {
        assignment := {};
        return;
      }
      if ps.mustReassign {
        assignment := {};
      }
      storedPending := storedPending - ps.deliveredNow.Keys;
      delivered := delivered + ps.deliveredNow;
      if ps.acc.totalRecords == 0 && storedPending != {} {
        assignment := {};
      }
      paused := paused + StoppedParts(ps, topics);
      cursors := AdvanceAll(cursors, topics, ps);
    }

    /** `accepted` says whether the broker takes the commit. */
    method CommitProgress(env: Env, m: Marker, accepted: bool) returns (ok: bool)
      modifies this
      ensures ok <==> m.group == env.group && accepted
      ensures View() == if ok then CommitAt(env, old(View()), m) else old(View())
    {
      if m.group != env.group {
        return false;
      }
      if !accepted {
        return false;
      }
      var cursor := CursorIn(cursors, m.tp);
      cursors := cursors[m.tp := cursor.(committed := Some(m.end + 1))];
      return true;
    }

    method ReplayFrom(env: Env, m: Marker, broker: Option<int>)
      modifies this
      ensures View() == Rewind(env, old(View()), m, broker)
    {
      if m.group == env.group {
        var frontier := Frontier(broker, CursorIn(cursors, m.tp).committed);
        var resumeAt := ClampRewind(m.start, frontier);
        cursors := cursors[m.tp := PartitionCursor(None, Some(resumeAt))];
      }
    }
  }

  // ---------------------------------------------------------------- positions in a log

  /** Resuming just past a record is resuming at the next one. */
  lemma {:induction false} AtFromAfter(log: seq<Record>, i: nat, k: nat)
    requires Increasing(log) && k <= i + 1 <= |log|
    ensures AtFrom(log, log[i].offset + 1, k) == i + 1
    decreases i + 1 - k
  {
    if k <= i {
      assert k < i ==> log[k].offset < log[i].offset;
      AtFromAfter(log, i, k + 1);
    } else if k < |log| {
      assert log[i].offset < log[k].offset;
    }
  }

  lemma AtAfter(log: seq<Record>, i: nat)
    requires Increasing(log) && i < |log|
    ensures At(log, log[i].offset + 1) == i + 1
  {
    AtFromAfter(log, i, 0);
  }

  // ---------------------------------------------------------------- the invariant between passes

  /** A retained assignment: the consumer stands where `delivered` says, and an
      unread partition has had nothing delivered and is still pending. */
  ghost predicate Sticky(env: Env, s: Source) {
    s.assignment != {} ==>
      && s.position.Keys == s.assignment
      && (forall tp :: tp in s.assignment && tp in s.delivered ==> s.position[tp] == s.delivered[tp])
      && (forall tp :: tp in s.assignment && Desired(CursorOf(s, tp)).None? ==>
            s.position[tp] == env.stored(tp) && tp in s.storedPending)
  }

  /** Whatever the consumer holds paused of a retained assignment is on record to be resumed. */
  ghost predicate PausesOnRecord(s: Source) {
    s.assignment != {} ==> s.held * s.assignment <= s.paused
  }

  ghost predicate Inv(env: Env, s: Source) {
    LogsIncrease(env) && Sticky(env, s) && PausesOnRecord(s)
  }

  /** The consumer is about to deliver, of every assigned partition, exactly the
      record the cursor wants next. */
  ghost predicate Aligned(env: Env, s: Source) {
    forall tp :: tp in s.position ==> s.position[tp] == NextOffset(env, s, tp)
  }

  lemma {:induction false} SeekAllFacts(env: Env, s: Source, desired: seq<Partition>)
    requires forall tp :: tp in desired ==> tp in s.position
    requires forall tp :: tp in s.position && tp in s.delivered ==> s.position[tp] == s.delivered[tp]
    requires forall tp :: tp in s.position && Desired(CursorOf(s, tp)).None? ==> s.position[tp] == env.stored(tp)
    requires forall tp :: tp in s.position && tp !in desired ==> s.position[tp] == NextOffset(env, s, tp)
    ensures var r := SeekAll(s, desired);
            && r == s.(position := r.position, delivered := r.delivered)
            && r.position.Keys == s.position.Keys
            && Aligned(env, r)
            && forall tp :: tp in r.position && tp in r.delivered ==> r.position[tp] == r.delivered[tp]
    decreases |desired|
  {
    if desired != [] {
      var s' := Seek(s, desired[0]);
      assert s'.cursors == s.cursors;
      forall tp | tp in s'.position && tp !in desired[1..] ensures s'.position[tp] == NextOffset(env, s', tp) {
        if tp != desired[0] {
          assert tp !in desired;
        }
      }
      SeekAllFacts(env, s', desired[1..]);
    }
  }

  /** Settling leaves the cursors alone and puts the consumer where they want it. */
  lemma SettleAligns(env: Env, s: Source, desired: seq<Partition>)
    requires Inv(env, s) && desired != []
    ensures var r := Settle(env, s, desired);
            && Aligned(env, r)
            && r.position.Keys == r.assignment == (set tp | tp in desired)
            && r.cursors == s.cursors
            && (forall tp :: tp in r.position && tp in r.delivered ==> r.position[tp] == r.delivered[tp])
            && (forall tp :: tp in r.position && Desired(CursorOf(r, tp)).None? ==> tp in r.storedPending)
  {
    var wanted := set tp | tp in desired;
    assert desired[0] in wanted;
    if s.assignment == wanted {
      SeekAllFacts(env, Resumed(s), desired);
    }
  }

  // ---------------------------------------------------------------- the invariant of the poll loop

  /** Kept records of a partition are its log from `lo` on, in order. */
  ghost predicate KeptIsLog(log: seq<Record>, lo: nat, part: A.PartAcc) {
    var n := |part.records|;
    && 0 < n && lo + n <= |log|
    && part.records == Payloads(log, lo, lo + n)
    && part.startOffset == log[lo].offset && part.endOffset == log[lo + n - 1].offset
  }

  /** Everything delivered of a partition in this pass, from `start` on, was kept. */
  predicate InStep(start: int, kept: Option<A.PartAcc>, position: int, deliveredNow: Option<int>) {
    if kept.Some? then position == kept.value.endOffset + 1 && deliveredNow == Some(position)
    else position == start && deliveredNow == None
  }

  /** What is kept of a partition is its log from `start` on; and either nothing
      was delivered beyond it, or the next pass assigns afresh (`loose`). */
  ghost predicate PartOk(log: seq<Record>, start: int, kept: Option<A.PartAcc>, position: int,
                         deliveredNow: Option<int>, loose: bool) {
    && (kept.Some? ==> KeptIsLog(log, At(log, start), kept.value))
    && (loose || InStep(start, kept, position, deliveredNow))
  }

  function Lookup(m: map<Partition, int>, tp: Partition): Option<int> {
    if tp in m then Some(m[tp]) else None
  }

  ghost predicate PollInvAt(env: Env, start: map<Partition, int>, topics: seq<string>, ps: PollState, tp: Partition)
    requires Fits(ps, topics) && tp in start && tp in ps.position && tp.topic in topics
  {
    PartOk(env.log(tp), start[tp], Kept(ps, topics, tp), ps.position[tp], Lookup(ps.deliveredNow, tp),
           ps.mustReassign && ps.acc.full[IndexOf(topics, tp.topic)])
  }

  ghost predicate PollInv(env: Env, start: map<Partition, int>, topics: seq<string>, ps: PollState) {
    && Fits(ps, topics)
    && ps.position.Keys == start.Keys
    && (forall tp :: tp in start ==> tp.topic in topics)
    && ps.deliveredNow.Keys <= start.Keys
    && (forall tp: Partition :: Kept(ps, topics, tp).Some? ==> tp in start)
    && (forall tp :: tp in start ==> PollInvAt(env, start, topics, ps, tp))
  }

  lemma KeptGrows(log: seq<Record>, lo: nat, part: A.PartAcc)
    requires KeptIsLog(log, lo, part) && lo + |part.records| < |log|
    ensures var r := log[lo + |part.records|];
            KeptIsLog(log, lo, A.PartAcc(part.records + [r.payload], part.startOffset, r.offset))
  {
  }

  /** The accumulator of a partition with the consumer's next record added. */
  function Grown(kept: Option<A.PartAcc>, r: Record): A.PartAcc {
    var part := if kept.Some? then kept.value else A.PartAcc([], r.offset, r.offset);
    A.PartAcc(part.records + [r.payload], part.startOffset, r.offset)
  }

  /** A partition in step delivers next the first record not yet kept. */
  lemma NextIsFirstUnkept(log: seq<Record>, start: int, kept: Option<A.PartAcc>, position: int,
                          deliveredNow: Option<int>)
    requires Increasing(log) && PartOk(log, start, kept, position, deliveredNow, false)
    ensures At(log, position) == At(log, start) + (if kept.Some? then |kept.value.records| else 0)
  {
    if kept.Some? {
      AtAfter(log, At(log, start) + |kept.value.records| - 1);
    }
  }

  lemma FirstKept(log: seq<Record>, lo: nat)
    requires lo < |log|
    ensures KeptIsLog(log, lo, Grown(None, log[lo]))
  {
    assert Payloads(log, lo, lo + 1) == [log[lo].payload];
  }

  /** Keeping the delivered record keeps the partition in step with the consumer. */
  lemma KeepingStaysInStep(log: seq<Record>, start: int, kept: Option<A.PartAcc>, position: int,
                           deliveredNow: Option<int>, r: Record)
    requires Increasing(log) && At(log, position) < |log| && r == log[At(log, position)]
    requires PartOk(log, start, kept, position, deliveredNow, false)
    ensures PartOk(log, start, Some(Grown(kept, r)), r.offset + 1, Some(r.offset + 1), false)
  {
    NextIsFirstUnkept(log, start, kept, position, deliveredNow);
    if kept.Some? {
      KeptGrows(log, At(log, start), kept.value);
    } else {
      FirstKept(log, At(log, start));
    }
  }

  /** What a delivery does to the partition it is of. */
  lemma OwnEffect(topics: seq<string>, ps: PollState, tp: Partition, r: Record)
    requires Fits(ps, topics) && tp.topic in topics
    ensures var ps' := Received(ps, topics, tp, r);
            && ps'.position == ps.position[tp := r.offset + 1]
            && (if |r.payload| <= ps.acc.maxBytes && A.Keeps(ps.acc, KeyOf(topics, tp), r.payload)
                then && Kept(ps', topics, tp) == Some(Grown(Kept(ps, topics, tp), r))
                     && ps'.deliveredNow == ps.deliveredNow[tp := r.offset + 1]
                     && !ps.acc.full[IndexOf(topics, tp.topic)]
                else && (Kept(ps', topics, tp).None? || Kept(ps', topics, tp) == Kept(ps, topics, tp))
                     && ps'.mustReassign && ps'.acc.full[IndexOf(topics, tp.topic)]
                     && ps'.deliveredNow.Keys <= ps.deliveredNow.Keys + {tp})
  {
  }

  function PartIn(acc: A.Acc, k: A.Key): Option<A.PartAcc> {
    if k in acc.parts then Some(acc.parts[k]) else None
  }

  lemma PushElsewhere(acc: A.Acc, k: A.Key, offset: int, payload: A.Payload, other: A.Key)
    requires A.Shaped(acc) && k.topic < |acc.usage| && other.topic < |acc.usage| && other != k
    ensures var r := A.Push(acc, k, offset, payload);
            && PartIn(r, other) == PartIn(acc, other)
            && (acc.full[other.topic] ==> r.full[other.topic])
  {
  }

  lemma FailElsewhere(acc: A.Acc, topic: nat, other: A.Key)
    requires A.Shaped(acc) && topic < |acc.usage| && other.topic < |acc.usage|
    ensures var r := A.Fail(acc, topic);
            && (acc.full[other.topic] || other.topic == topic ==> r.full[other.topic])
            && PartIn(r, other) == if other.topic == topic then None else PartIn(acc, other)
  {
  }

  /** What a delivery does to every other partition. */
  lemma OtherEffect(topics: seq<string>, ps: PollState, tp: Partition, r: Record, other: Partition)
    requires Fits(ps, topics) && tp.topic in topics && other.topic in topics && other != tp
    ensures var ps' := Received(ps, topics, tp, r);
            && Lookup(ps'.position, other) == Lookup(ps.position, other)
            && Lookup(ps'.deliveredNow, other) == Lookup(ps.deliveredNow, other)
            && (ps.mustReassign ==> ps'.mustReassign)
            && (ps.acc.full[IndexOf(topics, other.topic)] ==> ps'.acc.full[IndexOf(topics, other.topic)])
            && (Kept(ps', topics, other) == Kept(ps, topics, other)
                || (Kept(ps', topics, other).None? && ps'.mustReassign
                    && ps'.acc.full[IndexOf(topics, other.topic)]))
  {
    var k, j := KeyOf(topics, tp), KeyOf(topics, other);
    assert k != j;
    PushElsewhere(ps.acc, k, r.offset, r.payload, j);
    FailElsewhere(ps.acc, k.topic, j);
    assert Kept(ps, topics, other) == PartIn(ps.acc, j);
  }

  lemma DeliveryKeepsOwn(env: Env, start: map<Partition, int>, topics: seq<string>, ps: PollState, tp: Partition)
    requires LogsIncrease(env) && PollInv(env, start, topics, ps) && tp in start && CanDeliver(env, topics, ps, tp)
    ensures var ps' := Received(ps, topics, tp, NextRecord(env, ps, tp));
            tp in ps'.position && PollInvAt(env, start, topics, ps', tp)
  {
    assert PollInvAt(env, start, topics, ps, tp);
    OwnEffect(topics, ps, tp, NextRecord(env, ps, tp));
    if !ps.acc.full[IndexOf(topics, tp.topic)] {
      KeepingStaysInStep(env.log(tp), start[tp], Kept(ps, topics, tp), ps.position[tp], Lookup(ps.deliveredNow, tp),
                         NextRecord(env, ps, tp));
    }
  }

  lemma DeliveryKeepsOther(env: Env, start: map<Partition, int>, topics: seq<string>, ps: PollState, tp: Partition,
                           r: Record, other: Partition)
    requires PollInv(env, start, topics, ps) && tp in start && other in start && other != tp
    ensures var ps' := Received(ps, topics, tp, r);
            other in ps'.position && PollInvAt(env, start, topics, ps', other)
  {
    assert PollInvAt(env, start, topics, ps, other);
    OtherEffect(topics, ps, tp, r, other);
  }

  lemma DeliveryKeepsStarted(env: Env, start: map<Partition, int>, topics: seq<string>, ps: PollState, tp: Partition,
                             r: Record, other: Partition)
    requires PollInv(env, start, topics, ps) && tp in start
    ensures Kept(Received(ps, topics, tp, r), topics, other).Some? ==> other in start
  {
    if other != tp && other.topic in topics {
      OtherEffect(topics, ps, tp, r, other);
    }
  }

  lemma DeliveryKeepsKeys(start: map<Partition, int>, topics: seq<string>, ps: PollState, tp: Partition, r: Record)
    requires Fits(ps, topics) && ps.position.Keys == start.Keys && ps.deliveredNow.Keys <= start.Keys
    requires tp in start && tp.topic in topics
    ensures var ps' := Received(ps, topics, tp, r);
            ps'.position.Keys == start.Keys && ps'.deliveredNow.Keys <= start.Keys
  {
    OwnEffect(topics, ps, tp, r);
  }

  lemma DeliveryKeepsAt(env: Env, start: map<Partition, int>, topics: seq<string>, ps: PollState, tp: Partition,
                        ps': PollState, other: Partition)
    requires LogsIncrease(env) && PollInv(env, start, topics, ps) && tp in start && other in start
    requires CanDeliver(env, topics, ps, tp) && ps' == Received(ps, topics, tp, NextRecord(env, ps, tp))
    ensures other in ps'.position && PollInvAt(env, start, topics, ps', other)
  {
    if other == tp {
      DeliveryKeepsOwn(env, start, topics, ps, other);
    } else {
      DeliveryKeepsOther(env, start, topics, ps, tp, NextRecord(env, ps, tp), other);
    }
  }

  lemma DeliveryKeepsInv(env: Env, start: map<Partition, int>, topics: seq<string>, ps: PollState, tp: Partition,
                         ps': PollState)
    requires LogsIncrease(env) && PollInv(env, start, topics, ps) && tp in start
    requires CanDeliver(env, topics, ps, tp) && ps' == Received(ps, topics, tp, NextRecord(env, ps, tp))
    ensures PollInv(env, start, topics, ps')
  {
    DeliveryKeepsKeys(start, topics, ps, tp, NextRecord(env, ps, tp));
    forall other | other in start ensures PollInvAt(env, start, topics, ps', other) {
      DeliveryKeepsAt(env, start, topics, ps, tp, ps', other);
    }
    forall other: Partition ensures Kept(ps', topics, other).Some? ==> other in start {
      DeliveryKeepsStarted(env, start, topics, ps, tp, NextRecord(env, ps, tp), other);
    }
  }

  /** The part of the state the invariant speaks of: pausing and failing polls leave it alone. */
  predicate SameDeliveries(ps: PollState, ps': PollState) {
    && ps'.acc == ps.acc && ps'.position == ps.position && ps'.deliveredNow == ps.deliveredNow
    && ps'.mustReassign == ps.mustReassign
  }

  lemma SameDeliveriesKeepInv(env: Env, start: map<Partition, int>, topics: seq<string>, ps: PollState, ps': PollState)
    requires PollInv(env, start, topics, ps) && SameDeliveries(ps, ps')
    ensures PollInv(env, start, topics, ps')
  {
    forall tp | tp in start ensures PollInvAt(env, start, topics, ps', tp) {
      assert PollInvAt(env, start, topics, ps, tp);
    }
    forall tp: Partition | Kept(ps', topics, tp).Some? ensures tp in start {
      assert Kept(ps, topics, tp).Some?;
    }
  }

  lemma PollStepDelivers(env: Env, topics: seq<string>, ps: PollState, poll: Poll)
    requires Fits(ps, topics)
    ensures var ps' := PollStep(env, topics, ps, poll);
            if poll.Deliver? && CanDeliver(env, topics, ps, poll.tp)
            then SameDeliveries(Received(ps, topics, poll.tp, NextRecord(env, ps, poll.tp)), ps')
            else SameDeliveries(ps, ps')
  {
  }

  lemma PollStepKeepsInv(env: Env, start: map<Partition, int>, topics: seq<string>, ps: PollState, poll: Poll,
                         ps': PollState)
    requires LogsIncrease(env) && PollInv(env, start, topics, ps)
    requires if poll.Deliver? && CanDeliver(env, topics, ps, poll.tp)
             then SameDeliveries(Received(ps, topics, poll.tp, NextRecord(env, ps, poll.tp)), ps')
             else SameDeliveries(ps, ps')
    ensures PollInv(env, start, topics, ps')
  {
    if poll.Deliver? && CanDeliver(env, topics, ps, poll.tp) {
      var received := Received(ps, topics, poll.tp, NextRecord(env, ps, poll.tp));
      DeliveryKeepsInv(env, start, topics, ps, poll.tp, received);
      SameDeliveriesKeepInv(env, start, topics, received, ps');
    } else {
      SameDeliveriesKeepInv(env, start, topics, ps, ps');
    }
  }

  lemma {:induction false} PollAllKeepsInv(env: Env, start: map<Partition, int>, topics: seq<string>,
                                           assignedTopics: nat, ps: PollState, polls: seq<Poll>)
    requires LogsIncrease(env) && PollInv(env, start, topics, ps)
    ensures PollInv(env, start, topics, PollAll(env, topics, assignedTopics, ps, polls))
    decreases |polls|
  {
    if polls != [] && !Stops(ps, assignedTopics) {
      PollStepDelivers(env, topics, ps, polls[0]);
      PollStepKeepsInv(env, start, topics, ps, polls[0], PollStep(env, topics, ps, polls[0]));
      PollAllKeepsInv(env, start, topics, assignedTopics, PollStep(env, topics, ps, polls[0]), polls[1..]);
    }
  }

  /** Everything consumers hold paused in a pass was held before it, or is of a topic the pass stopped. */
  ghost predicate HeldFrom(before: set<Partition>, topics: seq<string>, ps: PollState) {
    forall tp :: tp in ps.held ==> tp in before || tp in StoppedParts(ps, topics)
  }

  lemma PollStepKeepsHeld(env: Env, before: set<Partition>, topics: seq<string>, ps: PollState, poll: Poll)
    requires Fits(ps, topics) && HeldFrom(before, topics, ps)
    ensures HeldFrom(before, topics, PollStep(env, topics, ps, poll))
  {
    var ps' := PollStep(env, topics, ps, poll);
    forall tp | tp in ps'.held ensures tp in before || tp in StoppedParts(ps', topics) {
      if tp in ps.held {
        assert tp in before || tp in StoppedParts(ps, topics);
      }
    }
  }

  lemma {:induction false} PollAllKeepsHeld(env: Env, before: set<Partition>, topics: seq<string>, assignedTopics: nat,
                                            ps: PollState, polls: seq<Poll>)
    requires Fits(ps, topics) && HeldFrom(before, topics, ps)
    ensures HeldFrom(before, topics, PollAll(env, topics, assignedTopics, ps, polls))
    decreases |polls|
  {
    if polls != [] && !Stops(ps, assignedTopics) {
      PollStepKeepsHeld(env, before, topics, ps, polls[0]);
      PollAllKeepsHeld(env, before, topics, assignedTopics, PollStep(env, topics, ps, polls[0]), polls[1..]);
    }
  }

  /** A topic that failed keeps nothing, whatever of it is delivered afterwards. */
  ghost predicate FailuresEmpty(ps: PollState) {
    && A.Shaped(ps.acc)
    && (forall idx :: idx in ps.errors ==> idx < |ps.acc.full| && ps.acc.full[idx])
    && (forall k :: k in ps.acc.parts ==> k.topic !in ps.errors)
  }

  lemma DeliveryKeepsFailures(topics: seq<string>, ps: PollState, tp: Partition, r: Record)
    requires Fits(ps, topics) && FailuresEmpty(ps) && tp.topic in topics
    ensures FailuresEmpty(Received(ps, topics, tp, r))
  {
    var ps', k := Received(ps, topics, tp, r), KeyOf(topics, tp);
    forall other | other in ps'.acc.parts ensures other.topic !in ps'.errors {
      assert other in ps.acc.parts || (other == k && !ps.acc.full[k.topic]);
    }
  }

  lemma PollStepKeepsFailures(env: Env, topics: seq<string>, ps: PollState, poll: Poll)
    requires Fits(ps, topics) && FailuresEmpty(ps)
    ensures FailuresEmpty(PollStep(env, topics, ps, poll))
  {
    if poll.Deliver? && CanDeliver(env, topics, ps, poll.tp) {
      DeliveryKeepsFailures(topics, ps, poll.tp, NextRecord(env, ps, poll.tp));
    }
  }

  lemma {:induction false} FailedTopicKeepsNothing(env: Env, topics: seq<string>, assignedTopics: nat,
                                                   ps: PollState, polls: seq<Poll>)
    requires Fits(ps, topics) && FailuresEmpty(ps)
    ensures FailuresEmpty(PollAll(env, topics, assignedTopics, ps, polls))
    decreases |polls|
  {
    if polls != [] && !Stops(ps, assignedTopics) {
      PollStepKeepsFailures(env, topics, ps, polls[0]);
      FailedTopicKeepsNothing(env, topics, assignedTopics, PollStep(env, topics, ps, polls[0]), polls[1..]);
    }
  }

  // ---------------------------------------------------------------- a whole pass

  ghost predicate ValidPass(topics: seq<string>, desired: seq<Partition>) {
    forall tp :: tp in desired ==> tp.topic in topics
  }

  lemma FinishEffect(s: Source, topics: seq<string>, ps: PollState, tp: Partition)
    requires !ps.failed && (Kept(ps, topics, tp).Some? ==> tp in ps.position)
    ensures CursorOf(Finish(s, topics, ps), tp) == Advance(CursorOf(s, tp), Kept(ps, topics, tp))
  {
  }

  /** One partition of an assignment that survives the pass: in step, and pending if still unread. */
  lemma FinishKeepsStep(env: Env, s: Source, topics: seq<string>, ps: PollState, tp: Partition)
    requires PollInv(env, s.position, topics, ps) && tp in s.position && !ps.failed && !ps.mustReassign
    requires s.position[tp] == NextOffset(env, s, tp)
    requires tp in s.delivered ==> s.position[tp] == s.delivered[tp]
    requires Desired(CursorOf(s, tp)).None? ==> tp in s.storedPending
    ensures var s' := Finish(s, topics, ps);
            && (tp in s'.delivered ==> ps.position[tp] == s'.delivered[tp])
            && (Desired(CursorOf(s', tp)).None? ==> ps.position[tp] == env.stored(tp) && tp in s'.storedPending)
  {
    FinishEffect(s, topics, ps, tp);
    assert PollInvAt(env, s.position, topics, ps, tp);
  }

  lemma FinishKeepsSticky(env: Env, s: Source, topics: seq<string>, ps: PollState)
    requires Aligned(env, s) && PollInv(env, s.position, topics, ps) && s.position.Keys == s.assignment
    requires forall tp :: tp in s.position && tp in s.delivered ==> s.position[tp] == s.delivered[tp]
    requires forall tp :: tp in s.position && Desired(CursorOf(s, tp)).None? ==> tp in s.storedPending
    ensures Sticky(env, Finish(s, topics, ps))
  {
    var s' := Finish(s, topics, ps);
    if s'.assignment != {} {
      forall tp | tp in s'.assignment
        ensures tp in s'.delivered ==> s'.position[tp] == s'.delivered[tp]
        ensures Desired(CursorOf(s', tp)).None? ==> s'.position[tp] == env.stored(tp) && tp in s'.storedPending
      {
        FinishKeepsStep(env, s, topics, ps, tp);
      }
    }
  }

  lemma BeginIsInv(env: Env, s: Source, topics: seq<string>, maxRecords: nat, maxBytes: nat)
    requires forall tp :: tp in s.position ==> tp.topic in topics
    ensures PollInv(env, s.position, topics, Begin(s, topics, maxRecords, maxBytes))
  {
  }

  lemma FinishKeepsPauses(s: Source, topics: seq<string>, ps: PollState)
    requires HeldFrom(s.held, topics, ps) && s.held * s.assignment == {}
    ensures PausesOnRecord(Finish(s, topics, ps))
  {
    var s' := Finish(s, topics, ps);
    forall tp | s'.assignment != {} && tp in s'.held * s'.assignment ensures tp in s'.paused {
      assert tp in s.assignment && tp !in s.held * s.assignment;
    }
  }

  lemma PassKeepsInv(env: Env, s: Source, topics: seq<string>, desired: seq<Partition>, assignedTopics: nat,
                     polls: seq<Poll>, maxRecords: nat, maxBytes: nat)
    requires Inv(env, s) && ValidPass(topics, desired)
    ensures Inv(env, Pass(env, s, topics, desired, assignedTopics, polls, maxRecords, maxBytes))
  {
    if desired != [] {
      var settled := Settle(env, s, desired);
      SettleAligns(env, s, desired);
      SettleResumes(env, s, desired);
      var first := Begin(settled, topics, maxRecords, maxBytes);
      BeginIsInv(env, settled, topics, maxRecords, maxBytes);
      PollAllKeepsInv(env, settled.position, topics, assignedTopics, first, polls);
      PollAllKeepsHeld(env, settled.held, topics, assignedTopics, first, polls);
      var ps := PollAll(env, topics, assignedTopics, first, polls);
      FinishKeepsSticky(env, settled, topics, ps);
      FinishKeepsPauses(settled, topics, ps);
    }
  }

  /** No partition of a pass is left paused by an earlier one, failed or not. */
  lemma SettleResumes(env: Env, s: Source, desired: seq<Partition>)
    requires Inv(env, s) && desired != []
    ensures var r := Settle(env, s, desired); r.held * r.assignment == {}
  {
    var wanted := set tp | tp in desired;
    assert desired[0] in wanted;
    if s.assignment == wanted {
      SeekAllFacts(env, Resumed(s), desired);
      var r := Settle(env, s, desired);
      assert r.held == s.held - s.paused && r.assignment == s.assignment;
    }
  }
}
