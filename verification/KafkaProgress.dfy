/**
  That a pass of the Kafka source reads: when its poll loop stops, what it hands out of what it was
  polled for, and when it keeps its assignment.
 */
module KafkaProgress {
  import opened KafkaPartition
  import opened KafkaPass
  import opened KafkaHistory
  import opened Options
  import A = KafkaAccumulator

  // ---------------------------------------------------------------- when the poll loop stops

  /** The polls, one after the other, with nothing to stop them. */
  function PollEach(env: Env, topics: seq<string>, ps: PollState, polls: seq<Poll>): (r: PollState)
    requires Fits(ps, topics)
    ensures Fits(r, topics)
  {
    if polls == [] then ps
    else PollStep(env, topics, PollEach(env, topics, ps, polls[..|polls| - 1]), polls[|polls| - 1])
  }

  lemma {:induction false} PollEachFirst(env: Env, topics: seq<string>, ps: PollState, polls: seq<Poll>)
    requires Fits(ps, topics) && polls != []
    ensures PollEach(env, topics, ps, polls)
         == PollEach(env, topics, PollStep(env, topics, ps, polls[0]), polls[1..])
    decreases |polls|
  {
    var n := |polls| - 1;
    if n > 0 {
      PollEachFirst(env, topics, ps, polls[..n]);
      assert polls[..n][1..] == polls[1..][..n - 1] && polls[1..][n - 1] == polls[n];
    } else {
      assert polls[..n] == [] && polls[1..] == [];
    }
  }

  /** The loop has reason to go on: no poll failed, and not as many topics are full as are assigned. */
  predicate GoesOn(ps: PollState, assignedTopics: nat) {
    !ps.failed && (assignedTopics == 0 || A.CountFull(ps.acc.full) < assignedTopics)
  }

  lemma PollStepKeepsCounts(env: Env, topics: seq<string>, ps: PollState, poll: Poll)
    requires Fits(ps, topics) && A.Consistent(ps.acc)
    ensures var ps' := PollStep(env, topics, ps, poll);
            && A.Consistent(ps'.acc)
            && ps'.acc.maxRecords == ps.acc.maxRecords && ps'.acc.maxBytes == ps.acc.maxBytes
  {
    PollStepDelivers(env, topics, ps, poll);
    if poll.Deliver? && CanDeliver(env, topics, ps, poll.tp) {
      var k, r := KeyOf(topics, poll.tp), NextRecord(env, ps, poll.tp);
      A.PushKeepsConsistent(ps.acc, k, r.offset, r.payload);
      A.FailKeepsConsistent(ps.acc, k.topic);
    }
  }

  /** The loop makes use of the polls one by one and stops at the first state it has no reason to go on from,
      and nowhere before: polls are left over only if one failed, or as many topics are full as are assigned. */
  lemma {:induction false} PollsStopExactlyWhen(env: Env, topics: seq<string>, assignedTopics: nat, ps: PollState,
                                                polls: seq<Poll>) returns (n: nat)
    requires Fits(ps, topics) && A.Consistent(ps.acc)
    ensures n <= |polls| && PollAll(env, topics, assignedTopics, ps, polls) == PollEach(env, topics, ps, polls[..n])
    ensures forall i :: 0 <= i < n ==> GoesOn(PollEach(env, topics, ps, polls[..i]), assignedTopics)
    ensures n < |polls| ==> !GoesOn(PollEach(env, topics, ps, polls[..n]), assignedTopics)
    decreases |polls|
  {
    if polls == [] || Stops(ps, assignedTopics) {
      n := 0;
      assert polls[..0] == [];
    } else {
      var next := PollStep(env, topics, ps, polls[0]);
      PollStepKeepsCounts(env, topics, ps, polls[0]);
      var m := PollsStopExactlyWhen(env, topics, assignedTopics, next, polls[1..]);
      n := m + 1;
      forall i | 0 < i <= n
        ensures PollEach(env, topics, ps, polls[..i]) == PollEach(env, topics, next, polls[1..][..i - 1])
      {
        PollEachFirst(env, topics, ps, polls[..i]);
        assert polls[..i][1..] == polls[1..][..i - 1];
      }
      assert polls[..0] == [] && GoesOn(PollEach(env, topics, ps, polls[..0]), assignedTopics);
    }
  }

  lemma {:induction false} EachKeepsInv(env: Env, start: map<Partition, int>, topics: seq<string>, ps: PollState,
                                        polls: seq<Poll>)
    requires LogsIncrease(env) && PollInv(env, start, topics, ps)
    ensures PollInv(env, start, topics, PollEach(env, topics, ps, polls))
  {
    if polls != [] {
      var n := |polls| - 1;
      EachKeepsInv(env, start, topics, ps, polls[..n]);
      var before := PollEach(env, topics, ps, polls[..n]);
      PollStepDelivers(env, topics, before, polls[n]);
      PollStepKeepsInv(env, start, topics, before, polls[n], PollStep(env, topics, before, polls[n]));
    }
  }

  lemma StepFailsExactlyWhen(env: Env, start: map<Partition, int>, topics: seq<string>, ps: PollState, poll: Poll)
    requires PollInv(env, start, topics, ps)
    ensures PollStep(env, topics, ps, poll).failed <==> ps.failed || poll.PollError?
  {
  }

  /** Over partitions of its own sources, a loop fails exactly when one of its polls does. */
  lemma {:induction false} FailsExactlyWhenAPollDoes(env: Env, start: map<Partition, int>, topics: seq<string>,
                                                     ps: PollState, polls: seq<Poll>)
    requires LogsIncrease(env) && PollInv(env, start, topics, ps) && !ps.failed
    ensures PollEach(env, topics, ps, polls).failed <==> PollError in polls
  {
    if polls != [] {
      var n := |polls| - 1;
      FailsExactlyWhenAPollDoes(env, start, topics, ps, polls[..n]);
      EachKeepsInv(env, start, topics, ps, polls[..n]);
      StepFailsExactlyWhen(env, start, topics, PollEach(env, topics, ps, polls[..n]), polls[n]);
      assert polls == polls[..n] + [polls[n]];
    }
  }

  // ---------------------------------------------------------------- full topics

  lemma FullElsewhere(topics: seq<string>, ps: PollState, tp: Partition, r: Record, i: nat)
    requires Fits(ps, topics) && tp.topic in topics && i < |topics| && i != IndexOf(topics, tp.topic)
    ensures var ps' := Received(ps, topics, tp, r);
            ps'.acc.full[i] == ps.acc.full[i] && ps'.acc.usage[i] == ps.acc.usage[i]
  {
    var k := KeyOf(topics, tp);
    A.OtherTopicUntouched(ps.acc, A.Pushed(k.topic, A.Message(k.partition, r.offset, r.payload)), i);
    A.OtherTopicUntouched(ps.acc, A.Failed(k.topic), i);
  }

  /** The topics, by index, of the partitions a pass is over. */
  function ActiveTopics(topics: seq<string>, parts: set<Partition>): set<nat> {
    set tp | tp in parts && tp.topic in topics :: IndexOf(topics, tp.topic)
  }

  /** A full topic is one of those, and is stopped. */
  ghost predicate FullAreActive(topics: seq<string>, parts: set<Partition>, ps: PollState)
    requires Fits(ps, topics)
  {
    forall i :: 0 <= i < |topics| ==> (ps.acc.full[i] ==> i in ActiveTopics(topics, parts))
                                      && (ps.acc.full[i] <==> i in ps.stopped)
  }

  lemma PauseKeepsActive(topics: seq<string>, ps: PollState, idx: nat, received: PollState, topic: string, pauses: bool)
    requires Fits(ps, topics) && Fits(received, topics) && topic in topics && idx == IndexOf(topics, topic)
    requires FullAreActive(topics, ps.position.Keys, ps) && idx in ActiveTopics(topics, ps.position.Keys)
    requires received.stopped == ps.stopped && received.position.Keys == ps.position.Keys
    requires forall i :: 0 <= i < |topics| && i != idx ==> received.acc.full[i] == ps.acc.full[i]
    requires ps.acc.full[idx] ==> received.acc.full[idx]
    ensures FullAreActive(topics, ps.position.Keys, PauseIfFull(received, topics, topic, pauses))
  {
    var after := PauseIfFull(received, topics, topic, pauses);
    assert after.acc == received.acc && after.position == received.position;
    forall i | 0 <= i < |topics| && i != idx ensures after.acc.full[i] <==> i in after.stopped {
      assert ps.acc.full[i] <==> i in ps.stopped;
    }
    assert ps.acc.full[idx] <==> idx in ps.stopped;
  }

  lemma StepKeepsActive(env: Env, topics: seq<string>, ps: PollState, poll: Poll)
    requires Fits(ps, topics) && FullAreActive(topics, ps.position.Keys, ps)
    ensures var ps' := PollStep(env, topics, ps, poll);
            ps'.position.Keys == ps.position.Keys && FullAreActive(topics, ps.position.Keys, ps')
  {
    if poll.Deliver? && CanDeliver(env, topics, ps, poll.tp) {
      var r, idx := NextRecord(env, ps, poll.tp), IndexOf(topics, poll.tp.topic);
      assert idx in ActiveTopics(topics, ps.position.Keys);
      var received := Received(ps, topics, poll.tp, r);
      OwnEffect(topics, ps, poll.tp, r);
      FailElsewhere(ps.acc, idx, KeyOf(topics, poll.tp));
      forall i | 0 <= i < |topics| && i != idx ensures received.acc.full[i] == ps.acc.full[i] {
        FullElsewhere(topics, ps, poll.tp, r, i);
      }
      PauseKeepsActive(topics, ps, idx, received, poll.tp.topic, poll.pauses);
    }
  }

  /** Through any polls, the topics stopped are exactly those that have become full, and each is one the pass
      has partitions of. */
  lemma {:induction false} StoppedExactlyWhenFull(env: Env, topics: seq<string>, ps: PollState, polls: seq<Poll>)
    requires Fits(ps, topics) && FullAreActive(topics, ps.position.Keys, ps)
    ensures var end := PollEach(env, topics, ps, polls);
            end.position.Keys == ps.position.Keys && FullAreActive(topics, ps.position.Keys, end)
  {
    if polls != [] {
      StoppedExactlyWhenFull(env, topics, ps, polls[..|polls| - 1]);
      StepKeepsActive(env, topics, PollEach(env, topics, ps, polls[..|polls| - 1]), polls[|polls| - 1]);
    }
  }

  /** Every pause asked for succeeds. */
  predicate PausesSucceed(polls: seq<Poll>) {
    forall i :: 0 <= i < |polls| && polls[i].Deliver? ==> polls[i].pauses
  }

  /** Of a stopped topic, every partition of the pass is paused if pausing works. */
  ghost predicate StoppedAreHeld(topics: seq<string>, ps: PollState) {
    StoppedParts(ps, topics) <= ps.held
  }

  lemma PauseHolds(topics: seq<string>, ps: PollState, received: PollState, topic: string)
    requires Fits(received, topics) && topic in topics && StoppedAreHeld(topics, ps)
    requires received.stopped == ps.stopped && received.held == ps.held && received.position.Keys == ps.position.Keys
    ensures StoppedAreHeld(topics, PauseIfFull(received, topics, topic, true))
  {
    var after := PauseIfFull(received, topics, topic, true);
    forall tp | tp in StoppedParts(after, topics) ensures tp in after.held {
      if IndexOf(topics, tp.topic) in ps.stopped {
        assert tp in StoppedParts(ps, topics);
      } else {
        assert topics[IndexOf(topics, tp.topic)] == topic;
      }
    }
  }

  lemma {:induction false} FullTopicsArePaused(env: Env, topics: seq<string>, ps: PollState, polls: seq<Poll>)
    requires Fits(ps, topics) && StoppedAreHeld(topics, ps) && PausesSucceed(polls)
    ensures StoppedAreHeld(topics, PollEach(env, topics, ps, polls))
  {
    if polls != [] {
      var n := |polls| - 1;
      FullTopicsArePaused(env, topics, ps, polls[..n]);
      var before := PollEach(env, topics, ps, polls[..n]);
      if polls[n].Deliver? && CanDeliver(env, topics, before, polls[n].tp) {
        var tp, r := polls[n].tp, NextRecord(env, before, polls[n].tp);
        OwnEffect(topics, before, tp, r);
        PauseHolds(topics, before, Received(before, topics, tp, r), tp.topic);
      }
    }
  }

  lemma {:induction false} CountFullBound(full: seq<bool>, among: set<nat>)
    requires forall i :: 0 <= i < |full| && full[i] ==> i in among
    ensures A.CountFull(full) <= |among|
  {
    if full != [] {
      var n := |full| - 1;
      if full[n] {
        CountFullBound(full[..n], among - {n});
        assert |among| == |among - {n}| + 1;
      } else {
        CountFullBound(full[..n], among);
      }
    }
  }

  // ---------------------------------------------------------------- what a pass takes

  function Min(a: nat, b: nat): nat {
    if a < b then a else b
  }

  function Length(kept: Option<A.PartAcc>): nat {
    if kept.Some? then |kept.value.records| else 0
  }

  /** How often a partition is polled for. */
  function Deliveries(polls: seq<Poll>, tp: Partition): nat {
    if polls == [] then 0
    else
      var last := polls[|polls| - 1];
      Deliveries(polls[..|polls| - 1], tp) + if last.Deliver? && last.tp == tp then 1 else 0
  }

  function Available(log: seq<Record>, from: int): nat {
    |log| - At(log, from)
  }

  lemma OwnDeliveryTaken(env: Env, start: map<Partition, int>, topics: seq<string>, ps: PollState, tp: Partition,
                         count: nat, received: PollState)
    requires LogsIncrease(env) && PollInv(env, start, topics, ps) && tp in start && CanDeliver(env, topics, ps, tp)
    requires received == Received(ps, topics, tp, NextRecord(env, ps, tp))
    requires Length(Kept(ps, topics, tp)) == Min(count, Available(env.log(tp), start[tp]))
    requires !received.acc.full[IndexOf(topics, tp.topic)] || !received.mustReassign
    requires !ps.acc.full[IndexOf(topics, tp.topic)]
    ensures Length(Kept(received, topics, tp)) == Min(count + 1, Available(env.log(tp), start[tp]))
  {
    assert PollInvAt(env, start, topics, ps, tp);
    OwnEffect(topics, ps, tp, NextRecord(env, ps, tp));
    NextIsFirstUnkept(env.log(tp), start[tp], Kept(ps, topics, tp), ps.position[tp], Lookup(ps.deliveredNow, tp));
  }

  lemma NothingLeft(env: Env, start: map<Partition, int>, topics: seq<string>, ps: PollState, tp: Partition)
    requires LogsIncrease(env) && PollInv(env, start, topics, ps) && tp in start
    requires !CanDeliver(env, topics, ps, tp) && !ps.acc.full[IndexOf(topics, tp.topic)]
    ensures Length(Kept(ps, topics, tp)) == Available(env.log(tp), start[tp])
  {
    assert PollInvAt(env, start, topics, ps, tp);
    NextIsFirstUnkept(env.log(tp), start[tp], Kept(ps, topics, tp), ps.position[tp], Lookup(ps.deliveredNow, tp));
  }

  lemma TakenStep(env: Env, start: map<Partition, int>, topics: seq<string>, ps: PollState, poll: Poll, tp: Partition,
                  count: nat, ps': PollState)
    requires LogsIncrease(env) && PollInv(env, start, topics, ps) && tp in start
    requires ps' == PollStep(env, topics, ps, poll) && !ps'.acc.full[IndexOf(topics, tp.topic)]
    requires !ps.acc.full[IndexOf(topics, tp.topic)]
    requires Length(Kept(ps, topics, tp)) == Min(count, Available(env.log(tp), start[tp]))
    ensures Length(Kept(ps', topics, tp))
         == Min(if poll.Deliver? && poll.tp == tp then count + 1 else count, Available(env.log(tp), start[tp]))
  {
    PollStepDelivers(env, topics, ps, poll);
    if poll.Deliver? && CanDeliver(env, topics, ps, poll.tp) {
      var received := Received(ps, topics, poll.tp, NextRecord(env, ps, poll.tp));
      assert Kept(ps', topics, tp) == Kept(received, topics, tp);
      if poll.tp == tp {
        OwnDeliveryTaken(env, start, topics, ps, tp, count, received);
      } else {
        OtherEffect(topics, ps, poll.tp, NextRecord(env, ps, poll.tp), tp);
      }
    } else {
      assert Kept(ps', topics, tp) == Kept(ps, topics, tp);
      if poll.Deliver? && poll.tp == tp {
        NothingLeft(env, start, topics, ps, tp);
      }
    }
  }

  /** A full topic stays full. */
  lemma FullStays(env: Env, topics: seq<string>, ps: PollState, poll: Poll, i: nat)
    requires Fits(ps, topics) && i < |topics| && ps.acc.full[i]
    ensures PollStep(env, topics, ps, poll).acc.full[i]
  {
    PollStepDelivers(env, topics, ps, poll);
    if poll.Deliver? && CanDeliver(env, topics, ps, poll.tp) {
      var k, r := KeyOf(topics, poll.tp), NextRecord(env, ps, poll.tp);
      FailElsewhere(ps.acc, k.topic, A.Key(i, 0));
      if i != k.topic {
        FullElsewhere(topics, ps, poll.tp, r, i);
      }
    }
  }

  lemma {:induction false} EachTakesAllItCan(env: Env, start: map<Partition, int>, topics: seq<string>, ps: PollState,
                                             polls: seq<Poll>, tp: Partition)
    requires LogsIncrease(env) && PollInv(env, start, topics, ps) && tp in start && Kept(ps, topics, tp) == None
    requires !PollEach(env, topics, ps, polls).acc.full[IndexOf(topics, tp.topic)]
    ensures Length(Kept(PollEach(env, topics, ps, polls), topics, tp))
         == Min(Deliveries(polls, tp), Available(env.log(tp), start[tp]))
  {
    if polls != [] {
      var n := |polls| - 1;
      var before := PollEach(env, topics, ps, polls[..n]);
      if before.acc.full[IndexOf(topics, tp.topic)] {
        FullStays(env, topics, before, polls[n], IndexOf(topics, tp.topic));
      }
      EachTakesAllItCan(env, start, topics, ps, polls[..n], tp);
      EachKeepsInv(env, start, topics, ps, polls[..n]);
      TakenStep(env, start, topics, before, polls[n], tp, Deliveries(polls[..n], tp),
                PollEach(env, topics, ps, polls));
    }
  }

  // ---------------------------------------------------------------- what a pass hands out

  /** The poll loop of a pass: where it starts, and that its counters are right and it meets the invariant. */
  lemma LoopBegins(env: Env, s: Source, op: Op) returns (settled: Source, first: PollState)
    requires Inv(env, s) && Valid(op) && op.OpPass? && op.desired != []
    ensures settled == Settle(env, s, op.desired)
    ensures first == Begin(settled, op.topics, op.maxRecords, op.maxBytes)
    ensures Polled(env, s, op) == PollAll(env, op.topics, op.assignedTopics, first, op.polls)
    ensures PollInv(env, settled.position, op.topics, first) && A.Consistent(first.acc) && !first.failed
    ensures settled.position.Keys == (set tp | tp in op.desired) && Aligned(env, settled)
    ensures settled.cursors == s.cursors
    ensures FullAreActive(op.topics, first.position.Keys, first)
    ensures forall tp: Partition :: Kept(first, op.topics, tp) == None
  {
    settled := Settle(env, s, op.desired);
    SettleAligns(env, s, op.desired);
    BeginIsInv(env, settled, op.topics, op.maxRecords, op.maxBytes);
    A.EmptyIsConsistent(|op.topics|, op.maxRecords, op.maxBytes);
    first := Begin(settled, op.topics, op.maxRecords, op.maxBytes);
  }

  /** With as many topics assigned as the pass has partitions of, the loop goes on while one of them is not
      full: it then makes use of every poll. */
  lemma NotFullMeansAllPolled(env: Env, topics: seq<string>, assignedTopics: nat, ps: PollState, polls: seq<Poll>,
                              idx: nat)
    requires Fits(ps, topics) && A.Consistent(ps.acc) && FullAreActive(topics, ps.position.Keys, ps)
    requires |ActiveTopics(topics, ps.position.Keys)| <= assignedTopics && idx in ActiveTopics(topics, ps.position.Keys)
    requires var end := PollAll(env, topics, assignedTopics, ps, polls);
             idx < |topics| && !end.failed && !end.acc.full[idx]
    ensures PollAll(env, topics, assignedTopics, ps, polls) == PollEach(env, topics, ps, polls)
  {
    var n := PollsStopExactlyWhen(env, topics, assignedTopics, ps, polls);
    var end := PollEach(env, topics, ps, polls[..n]);
    StoppedExactlyWhenFull(env, topics, ps, polls[..n]);
    var active := ActiveTopics(topics, ps.position.Keys);
    CountFullBound(end.acc.full, active - {idx});
    assert |active| == |active - {idx}| + 1;
    assert GoesOn(end, assignedTopics);
    assert polls[..|polls|] == polls;
  }

  /** A pass that does not fail hands out, of each partition whose source is not full at its end, as many
      records as the partition was polled for, or all there are if that is fewer, from where its cursor stood.
      Of a source that is full it stops short only for its budget. */
  lemma PassTakesAllItCan(env: Env, s: Source, op: Op, tp: Partition)
    requires Inv(env, s) && Valid(op) && op.OpPass? && tp in op.desired
    requires |ActiveTopics(op.topics, set tp | tp in op.desired)| <= op.assignedTopics
    ensures var ps := Polled(env, s, op);
            !ps.failed && !ps.acc.full[IndexOf(op.topics, tp.topic)] ==>
              Length(Result(env, s, op, tp))
              == Min(Deliveries(op.polls, tp), Available(env.log(tp), NextOffset(env, s, tp)))
  {
    var settled, first := LoopBegins(env, s, op);
    var ps, idx := Polled(env, s, op), IndexOf(op.topics, tp.topic);
    if !ps.failed && !ps.acc.full[idx] {
      assert tp in settled.position && idx in ActiveTopics(op.topics, first.position.Keys);
      NotFullMeansAllPolled(env, op.topics, op.assignedTopics, first, op.polls, idx);
      EachTakesAllItCan(env, settled.position, op.topics, first, op.polls, tp);
    }
  }

  /** A pass uses its polls up to some number of them. It fails exactly when one of those does; and it leaves
      polls unused only if it fails or as many topics are full as are assigned. */
  lemma PassFailsExactlyWhen(env: Env, s: Source, op: Op) returns (n: nat)
    requires Inv(env, s) && Valid(op) && op.OpPass? && op.desired != []
    ensures n <= |op.polls| && (Polled(env, s, op).failed <==> PollError in op.polls[..n])
    ensures n < |op.polls| && !Polled(env, s, op).failed ==>
              0 < op.assignedTopics <= A.CountFull(Polled(env, s, op).acc.full)
  {
    var settled, first := LoopBegins(env, s, op);
    n := PollsStopExactlyWhen(env, op.topics, op.assignedTopics, first, op.polls);
    FailsExactlyWhenAPollDoes(env, settled.position, op.topics, first, op.polls[..n]);
  }

  /** A delivered record fails its own source exactly when it alone exceeds the byte budget, and no other. */
  lemma OversizedFailsItsSource(topics: seq<string>, ps: PollState, tp: Partition, r: Record, i: nat)
    requires Fits(ps, topics) && tp.topic in topics && i < |topics|
    ensures i in Received(ps, topics, tp, r).errors
       <==> || i in ps.errors
            || (topics[i] == tp.topic && i == IndexOf(topics, topics[i]) && |r.payload| > ps.acc.maxBytes)
  {
  }

  // ---------------------------------------------------------------- why a topic is full

  /** A record of the topic that would exceed the byte budget beside what is kept. */
  predicate TooBig(env: Env, topics: seq<string>, ps: PollState, idx: nat, tp: Partition, i: nat)
    requires Fits(ps, topics) && idx < |topics|
  {
    && tp.topic == topics[idx] && i < |env.log(tp)|
    && ps.acc.usage[idx].bytes + |env.log(tp)[i].payload| > ps.acc.maxBytes
  }

  ghost predicate Spent(env: Env, topics: seq<string>, ps: PollState, idx: nat)
    requires Fits(ps, topics) && idx < |topics|
  {
    || ps.acc.usage[idx].records >= ps.acc.maxRecords
    || ps.acc.usage[idx].bytes >= ps.acc.maxBytes
    || exists tp, i :: TooBig(env, topics, ps, idx, tp, i)
  }

  /** Every full topic has failed on its own or spent its budget. */
  ghost predicate FullAreSpent(env: Env, topics: seq<string>, ps: PollState)
    requires Fits(ps, topics)
  {
    forall i :: 0 <= i < |topics| && ps.acc.full[i] ==> i in ps.errors || Spent(env, topics, ps, i)
  }

  lemma SpentAlike(env: Env, topics: seq<string>, ps: PollState, ps': PollState, i: nat)
    requires Fits(ps, topics) && Fits(ps', topics) && i < |topics| && Spent(env, topics, ps, i)
    requires ps'.acc.usage[i] == ps.acc.usage[i]
    requires ps'.acc.maxRecords == ps.acc.maxRecords && ps'.acc.maxBytes == ps.acc.maxBytes
    ensures Spent(env, topics, ps', i)
  {
    if exists tp, k :: TooBig(env, topics, ps, i, tp, k) {
      var tp, k :| TooBig(env, topics, ps, i, tp, k);
      assert TooBig(env, topics, ps', i, tp, k);
    }
  }

  lemma DeliveryIsSpent(env: Env, topics: seq<string>, ps: PollState, tp: Partition, received: PollState)
    requires Fits(ps, topics) && FullAreSpent(env, topics, ps) && CanDeliver(env, topics, ps, tp)
    requires received == Received(ps, topics, tp, NextRecord(env, ps, tp))
    ensures var idx := IndexOf(topics, tp.topic);
            received.acc.full[idx] ==> idx in received.errors || Spent(env, topics, received, idx)
  {
    var idx, r := IndexOf(topics, tp.topic), NextRecord(env, ps, tp);
    if |r.payload| <= ps.acc.maxBytes && received.acc.full[idx] {
      if ps.acc.full[idx] {
        if idx !in ps.errors {
          SpentAlike(env, topics, ps, received, idx);
        }
      } else if !A.Keeps(ps.acc, KeyOf(topics, tp), r.payload) && ps.acc.usage[idx].records < ps.acc.maxRecords {
        assert TooBig(env, topics, received, idx, tp, At(env.log(tp), ps.position[tp]));
      }
    }
  }

  lemma StepKeepsSpent(env: Env, topics: seq<string>, ps: PollState, poll: Poll)
    requires Fits(ps, topics) && FullAreSpent(env, topics, ps)
    ensures FullAreSpent(env, topics, PollStep(env, topics, ps, poll))
  {
    var ps' := PollStep(env, topics, ps, poll);
    var received := ps;
    if poll.Deliver? && CanDeliver(env, topics, ps, poll.tp) {
      received := Received(ps, topics, poll.tp, NextRecord(env, ps, poll.tp));
      DeliveryIsSpent(env, topics, ps, poll.tp, received);
    }
    assert ps'.acc == received.acc && ps'.errors == received.errors && ps.errors <= received.errors;
    forall i | 0 <= i < |topics| && ps'.acc.full[i] ensures i in ps'.errors || Spent(env, topics, ps', i) {
      if received != ps && i != IndexOf(topics, poll.tp.topic) {
        FullElsewhere(topics, ps, poll.tp, NextRecord(env, ps, poll.tp), i);
        if i !in ps.errors {
          SpentAlike(env, topics, ps, received, i);
        }
      }
      if i !in ps'.errors {
        SpentAlike(env, topics, received, ps', i);
      }
    }
  }

  lemma {:induction false} EachKeepsSpent(env: Env, topics: seq<string>, ps: PollState, polls: seq<Poll>)
    requires Fits(ps, topics) && FullAreSpent(env, topics, ps)
    ensures FullAreSpent(env, topics, PollEach(env, topics, ps, polls))
  {
    if polls != [] {
      EachKeepsSpent(env, topics, ps, polls[..|polls| - 1]);
      StepKeepsSpent(env, topics, PollEach(env, topics, ps, polls[..|polls| - 1]), polls[|polls| - 1]);
    }
  }

  /** A source is full at the end of a pass only for a reason: a record of its own exceeded the whole byte
      budget, or the records it kept reach one of its budgets, or one it was offered would not have fitted
      beside them. */
  lemma FullOnlyForAReason(env: Env, s: Source, op: Op, idx: nat)
    requires Inv(env, s) && Valid(op) && op.OpPass? && op.desired != [] && idx < |op.topics|
    ensures var ps := Polled(env, s, op);
            && ps.acc.maxRecords == op.maxRecords && ps.acc.maxBytes == op.maxBytes
            && (ps.acc.full[idx] ==> idx in ps.errors || Spent(env, op.topics, ps, idx))
            && ps.acc.usage[idx] == A.Held(A.Of(ps.acc.parts, idx))
  {
    var settled, first := LoopBegins(env, s, op);
    var n := PollsStopExactlyWhen(env, op.topics, op.assignedTopics, first, op.polls);
    EachKeepsSpent(env, op.topics, first, op.polls[..n]);
    EachKeepsCounts(env, op.topics, first, op.polls[..n], op.maxRecords, op.maxBytes);
  }

  ghost predicate CountedWithin(ps: PollState, maxRecords: nat, maxBytes: nat) {
    A.Consistent(ps.acc) && ps.acc.maxRecords == maxRecords && ps.acc.maxBytes == maxBytes
  }

  lemma {:induction false} EachKeepsCounts(env: Env, topics: seq<string>, ps: PollState, polls: seq<Poll>,
                                           maxRecords: nat, maxBytes: nat)
    requires Fits(ps, topics) && CountedWithin(ps, maxRecords, maxBytes)
    ensures CountedWithin(PollEach(env, topics, ps, polls), maxRecords, maxBytes)
  {
    if polls != [] {
      var before := PollEach(env, topics, ps, polls[..|polls| - 1]);
      EachKeepsCounts(env, topics, ps, polls[..|polls| - 1], maxRecords, maxBytes);
      PollStepKeepsCounts(env, topics, before, polls[|polls| - 1]);
    }
  }

  // ---------------------------------------------------------------- the first record

  lemma StepKeepsKept(env: Env, topics: seq<string>, ps: PollState, poll: Poll, tp: Partition)
    requires Fits(ps, topics) && tp.topic in topics
    requires Kept(ps, topics, tp).Some? || IndexOf(topics, tp.topic) in ps.errors
    ensures var ps' := PollStep(env, topics, ps, poll);
            Kept(ps', topics, tp).Some? || IndexOf(topics, tp.topic) in ps'.errors
  {
    PollStepDelivers(env, topics, ps, poll);
    if poll.Deliver? && CanDeliver(env, topics, ps, poll.tp) {
      var k, j, r := KeyOf(topics, poll.tp), KeyOf(topics, tp), NextRecord(env, ps, poll.tp);
      FailElsewhere(ps.acc, k.topic, j);
      if k != j {
        PushElsewhere(ps.acc, k, r.offset, r.payload, j);
      }
    }
  }

  lemma {:induction false} EachKeepsKept(env: Env, topics: seq<string>, ps: PollState, polls: seq<Poll>, tp: Partition)
    requires Fits(ps, topics) && tp.topic in topics
    requires Kept(ps, topics, tp).Some? || IndexOf(topics, tp.topic) in ps.errors
    ensures var end := PollEach(env, topics, ps, polls);
            Kept(end, topics, tp).Some? || IndexOf(topics, tp.topic) in end.errors
  {
    if polls != [] {
      EachKeepsKept(env, topics, ps, polls[..|polls| - 1], tp);
      StepKeepsKept(env, topics, PollEach(env, topics, ps, polls[..|polls| - 1]), polls[|polls| - 1], tp);
    }
  }

  lemma FirstDeliveryIsKept(env: Env, topics: seq<string>, ps: PollState, tp: Partition, pauses: bool)
    requires Fits(ps, topics) && CanDeliver(env, topics, ps, tp) && !ps.acc.full[IndexOf(topics, tp.topic)]
    requires ps.acc.usage[IndexOf(topics, tp.topic)] == A.TopicUsage(0, 0)
    requires ps.acc.maxRecords > 0 && |NextRecord(env, ps, tp).payload| <= ps.acc.maxBytes
    ensures Kept(PollStep(env, topics, ps, Deliver(tp, pauses)), topics, tp).Some?
  {
    PollStepDelivers(env, topics, ps, Deliver(tp, pauses));
    OwnEffect(topics, ps, tp, NextRecord(env, ps, tp));
  }

  lemma LoopKeepsFirst(env: Env, topics: seq<string>, assignedTopics: nat, ps: PollState, polls: seq<Poll>,
                       tp: Partition)
    requires Fits(ps, topics) && A.Consistent(ps.acc) && tp.topic in topics && polls != []
    requires assignedTopics > 0 && GoesOn(ps, assignedTopics)
    requires Kept(PollStep(env, topics, ps, polls[0]), topics, tp).Some?
    ensures var end := PollAll(env, topics, assignedTopics, ps, polls);
            Kept(end, topics, tp).Some? || IndexOf(topics, tp.topic) in end.errors
  {
    var n := PollsStopExactlyWhen(env, topics, assignedTopics, ps, polls);
    assert polls[..0] == [] && n > 0;
    PollEachFirst(env, topics, ps, polls[..n]);
    EachKeepsKept(env, topics, PollStep(env, topics, ps, polls[0]), polls[..n][1..], tp);
  }

  /** The pass is polled first for a partition whose next record fits the byte budget. */
  ghost predicate PolledFirstFor(env: Env, s: Source, op: Op, tp: Partition) {
    && op.OpPass? && tp in op.desired && op.assignedTopics > 0 && op.maxRecords > 0
    && op.polls != [] && op.polls[0].Deliver? && op.polls[0].tp == tp
    && At(env.log(tp), NextOffset(env, s, tp)) < |env.log(tp)|
    && |env.log(tp)[At(env.log(tp), NextOffset(env, s, tp))].payload| <= op.maxBytes
  }

  lemma FirstRecordIsKept(env: Env, s: Source, op: Op, tp: Partition)
    requires Inv(env, s) && Valid(op) && PolledFirstFor(env, s, op, tp)
    ensures var ps := Polled(env, s, op);
            Kept(ps, op.topics, tp).Some? || IndexOf(op.topics, tp.topic) in ps.errors
  {
    var settled, first := LoopBegins(env, s, op);
    A.AllZero(first.acc.usage, first.acc.full);
    assert NextOffset(env, settled, tp) == NextOffset(env, s, tp);
    FirstDeliveryIsKept(env, op.topics, first, tp, op.polls[0].pauses);
    LoopKeepsFirst(env, op.topics, op.assignedTopics, first, op.polls, tp);
  }

  /** A pass whose first poll is for a partition that has a record at its next offset, no larger than the byte
      budget, hands that record out, with any sources assigned and any record budget at all, unless the pass or
      its own source fails later on. */
  lemma FirstRecordIsHandedOut(env: Env, s: Source, op: Op, tp: Partition)
    requires Inv(env, s) && Valid(op) && PolledFirstFor(env, s, op, tp)
    ensures var ps := Polled(env, s, op);
            !ps.failed && IndexOf(op.topics, tp.topic) !in ps.errors ==>
              var result := Result(env, s, op, tp);
              var first := env.log(tp)[At(env.log(tp), NextOffset(env, s, tp))];
              result.Some? && result.value.startOffset == first.offset && [first.payload] <= result.value.records
  {
    FirstRecordIsKept(env, s, op, tp);
    PassEffect(env, s, op, tp);
    var result := Result(env, s, op, tp);
    if result.Some? {
      FirstOfPayloads(env.log(tp), At(env.log(tp), NextOffset(env, s, tp)), |result.value.records|);
    }
  }

  lemma {:induction false} FirstOfPayloads(log: seq<Record>, lo: nat, n: nat)
    requires 0 < n && lo + n <= |log|
    ensures [log[lo].payload] <= Payloads(log, lo, lo + n)
  {
    if n > 1 {
      FirstOfPayloads(log, lo, n - 1);
    } else {
      assert Payloads(log, lo, lo) == [];
    }
  }

  // ---------------------------------------------------------------- when the assignment is kept

  /** Where a partition's cursor will stand: past what was kept of it, or where it was. */
  function Base(start: int, kept: Option<A.PartAcc>): int {
    if kept.Some? then kept.value.endOffset + 1 else start
  }

  lemma BaseIsPastStart(log: seq<Record>, start: int, kept: A.PartAcc)
    requires Increasing(log) && KeptIsLog(log, At(log, start), kept)
    ensures kept.endOffset + 1 > start
  {
    var lo, n := At(log, start), |kept.records|;
    assert n > 1 ==> log[lo].offset < log[lo + n - 1].offset;
  }

  /** The consumer is never behind the cursor. */
  ghost predicate AtOrPast(start: map<Partition, int>, topics: seq<string>, ps: PollState) {
    forall tp :: tp in start && tp in ps.position ==> ps.position[tp] >= Base(start[tp], Kept(ps, topics, tp))
  }

  /** It is ahead of it: something delivered was not kept, and the topic is closed. */
  predicate Overshot(start: map<Partition, int>, topics: seq<string>, ps: PollState, tp: Partition)
    requires Fits(ps, topics)
  {
    && tp in start && tp in ps.position && tp.topic in topics && ps.acc.full[IndexOf(topics, tp.topic)]
    && ps.position[tp] > Base(start[tp], Kept(ps, topics, tp))
  }

  ghost predicate OvershootInv(start: map<Partition, int>, topics: seq<string>, ps: PollState)
    requires Fits(ps, topics)
  {
    AtOrPast(start, topics, ps) && (ps.mustReassign ==> exists tp :: Overshot(start, topics, ps, tp))
  }

  /** What a delivery does to where the partition stands. */
  lemma DeliveredBase(env: Env, start: map<Partition, int>, topics: seq<string>, ps: PollState, tp: Partition,
                      ps': PollState)
    requires LogsIncrease(env) && PollInv(env, start, topics, ps) && tp in start && CanDeliver(env, topics, ps, tp)
    requires AtOrPast(start, topics, ps) && ps' == Received(ps, topics, tp, NextRecord(env, ps, tp))
    ensures tp in ps'.position && ps'.position[tp] >= Base(start[tp], Kept(ps', topics, tp))
    ensures Overshot(start, topics, ps, tp) ==> Overshot(start, topics, ps', tp)
    ensures ps'.mustReassign && !ps.mustReassign ==> Overshot(start, topics, ps', tp)
  {
    assert PollInvAt(env, start, topics, ps, tp);
    OwnEffect(topics, ps, tp, NextRecord(env, ps, tp));
    if Kept(ps, topics, tp).Some? {
      BaseIsPastStart(env.log(tp), start[tp], Kept(ps, topics, tp).value);
    }
  }

  lemma OtherBase(env: Env, start: map<Partition, int>, topics: seq<string>, ps: PollState, tp: Partition, r: Record,
                  other: Partition, ps': PollState)
    requires LogsIncrease(env) && PollInv(env, start, topics, ps) && tp in start && other in start && other != tp
    requires AtOrPast(start, topics, ps) && ps' == Received(ps, topics, tp, r)
    ensures other in ps'.position && ps'.position[other] >= Base(start[other], Kept(ps', topics, other))
    ensures Overshot(start, topics, ps, other) ==> Overshot(start, topics, ps', other)
  {
    assert PollInvAt(env, start, topics, ps, other);
    OtherEffect(topics, ps, tp, r, other);
    assert Lookup(ps'.position, other) == Some(ps.position[other]);
    if Kept(ps, topics, other).Some? {
      BaseIsPastStart(env.log(other), start[other], Kept(ps, topics, other).value);
    }
  }

  lemma DeliveryKeepsOvershoot(env: Env, start: map<Partition, int>, topics: seq<string>, ps: PollState, tp: Partition,
                               ps': PollState)
    requires LogsIncrease(env) && PollInv(env, start, topics, ps) && tp in start && CanDeliver(env, topics, ps, tp)
    requires OvershootInv(start, topics, ps) && ps' == Received(ps, topics, tp, NextRecord(env, ps, tp))
    ensures OvershootInv(start, topics, ps')
  {
    DeliveredBase(env, start, topics, ps, tp, ps');
    forall other | other in start && other in ps'.position
      ensures ps'.position[other] >= Base(start[other], Kept(ps', topics, other))
    {
      if other != tp {
        OtherBase(env, start, topics, ps, tp, NextRecord(env, ps, tp), other, ps');
      }
    }
    if ps.mustReassign {
      var other :| Overshot(start, topics, ps, other);
      if other != tp {
        OtherBase(env, start, topics, ps, tp, NextRecord(env, ps, tp), other, ps');
      }
      assert Overshot(start, topics, ps', other);
    }
  }

  lemma SameKeepsOvershoot(start: map<Partition, int>, topics: seq<string>, ps: PollState, ps': PollState)
    requires Fits(ps, topics) && Fits(ps', topics) && OvershootInv(start, topics, ps) && SameDeliveries(ps, ps')
    ensures OvershootInv(start, topics, ps')
  {
    forall tp | tp in start && tp in ps'.position
      ensures ps'.position[tp] >= Base(start[tp], Kept(ps', topics, tp))
    {
      assert Kept(ps', topics, tp) == Kept(ps, topics, tp);
    }
    if ps'.mustReassign {
      var tp :| Overshot(start, topics, ps, tp);
      assert Overshot(start, topics, ps', tp);
    }
  }

  lemma {:induction false} EachKeepsOvershoot(env: Env, start: map<Partition, int>, topics: seq<string>, ps: PollState,
                                              polls: seq<Poll>)
    requires LogsIncrease(env) && PollInv(env, start, topics, ps) && OvershootInv(start, topics, ps)
    ensures OvershootInv(start, topics, PollEach(env, topics, ps, polls))
  {
    if polls != [] {
      var n := |polls| - 1;
      EachKeepsOvershoot(env, start, topics, ps, polls[..n]);
      EachKeepsInv(env, start, topics, ps, polls[..n]);
      var before := PollEach(env, topics, ps, polls[..n]);
      PollStepDelivers(env, topics, before, polls[n]);
      if polls[n].Deliver? && CanDeliver(env, topics, before, polls[n].tp) {
        var tp := polls[n].tp;
        var received := Received(before, topics, tp, NextRecord(env, before, tp));
        DeliveryKeepsOvershoot(env, start, topics, before, tp, received);
        SameKeepsOvershoot(start, topics, received, PollEach(env, topics, ps, polls));
      } else {
        SameKeepsOvershoot(start, topics, before, PollEach(env, topics, ps, polls));
      }
    }
  }

  /** A loop asks for a fresh assignment exactly when it leaves the consumer elsewhere than the cursors. */
  lemma ReassignsExactlyWhenAhead(env: Env, start: map<Partition, int>, topics: seq<string>, ps: PollState)
    requires PollInv(env, start, topics, ps) && OvershootInv(start, topics, ps)
    ensures ps.mustReassign <==> exists tp :: tp in start && ps.position[tp] != Base(start[tp], Kept(ps, topics, tp))
  {
    if ps.mustReassign {
      var tp :| Overshot(start, topics, ps, tp);
    } else {
      forall tp | tp in start ensures ps.position[tp] == Base(start[tp], Kept(ps, topics, tp)) {
        assert PollInvAt(env, start, topics, ps, tp);
      }
    }
  }

  lemma {:induction false} NoneUsed(usage: seq<A.TopicUsage>)
    ensures A.TotalRecords(usage) == 0 <==> forall i :: 0 <= i < |usage| ==> usage[i].records == 0
  {
    if usage != [] {
      NoneUsed(usage[..|usage| - 1]);
    }
  }

  /** The accumulator has counted no record exactly when it holds none. */
  lemma NothingCountedExactlyWhen(acc: A.Acc)
    requires A.Consistent(acc) && forall k :: k in acc.parts ==> k.topic < |acc.usage| && acc.parts[k].records != []
    ensures acc.totalRecords == 0 <==> acc.parts == map[]
  {
    NoneUsed(acc.usage);
    if acc.parts != map[] {
      var k :| k in acc.parts;
      A.HeldSplits(A.Of(acc.parts, k.topic), k);
      assert acc.usage[k.topic] == A.Held(A.Of(acc.parts, k.topic));
    } else {
      forall i | 0 <= i < |acc.usage| ensures acc.usage[i].records == 0 {
        assert A.Of(acc.parts, i) == map[];
      }
    }
  }

  /** Nothing held is empty, or of a source the pass does not have. */
  ghost predicate PartsFilled(topics: seq<string>, acc: A.Acc) {
    forall k :: k in acc.parts ==> k.topic < |topics| && acc.parts[k].records != []
  }

  lemma StepKeepsFilled(env: Env, topics: seq<string>, ps: PollState, poll: Poll)
    requires Fits(ps, topics) && PartsFilled(topics, ps.acc)
    ensures PartsFilled(topics, PollStep(env, topics, ps, poll).acc)
  {
    PollStepDelivers(env, topics, ps, poll);
    if poll.Deliver? && CanDeliver(env, topics, ps, poll.tp) {
      var received := Received(ps, topics, poll.tp, NextRecord(env, ps, poll.tp));
      forall k | k in received.acc.parts ensures k.topic < |topics| && received.acc.parts[k].records != [] {
        assert k in ps.acc.parts || k == KeyOf(topics, poll.tp);
      }
    }
  }

  lemma {:induction false} EachKeepsFilled(env: Env, topics: seq<string>, ps: PollState, polls: seq<Poll>)
    requires Fits(ps, topics) && PartsFilled(topics, ps.acc)
    ensures PartsFilled(topics, PollEach(env, topics, ps, polls).acc)
  {
    if polls != [] {
      EachKeepsFilled(env, topics, ps, polls[..|polls| - 1]);
      StepKeepsFilled(env, topics, PollEach(env, topics, ps, polls[..|polls| - 1]), polls[|polls| - 1]);
    }
  }

  /** All that holds of a loop at its end. */
  lemma LoopEnds(env: Env, s: Source, op: Op) returns (settled: Source)
    requires Inv(env, s) && Valid(op) && op.OpPass? && op.desired != []
    ensures settled == Settle(env, s, op.desired) && Aligned(env, settled)
    ensures settled.position.Keys == settled.assignment == (set tp | tp in op.desired)
    ensures var ps := Polled(env, s, op);
            && PollInv(env, settled.position, op.topics, ps) && OvershootInv(settled.position, op.topics, ps)
            && A.Consistent(ps.acc) && PartsFilled(op.topics, ps.acc)
  {
    var first;
    settled, first := LoopBegins(env, s, op);
    SettleAligns(env, s, op.desired);
    var n := PollsStopExactlyWhen(env, op.topics, op.assignedTopics, first, op.polls);
    var polls := op.polls[..n];
    EachKeepsInv(env, settled.position, op.topics, first, polls);
    EachKeepsOvershoot(env, settled.position, op.topics, first, polls);
    EachKeepsCounts(env, op.topics, first, polls, op.maxRecords, op.maxBytes);
    EachKeepsFilled(env, op.topics, first, polls);
  }

  lemma CursorAfter(env: Env, s: Source, topics: seq<string>, ps: PollState, tp: Partition)
    requires PollInv(env, s.position, topics, ps) && !ps.failed && tp in s.position
    requires s.position[tp] == NextOffset(env, s, tp)
    ensures NextOffset(env, Finish(s, topics, ps), tp) == Base(s.position[tp], Kept(ps, topics, tp))
  {
    FinishEffect(s, topics, ps, tp);
  }

  /** A pass that does not fail keeps its assignment, and the fetchers with it, exactly when it leaves the
      consumer where the cursors want it, and did not come away with nothing while partitions at the stored
      offset are still pending. Any other pass leaves no assignment. */
  lemma AssignmentIsKeptExactlyWhen(env: Env, s: Source, op: Op)
    requires Inv(env, s) && Valid(op) && op.OpPass? && op.desired != [] && !Polled(env, s, op).failed
    ensures var after := Apply(env, s, op);
            && (after.assignment == (set tp | tp in op.desired)
                <==> Aligned(env, after) && (Polled(env, s, op).acc.parts != map[] || after.storedPending == {}))
            && (after.assignment == (set tp | tp in op.desired) || after.assignment == {})
  {
    var settled := LoopEnds(env, s, op);
    var ps, after := Polled(env, s, op), Apply(env, s, op);
    assert after == Finish(settled, op.topics, ps) && op.desired[0] in settled.assignment;
    NothingCountedExactlyWhen(ps.acc);
    ReassignsExactlyWhenAhead(env, settled.position, op.topics, ps);
    forall tp | tp in settled.position
      ensures NextOffset(env, after, tp) == Base(settled.position[tp], Kept(ps, op.topics, tp))
    {
      CursorAfter(env, settled, op.topics, ps, tp);
    }
    assert Aligned(env, after) <==> !ps.mustReassign;
  }

  /** A fresh assignment has pending exactly the partitions nothing was read of or committed. */
  lemma FreshAssignmentPends(env: Env, s: Source, desired: seq<Partition>, tp: Partition)
    requires s.assignment != (set t | t in desired)
    ensures var r := Settle(env, s, desired);
            tp in r.storedPending <==> tp in desired && CursorOf(s, tp) == UNREAD
    ensures Settle(env, s, desired).paused == {}
  {
  }

  /** A retained one is left as it stands: what is pending stays pending, and no cursor moves. */
  lemma RetainedAssignmentStands(env: Env, s: Source, desired: seq<Partition>)
    requires s.assignment == (set t | t in desired)
    ensures var r := Settle(env, s, desired);
            r.assignment == s.assignment && r.storedPending == s.storedPending && r.cursors == s.cursors
  {
    SeekAllKeeps(Resumed(s), desired);
  }

  lemma {:induction false} SeekAllKeeps(s: Source, desired: seq<Partition>)
    ensures var r := SeekAll(s, desired); r == s.(position := r.position, delivered := r.delivered)
    decreases |desired|
  {
    if desired != [] {
      SeekAllKeeps(Seek(s, desired[0]), desired[1..]);
    }
  }

  // ---------------------------------------------------------------- the topics a pass counts as assigned

  function Contributing(metadata: seq<Option<seq<int>>>): set<nat> {
    set i | 0 <= i < |metadata| && metadata[i].Some? && metadata[i].value != []
  }

  /** The metadata phase counts as assigned exactly the sources that contribute a partition. */
  lemma {:induction false} AssignedAreCounted(topics: seq<string>, metadata: seq<Option<seq<int>>>)
    requires |topics| == |metadata|
    ensures Resolve(topics, metadata).assignedTopics == |Contributing(metadata)|
  {
    if topics != [] {
      var n := |topics| - 1;
      AssignedAreCounted(topics[..n], metadata[..n]);
      var before := Contributing(metadata[..n]);
      if metadata[n].Some? && metadata[n].value != [] {
        assert Contributing(metadata) == before + {n};
      } else {
        assert Contributing(metadata) == before;
      }
    }
  }

  ghost predicate DistinctTopics(topics: seq<string>) {
    forall i, j :: 0 <= i < j < |topics| ==> topics[i] != topics[j]
  }

  /** For distinct sources that is as many as the pass has partitions of, which is what `PassTakesAllItCan`
      asks: no pass stops early while a source it can read is not full. */
  lemma AssignedAreActive(topics: seq<string>, metadata: seq<Option<seq<int>>>)
    requires |topics| == |metadata| && DistinctTopics(topics)
    ensures var r := Resolve(topics, metadata);
            |ActiveTopics(topics, set tp | tp in r.desired)| == r.assignedTopics
  {
    var r := Resolve(topics, metadata);
    var active := ActiveTopics(topics, set tp | tp in r.desired);
    forall i: nat ensures i in active <==> i in Contributing(metadata) {
      if i in active {
        var tp :| tp in r.desired && tp.topic in topics && IndexOf(topics, tp.topic) == i;
        ResolveIsolatesFailures(topics, metadata, tp, 0);
        var j :| 0 <= j < |topics| && topics[j] == tp.topic && metadata[j].Some? && tp.id in metadata[j].value;
        assert i == j;
      }
      if i in Contributing(metadata) {
        var tp := Partition(topics[i], metadata[i].value[0]);
        assert Answered(topics, metadata, tp);
        ResolveIsolatesFailures(topics, metadata, tp, 0);
        assert tp in r.desired && IndexOf(topics, tp.topic) == i;
      }
    }
    assert active == Contributing(metadata);
    AssignedAreCounted(topics, metadata);
  }
}
