/**
  The group-commit coordinator of `group_commit.rs`: producers join a bounded
  queue, the first becomes the flush leader, seals groups off the queue, runs one
  shared barrier per group and publishes one frame per member.

  Each producer is a thread; the steps are the sections the source runs under its
  mutex, plus the flush and each slot publication. When a group seals is left open:
  the leader may seal at any moment, whatever the delay and thresholds say.
 */
module GroupCommit {
  import opened Options

  /** One `enqueue_and_wait` call; `id` names the call. */
  datatype Request = Request(id: nat, records: nat, bytes: nat)
  type Frame = int

  datatype Config = Config(maxRecords: nat, maxBytes: nat, maxPending: nat)

  predicate ValidConfig(cfg: Config) {
    cfg.maxRecords > 0 && cfg.maxBytes > 0 && cfg.maxPending > 0
  }

  // ---------------------------------------------------------------- sealing a group

  function Records(rs: seq<Request>): nat {
    if rs == [] then 0 else Records(rs[..|rs| - 1]) + rs[|rs| - 1].records
  }

  function Bytes(rs: seq<Request>): nat {
    if rs == [] then 0 else Bytes(rs[..|rs| - 1]) + rs[|rs| - 1].bytes
  }

  /** How many requests leave the queue, `n` of them with these totals having left already. */
  function TakeFrom(cfg: Config, pending: seq<Request>, n: nat, records: nat, bytes: nat): (k: nat)
    requires n <= |pending|
    ensures n <= k <= |pending|
    decreases |pending| - n
  {
    if n == |pending| then n
    else
      var nextRecords, nextBytes := records + pending[n].records, bytes + pending[n].bytes;
      if n > 0 && (nextRecords > cfg.maxRecords || nextBytes > cfg.maxBytes) then n
      else if nextRecords >= cfg.maxRecords || nextBytes >= cfg.maxBytes then n + 1
      else TakeFrom(cfg, pending, n + 1, nextRecords, nextBytes)
  }

  function GroupSize(cfg: Config, pending: seq<Request>): (k: nat)
    ensures k <= |pending|
  {
    TakeFrom(cfg, pending, 0, 0, 0)
  }

  /** A group: one request alone, or several within both limits. */
  ghost predicate GoodGroup(cfg: Config, members: seq<Request>) {
    members != [] && (|members| == 1 || (Records(members) <= cfg.maxRecords && Bytes(members) <= cfg.maxBytes))
  }

  /** Why a group holds no more: the queue ran out, a limit was reached, or the
      next request would exceed one. */
  ghost predicate SealedFor(cfg: Config, pending: seq<Request>, k: nat)
    requires k <= |pending|
  {
    || k == |pending|
    || Records(pending[..k]) >= cfg.maxRecords || Bytes(pending[..k]) >= cfg.maxBytes
    || Records(pending[..k]) + pending[k].records > cfg.maxRecords
    || Bytes(pending[..k]) + pending[k].bytes > cfg.maxBytes
  }

  /** No shorter group would have reached a limit. */
  ghost predicate NoneReached(cfg: Config, pending: seq<Request>, k: nat)
    requires k <= |pending|
  {
    forall j :: 0 < j < k ==> Records(pending[..j]) < cfg.maxRecords && Bytes(pending[..j]) < cfg.maxBytes
  }

  lemma TotalsStep(pending: seq<Request>, n: nat)
    requires n < |pending|
    ensures Records(pending[..n + 1]) == Records(pending[..n]) + pending[n].records
    ensures Bytes(pending[..n + 1]) == Bytes(pending[..n]) + pending[n].bytes
  {
    assert pending[..n + 1][..n] == pending[..n];
  }

  lemma {:induction false} TakeFromFacts(cfg: Config, pending: seq<Request>, n: nat)
    requires n <= |pending|
    requires n > 0 ==> Records(pending[..n]) < cfg.maxRecords && Bytes(pending[..n]) < cfg.maxBytes
    requires NoneReached(cfg, pending, n)
    ensures var k := TakeFrom(cfg, pending, n, Records(pending[..n]), Bytes(pending[..n]));
            && (0 < |pending| ==> 0 < k)
            && (k > 0 ==> GoodGroup(cfg, pending[..k]))
            && SealedFor(cfg, pending, k)
            && NoneReached(cfg, pending, k)
    decreases |pending| - n
  {
    if n < |pending| {
      TotalsStep(pending, n);
      var records, bytes := Records(pending[..n + 1]), Bytes(pending[..n + 1]);
      if !(n > 0 && (records > cfg.maxRecords || bytes > cfg.maxBytes))
         && !(records >= cfg.maxRecords || bytes >= cfg.maxBytes) {
        TakeFromFacts(cfg, pending, n + 1);
      }
    }
  }

  /** A sealed group is non-empty, good, stops only for a stated reason, and at the first limit reached. */
  lemma GroupIsGood(cfg: Config, pending: seq<Request>)
    ensures pending != [] ==> 0 < GroupSize(cfg, pending) && GoodGroup(cfg, pending[..GroupSize(cfg, pending)])
    ensures SealedFor(cfg, pending, GroupSize(cfg, pending)) && NoneReached(cfg, pending, GroupSize(cfg, pending))
  {
    assert pending[..0] == [];
    TakeFromFacts(cfg, pending, 0);
  }

  // ---------------------------------------------------------------- the shared state and the counters

  datatype Outcome = Refused | Leads | Follows

  datatype Queue = Queue(pending: seq<Request>, flushing: bool)

  function Join(cfg: Config, q: Queue, r: Request): (Queue, Outcome) {
    if |q.pending| >= cfg.maxPending then (q, Refused)
    else
      var lead := !q.flushing && q.pending == [];
      (Queue(q.pending + [r], q.flushing || lead), if lead then Leads else Follows)
  }

  /** Why a group was sealed. */
  datatype FlushReason = MaxDelay | MaxRecords | MaxBytes | MaxPending | SingleRequest

  /** The two durations of a group, in nanoseconds: its flush, and its longest wait in the queue; and why it
      was sealed. */
  datatype Times = Times(sync: nat, wait: nat, why: Option<FlushReason>)

  datatype Sample = Sample(requests: nat, records: nat, bytes: nat, times: Times)

  function SampleOf(members: seq<Request>, times: Times): Sample {
    Sample(|members|, Records(members), Bytes(members), times)
  }

  datatype Metrics = Metrics(commits: nat, requests: nat, records: nat, bytes: nat, sync: nat, wait: nat, last: Sample)

  const NO_METRICS: Metrics := Metrics(0, 0, 0, 0, 0, 0, Sample(0, 0, 0, Times(0, 0, None)))

  function Record(m: Metrics, sample: Sample): Metrics {
    Metrics(m.commits + 1, m.requests + sample.requests, m.records + sample.records, m.bytes + sample.bytes,
            m.sync + sample.times.sync, m.wait + sample.times.wait, sample)
  }

  class Coordinator {
    const cfg: Config
    var pending: seq<Request>
    var flushing: bool
    var metrics: Metrics

    ghost function View(): Queue
      reads this
    {
      Queue(pending, flushing)
    }

    constructor (cfg: Config)
      requires ValidConfig(cfg)
      ensures this.cfg == cfg && View() == Queue([], false) && metrics == NO_METRICS
    {
      this.cfg := cfg;
      pending, flushing, metrics := [], false, NO_METRICS;
    }

    /** The locked section of `enqueue_and_wait`. */
    method Enqueue(r: Request) returns (outcome: Outcome)
      modifies this`pending, this`flushing
      ensures (View(), outcome) == Join(cfg, old(View()), r)
    {
      if |pending| >= cfg.maxPending {
        return Refused;
      }
      var lead := !flushing && pending == [];
      if lead {
        flushing := true;
      }
      pending := pending + [r];
      outcome := if lead then Leads else Follows;
    }

    /** The taking loop of `collect_group`, once it is decided to seal, and why. */
    method CollectGroup(sealed: FlushReason) returns (members: seq<Request>, why: FlushReason)
      modifies this`pending
      ensures var k := GroupSize(cfg, old(pending));
              members == old(pending)[..k] && pending == old(pending)[k..]
      ensures why == if |members| > 1 && sealed == SingleRequest then MaxDelay else sealed
    {
      members := [];
      var takenRecords: nat, takenBytes: nat := 0, 0;
      while pending != []
        invariant |members| <= |old(pending)|
        invariant members == old(pending)[..|members|] && pending == old(pending)[|members|..]
        invariant GroupSize(cfg, old(pending)) == TakeFrom(cfg, old(pending), |members|, takenRecords, takenBytes)
        decreases |pending|
      {
        var front := pending[0];
        var nextRecords := takenRecords + front.records;
        var nextBytes := takenBytes + front.bytes;
        if members != [] && (nextRecords > cfg.maxRecords || nextBytes > cfg.maxBytes) {
          break;
        }
        pending := pending[1..];
        takenRecords := takenRecords + front.records;
        takenBytes := takenBytes + front.bytes;
        members := members + [front];
        if takenRecords >= cfg.maxRecords || takenBytes >= cfg.maxBytes {
          break;
        }
      }
      why := if sealed == SingleRequest && |members| > 1 then MaxDelay else sealed;
    }

    /** After a group is published: resign when nobody waits, else lead on. */
    method EndRound() returns (resigned: bool)
      modifies this`flushing
      ensures resigned <==> pending == []
      ensures flushing == (old(flushing) && !resigned)
    {
      resigned := pending == [];
      if resigned {
        flushing := false;
      }
    }

    method RecordGroup(sample: Sample)
      modifies this`metrics
      ensures metrics == Record(old(metrics), sample)
    {
      metrics := metrics.(commits := metrics.commits + 1);
      metrics := metrics.(requests := metrics.requests + sample.requests);
      metrics := metrics.(records := metrics.records + sample.records);
      metrics := metrics.(bytes := metrics.bytes + sample.bytes);
      metrics := metrics.(sync := metrics.sync + sample.times.sync);
      metrics := metrics.(wait := metrics.wait + sample.times.wait);
      metrics := metrics.(last := sample);
    }
  }

  // ---------------------------------------------------------------- the protocol

  datatype Pc =
    | Waiting
    | Collecting
    | Flushing(members: seq<Request>)
    | Publishing(members: seq<Request>, frames: seq<Frame>, next: nat)
    | Received(frame: Frame)
    | Overloaded

  predicate Leading(pc: Pc) {
    pc.Collecting? || pc.Flushing? || pc.Publishing?
  }

  datatype Group = Group(members: seq<Request>, frames: seq<Frame>, times: Times)

  /** `slots` holds the published frames nobody has taken; `accepted` and
      `groups` are the history of arrivals and flushes. */
  datatype State = State(
    queue: Queue,
    threads: map<nat, Pc>,
    slots: map<nat, Frame>,
    metrics: Metrics,
    accepted: seq<Request>,
    groups: seq<Group>)

  const START: State := State(Queue([], false), map[], map[], NO_METRICS, [], [])

  datatype Event =
    | Enqueue(r: Request)
    | Seal(leader: nat)
    | Flush(leader: nat, frames: seq<Frame>, times: Times)
    | Publish(leader: nat)
    | EndRound(leader: nat)
    | Receive(id: nat)

  predicate At(s: State, id: nat, e: Event) {
    id in s.threads &&
    match e
    case Seal(_) => s.threads[id].Collecting?
    case Flush(_, frames, _) => s.threads[id].Flushing? && |frames| == |s.threads[id].members|
    case Publish(_) => s.threads[id].Publishing?
        && s.threads[id].next < |s.threads[id].members| == |s.threads[id].frames|
    case EndRound(_) => s.threads[id].Publishing? && s.threads[id].next == |s.threads[id].members|
    case Receive(_) => s.threads[id].Waiting? && id in s.slots
    case Enqueue(_) => false
  }

  predicate Enabled(s: State, e: Event) {
    match e
    case Enqueue(r) => r.id !in s.threads
    case Receive(id) => At(s, id, e)
    case _ => At(s, e.leader, e)
  }

  function Step(cfg: Config, s: State, e: Event): State
    requires Enabled(s, e)
  {
    match e
    case Enqueue(r) =>
      var (queue, outcome) := Join(cfg, s.queue, r);
      s.(queue := queue,
         threads := s.threads[r.id := PcAfter(outcome)],
         accepted := if outcome.Refused? then s.accepted else s.accepted + [r])
    case Seal(leader) =>
      var k := GroupSize(cfg, s.queue.pending);
      if k == 0 then s.(queue := s.queue.(flushing := false), threads := s.threads[leader := Waiting])
      else s.(queue := s.queue.(pending := s.queue.pending[k..]),
              threads := s.threads[leader := Flushing(s.queue.pending[..k])])
    case Flush(leader, frames, times) =>
      var members := s.threads[leader].members;
      s.(threads := s.threads[leader := Publishing(members, frames, 0)],
         metrics := Record(s.metrics, SampleOf(members, times)),
         groups := s.groups + [Group(members, frames, times)])
    case Publish(leader) =>
      var pc := s.threads[leader];
      s.(slots := s.slots[pc.members[pc.next].id := pc.frames[pc.next]],
         threads := s.threads[leader := pc.(next := pc.next + 1)])
    case EndRound(leader) =>
      if s.queue.pending == []
      then s.(queue := s.queue.(flushing := false), threads := s.threads[leader := Waiting])
      else s.(threads := s.threads[leader := Collecting])
    case Receive(id) =>
      s.(threads := s.threads[id := Received(s.slots[id])], slots := s.slots - {id})
  }

  function PcAfter(outcome: Outcome): Pc {
    match outcome
    case Refused => Overloaded
    case Leads => Collecting
    case Follows => Waiting
  }

  ghost predicate Run(cfg: Config, s: State, es: seq<Event>)
    decreases |es|
  {
    es == [] || (Enabled(s, es[0]) && Run(cfg, Step(cfg, s, es[0]), es[1..]))
  }

  ghost function After(cfg: Config, s: State, es: seq<Event>): State
    requires Run(cfg, s, es)
    decreases |es|
  {
    if es == [] then s else After(cfg, Step(cfg, s, es[0]), es[1..])
  }

  // ---------------------------------------------------------------- flushed history

  function Flushed(groups: seq<Group>): seq<Request> {
    if groups == [] then [] else Flushed(groups[..|groups| - 1]) + groups[|groups| - 1].members
  }

  function Answers(groups: seq<Group>): seq<Frame> {
    if groups == [] then [] else Answers(groups[..|groups| - 1]) + groups[|groups| - 1].frames
  }

  function MetricsOf(groups: seq<Group>): Metrics {
    if groups == [] then NO_METRICS
    else
      var g := groups[|groups| - 1];
      Record(MetricsOf(groups[..|groups| - 1]), SampleOf(g.members, g.times))
  }

  // ---------------------------------------------------------------- the invariant

  /** The requests a leader has taken off the queue and not flushed yet. */
  function InFlight(pc: Pc): seq<Request> {
    if pc.Flushing? then pc.members else []
  }

  /** How many flushed requests are still to be published. */
  function Unpublished(pc: Pc): int {
    if pc.Publishing? then |pc.members| - pc.next else 0
  }

  /** The number of requests whose frames are published. */
  function Published(groups: seq<Group>, pc: Pc): int {
    |Flushed(groups)| - Unpublished(pc)
  }

  ghost predicate OnlyLeader(threads: map<nat, Pc>, leader: Option<nat>) {
    forall id :: id in threads && Leading(threads[id]) ==> leader == Some(id)
  }

  /** One thread leads while the coordinator is flushing, and no thread otherwise. */
  ghost predicate LeaderIs(threads: map<nat, Pc>, flushing: bool, leader: Option<nat>) {
    && flushing == leader.Some?
    && (leader.Some? ==> leader.value in threads && Leading(threads[leader.value]))
    && OnlyLeader(threads, leader)
  }

  function PcOf(threads: map<nat, Pc>, leader: Option<nat>): Pc {
    if leader.Some? && leader.value in threads then threads[leader.value] else Waiting
  }

  ghost predicate GoodGroups(cfg: Config, groups: seq<Group>) {
    forall i :: 0 <= i < |groups| ==> |groups[i].frames| == |groups[i].members| && GoodGroup(cfg, groups[i].members)
  }

  /** What the leader holds: a good group to flush, or the last group's frames. */
  ghost predicate LeaderHolds(cfg: Config, groups: seq<Group>, pc: Pc) {
    && (pc.Flushing? ==> GoodGroup(cfg, pc.members))
    && (pc.Publishing? ==>
          && pc.next <= |pc.members| && groups != []
          && groups[|groups| - 1].members == pc.members && groups[|groups| - 1].frames == pc.frames)
  }

  ghost predicate QueueInv(cfg: Config, q: Queue, pc: Pc) {
    && |q.pending| <= cfg.maxPending
    && (!q.flushing ==> q.pending == [])
    && (pc.Collecting? ==> q.pending != [])
  }

  ghost predicate HistoryInv(cfg: Config, s: State, pc: Pc) {
    && s.accepted == Flushed(s.groups) + InFlight(pc) + s.queue.pending
    && s.metrics == MetricsOf(s.groups)
    && GoodGroups(cfg, s.groups)
    && LeaderHolds(cfg, s.groups, pc)
  }

  ghost predicate Distinct(rs: seq<Request>) {
    forall i, j :: 0 <= i < j < |rs| ==> rs[i].id != rs[j].id
  }

  ghost predicate Holds(rs: seq<Request>, id: nat) {
    exists i :: 0 <= i < |rs| && rs[i].id == id
  }

  /** Every thread is an accepted request or was refused, never both. */
  ghost predicate Census(accepted: seq<Request>, threads: map<nat, Pc>) {
    forall id :: id in threads ==> (threads[id].Overloaded? <==> !Holds(accepted, id))
  }

  /** The frame due at position `i` of the accepted requests, once published. */
  function Due(groups: seq<Group>, published: int, i: nat): Option<Frame> {
    if i < published && i < |Answers(groups)| then Some(Answers(groups)[i]) else None
  }

  /** A thread whose frame is due has it, or finds exactly it in its slot; any other has nothing. */
  ghost predicate Settled(threads: map<nat, Pc>, slots: map<nat, Frame>, id: nat, due: Option<Frame>) {
    && id in threads && !threads[id].Overloaded?
    && match due
       case None => id !in slots && !threads[id].Received?
       case Some(frame) =>
         if id in slots then slots[id] == frame && !threads[id].Received? else threads[id] == Received(frame)
  }

  ghost predicate AllSettled(s: State, published: int) {
    forall i :: 0 <= i < |s.accepted| ==> Settled(s.threads, s.slots, s.accepted[i].id, Due(s.groups, published, i))
  }

  ghost predicate ThreadsInv(s: State, pc: Pc) {
    && Distinct(s.accepted)
    && Census(s.accepted, s.threads)
    && s.slots.Keys <= s.threads.Keys
    && AllSettled(s, Published(s.groups, pc))
  }

  ghost predicate InvFor(cfg: Config, s: State, leader: Option<nat>) {
    && LeaderIs(s.threads, s.queue.flushing, leader)
    && QueueInv(cfg, s.queue, PcOf(s.threads, leader))
    && HistoryInv(cfg, s, PcOf(s.threads, leader))
    && ThreadsInv(s, PcOf(s.threads, leader))
  }

  ghost predicate Inv(cfg: Config, s: State) {
    exists leader: Option<nat> :: InvFor(cfg, s, leader)
  }

  // ---------------------------------------------------------------- each step keeps the invariant

  lemma {:induction false} AsManyAnswers(cfg: Config, groups: seq<Group>)
    requires GoodGroups(cfg, groups)
    ensures |Flushed(groups)| == |Answers(groups)|
  {
    if groups != [] {
      AsManyAnswers(cfg, groups[..|groups| - 1]);
    }
  }

  lemma FlushedSnoc(groups: seq<Group>, g: Group)
    ensures Flushed(groups + [g]) == Flushed(groups) + g.members
    ensures Answers(groups + [g]) == Answers(groups) + g.frames
    ensures MetricsOf(groups + [g]) == Record(MetricsOf(groups), SampleOf(g.members, g.times))
  {
    assert (groups + [g])[..|groups|] == groups;
  }

  /** Neither finished nor refused: a thread the leader's own steps move among. */
  predicate Busy(pc: Pc) {
    !pc.Received? && !pc.Overloaded?
  }

  /** A busy thread moving to another busy place changes who leads, nothing else. */
  lemma MoveKeepsThreads(s: State, t: State, id: nat, pc: Pc, published: int, published': int)
    requires id in s.threads && Busy(s.threads[id]) && Busy(pc) && t.threads == s.threads[id := pc]
    requires t.accepted == s.accepted && t.slots == s.slots
    requires Census(s.accepted, s.threads) && AllSettled(s, published)
    requires forall i :: 0 <= i < |s.accepted| ==> Due(t.groups, published', i) == Due(s.groups, published, i)
    ensures Census(t.accepted, t.threads) && AllSettled(t, published')
  {
    forall i | 0 <= i < |t.accepted|
      ensures Settled(t.threads, t.slots, t.accepted[i].id, Due(t.groups, published', i))
    {
      assert Settled(s.threads, s.slots, s.accepted[i].id, Due(s.groups, published, i));
    }
  }

  lemma MoveKeepsLeader(threads: map<nat, Pc>, id: nat, pc: Pc, leader: Option<nat>)
    requires LeaderIs(threads, true, leader) && id in threads && Leading(threads[id])
    ensures leader == Some(id)
    ensures Leading(pc) ==> LeaderIs(threads[id := pc], true, leader)
    ensures !Leading(pc) ==> LeaderIs(threads[id := pc], false, None)
  {
  }

  lemma LeaderFlushes(cfg: Config, s: State, id: nat, leader: Option<nat>)
    requires InvFor(cfg, s, leader) && id in s.threads && Leading(s.threads[id])
    ensures s.queue.flushing && leader == Some(id) && PcOf(s.threads, leader) == s.threads[id]
  {
  }

  lemma SplitKeepsOrder(done: seq<Request>, q: seq<Request>, k: nat)
    requires k <= |q|
    ensures done + [] + q == done + q[..k] + q[k..]
  {
  }

  lemma SealKeepsInv(cfg: Config, s: State, id: nat, leader: Option<nat>)
    requires InvFor(cfg, s, leader) && Enabled(s, Seal(id))
    ensures InvFor(cfg, Step(cfg, s, Seal(id)), leader)
  {
    LeaderFlushes(cfg, s, id, leader);
    GroupIsGood(cfg, s.queue.pending);
    var s' := Step(cfg, s, Seal(id));
    var pc := s'.threads[id];
    MoveKeepsLeader(s.threads, id, pc, leader);
    SplitKeepsOrder(Flushed(s.groups), s.queue.pending, GroupSize(cfg, s.queue.pending));
    MoveKeepsThreads(s, s', id, pc, Published(s.groups, Collecting), Published(s'.groups, pc));
  }

  lemma FlushKeepsHistory(cfg: Config, s: State, s': State, members: seq<Request>, frames: seq<Frame>, times: Times)
    requires HistoryInv(cfg, s, Flushing(members)) && |frames| == |members|
    requires s'.accepted == s.accepted && s'.queue == s.queue
    requires s'.metrics == Record(s.metrics, SampleOf(members, times))
    requires s'.groups == s.groups + [Group(members, frames, times)]
    ensures HistoryInv(cfg, s', Publishing(members, frames, 0))
  {
    FlushedSnoc(s.groups, Group(members, frames, times));
    assert Flushed(s'.groups) + [] == Flushed(s.groups) + members;
  }

  /** Flushing a group makes none of its frames due yet, and leaves the due ones alone. */
  lemma FlushKeepsDue(cfg: Config, groups: seq<Group>, g: Group)
    requires GoodGroups(cfg, groups)
    ensures Published(groups + [g], Publishing(g.members, g.frames, 0)) == |Flushed(groups)|
    ensures forall i: nat :: Due(groups + [g], |Flushed(groups)|, i) == Due(groups, |Flushed(groups)|, i)
  {
    FlushedSnoc(groups, g);
    AsManyAnswers(cfg, groups);
  }

  lemma FlushKeepsInv(cfg: Config, s: State, id: nat, frames: seq<Frame>, times: Times, leader: Option<nat>)
    requires InvFor(cfg, s, leader) && Enabled(s, Flush(id, frames, times))
    ensures InvFor(cfg, Step(cfg, s, Flush(id, frames, times)), leader)
  {
    LeaderFlushes(cfg, s, id, leader);
    var members := s.threads[id].members;
    var s' := Step(cfg, s, Flush(id, frames, times));
    var pc := Publishing(members, frames, 0);
    MoveKeepsLeader(s.threads, id, pc, leader);
    FlushKeepsHistory(cfg, s, s', members, frames, times);
    FlushKeepsDue(cfg, s.groups, Group(members, frames, times));
    MoveKeepsThreads(s, s', id, pc, |Flushed(s.groups)|, |Flushed(s.groups)|);
  }

  lemma EndRoundKeepsInv(cfg: Config, s: State, id: nat, leader: Option<nat>)
    requires InvFor(cfg, s, leader) && Enabled(s, EndRound(id))
    ensures InvFor(cfg, Step(cfg, s, EndRound(id)), if s.queue.pending == [] then None else leader)
  {
    LeaderFlushes(cfg, s, id, leader);
    var s' := Step(cfg, s, EndRound(id));
    var pc := if s.queue.pending == [] then Waiting else Collecting;
    MoveKeepsLeader(s.threads, id, pc, leader);
    MoveKeepsThreads(s, s', id, pc, Published(s.groups, s.threads[id]), Published(s'.groups, pc));
  }

  /** The slot about to be published belongs to the first request still due. */
  lemma NextToPublish(cfg: Config, s: State, pc: Pc)
    requires HistoryInv(cfg, s, pc) && pc.Publishing? && pc.next < |pc.members|
    ensures |pc.frames| == |pc.members|
    ensures var p := Published(s.groups, pc);
            && 0 <= p < |s.accepted| && s.accepted[p] == pc.members[pc.next]
            && p < |Answers(s.groups)| && Answers(s.groups)[p] == pc.frames[pc.next]
  {
    var n := |s.groups| - 1;
    assert s.groups == s.groups[..n] + [s.groups[n]];
    FlushedSnoc(s.groups[..n], s.groups[n]);
    assert GoodGroups(cfg, s.groups[..n]);
    AsManyAnswers(cfg, s.groups[..n]);
  }

  lemma PublishSettles(s: State, s': State, id: nat, pc: Pc, p: nat, frame: Frame)
    requires id in s.threads && Busy(s.threads[id]) && Busy(pc) && s'.threads == s.threads[id := pc]
    requires p < |s.accepted| && p < |Answers(s.groups)| && Answers(s.groups)[p] == frame
    requires s'.accepted == s.accepted && s'.groups == s.groups && s'.slots == s.slots[s.accepted[p].id := frame]
    requires Distinct(s.accepted) && AllSettled(s, p)
    requires Census(s.accepted, s.threads) && s.slots.Keys <= s.threads.Keys
    ensures AllSettled(s', p + 1)
    ensures Census(s'.accepted, s'.threads) && s'.slots.Keys <= s'.threads.Keys
  {
    assert Settled(s.threads, s.slots, s.accepted[p].id, Due(s.groups, p, p));
    forall i | 0 <= i < |s'.accepted|
      ensures Settled(s'.threads, s'.slots, s'.accepted[i].id, Due(s'.groups, p + 1, i))
    {
      assert Settled(s.threads, s.slots, s.accepted[i].id, Due(s.groups, p, i));
      assert i < p ==> s.accepted[i].id != s.accepted[p].id;
      assert p < i ==> s.accepted[p].id != s.accepted[i].id;
    }
  }

  lemma PublishKeepsHistory(cfg: Config, s: State, s': State, was: Pc)
    requires HistoryInv(cfg, s, was) && was.Publishing? && was.next < |was.members|
    requires s'.accepted == s.accepted && s'.queue == s.queue && s'.metrics == s.metrics && s'.groups == s.groups
    ensures HistoryInv(cfg, s', was.(next := was.next + 1))
    ensures Published(s'.groups, was.(next := was.next + 1)) == Published(s.groups, was) + 1
  {
  }

  lemma PublishKeepsThreads(cfg: Config, s: State, s': State, id: nat, was: Pc)
    requires HistoryInv(cfg, s, was) && ThreadsInv(s, was) && id in s.threads && s.threads[id] == was
    requires was.Publishing? && was.next < |was.members| == |was.frames|
    requires s'.threads == s.threads[id := was.(next := was.next + 1)] && s'.accepted == s.accepted
    requires s'.groups == s.groups && s'.slots == s.slots[was.members[was.next].id := was.frames[was.next]]
    ensures ThreadsInv(s', was.(next := was.next + 1))
  {
    NextToPublish(cfg, s, was);
    PublishSettles(s, s', id, was.(next := was.next + 1), Published(s.groups, was), was.frames[was.next]);
  }

  lemma PublishKeepsInv(cfg: Config, s: State, id: nat, leader: Option<nat>)
    requires InvFor(cfg, s, leader) && Enabled(s, Publish(id))
    ensures InvFor(cfg, Step(cfg, s, Publish(id)), leader)
  {
    LeaderFlushes(cfg, s, id, leader);
    var was, s' := s.threads[id], Step(cfg, s, Publish(id));
    MoveKeepsLeader(s.threads, id, was.(next := was.next + 1), leader);
    PublishKeepsHistory(cfg, s, s', was);
    PublishKeepsThreads(cfg, s, s', id, was);
  }

  lemma ReceiveSettles(s: State, s': State, id: nat, published: int)
    requires id in s.threads && s.threads[id].Waiting? && id in s.slots
    requires s'.threads == s.threads[id := Received(s.slots[id])] && s'.slots == s.slots - {id}
    requires s'.accepted == s.accepted && s'.groups == s.groups && AllSettled(s, published)
    ensures AllSettled(s', published)
  {
    forall i | 0 <= i < |s'.accepted|
      ensures Settled(s'.threads, s'.slots, s'.accepted[i].id, Due(s'.groups, published, i))
    {
      assert Settled(s.threads, s.slots, s.accepted[i].id, Due(s.groups, published, i));
    }
  }

  lemma ReceiveKeepsInv(cfg: Config, s: State, id: nat, leader: Option<nat>)
    requires InvFor(cfg, s, leader) && Enabled(s, Receive(id))
    ensures InvFor(cfg, Step(cfg, s, Receive(id)), leader)
  {
    var s' := Step(cfg, s, Receive(id));
    assert LeaderIs(s'.threads, s'.queue.flushing, leader);
    assert PcOf(s'.threads, leader) == PcOf(s.threads, leader);
    ReceiveSettles(s, s', id, Published(s.groups, PcOf(s.threads, leader)));
    assert Census(s'.accepted, s'.threads);
  }

  lemma AppendKeepsThreads(s: State, s': State, r: Request, pc: Pc, published: int)
    requires r.id !in s.threads && s'.threads == s.threads[r.id := pc] && Busy(pc)
    requires s'.accepted == s.accepted + [r] && s'.groups == s.groups && s'.slots == s.slots
    requires Distinct(s.accepted) && s.slots.Keys <= s.threads.Keys && AllSettled(s, published)
    requires published <= |s.accepted|
    ensures Distinct(s'.accepted) && AllSettled(s', published)
  {
    forall i | 0 <= i < |s.accepted|
      ensures s.accepted[i].id != r.id
      ensures Settled(s'.threads, s'.slots, s'.accepted[i].id, Due(s'.groups, published, i))
    {
      assert Settled(s.threads, s.slots, s.accepted[i].id, Due(s.groups, published, i));
    }
    assert Settled(s'.threads, s'.slots, r.id, None);
  }

  lemma AppendKeepsCensus(accepted: seq<Request>, threads: map<nat, Pc>, r: Request, pc: Pc)
    requires Census(accepted, threads) && Busy(pc)
    ensures Census(accepted + [r], threads[r.id := pc])
  {
    var now := accepted + [r];
    assert now[|accepted|].id == r.id;
    forall id | id in threads && id != r.id
      ensures Holds(now, id) <==> Holds(accepted, id)
    {
      if Holds(accepted, id) {
        var i :| 0 <= i < |accepted| && accepted[i].id == id;
        assert now[i].id == id;
      }
    }
  }

  lemma AcceptedKeepsInv(cfg: Config, s: State, r: Request, leader: Option<nat>)
    requires InvFor(cfg, s, leader) && Enabled(s, Enqueue(r)) && |s.queue.pending| < cfg.maxPending
    ensures InvFor(cfg, Step(cfg, s, Enqueue(r)), if leader == None then Some(r.id) else leader)
  {
    var s' := Step(cfg, s, Enqueue(r));
    var leader' := if leader == None then Some(r.id) else leader;
    var pc := if leader == None then Collecting else Waiting;
    assert s'.threads == s.threads[r.id := pc];
    assert LeaderIs(s'.threads, s'.queue.flushing, leader');
    var was, now := PcOf(s.threads, leader), PcOf(s'.threads, leader');
    assert InFlight(was) == InFlight(now) && Unpublished(was) == Unpublished(now);
    assert s'.accepted == Flushed(s.groups) + InFlight(now) + s'.queue.pending;
    AppendKeepsCensus(s.accepted, s.threads, r, pc);
    AppendKeepsThreads(s, s', r, pc, Published(s.groups, was));
  }

  lemma RefusedKeepsInv(cfg: Config, s: State, r: Request, leader: Option<nat>)
    requires InvFor(cfg, s, leader) && Enabled(s, Enqueue(r)) && |s.queue.pending| >= cfg.maxPending
    ensures InvFor(cfg, Step(cfg, s, Enqueue(r)), leader)
  {
    var s' := Step(cfg, s, Enqueue(r));
    assert s'.threads == s.threads[r.id := Overloaded];
    assert LeaderIs(s'.threads, s'.queue.flushing, leader);
    assert PcOf(s'.threads, leader) == PcOf(s.threads, leader);
    var published := Published(s.groups, PcOf(s.threads, leader));
    forall i | 0 <= i < |s.accepted|
      ensures s.accepted[i].id != r.id
      ensures Settled(s'.threads, s'.slots, s.accepted[i].id, Due(s.groups, published, i))
    {
      assert Settled(s.threads, s.slots, s.accepted[i].id, Due(s.groups, published, i));
    }
    assert Census(s'.accepted, s'.threads);
  }

  lemma StepKeepsInv(cfg: Config, s: State, e: Event)
    requires Inv(cfg, s) && Enabled(s, e)
    ensures Inv(cfg, Step(cfg, s, e))
  {
    var leader: Option<nat> :| InvFor(cfg, s, leader);
    match e
    case Enqueue(r) =>
      if |s.queue.pending| < cfg.maxPending { AcceptedKeepsInv(cfg, s, r, leader); }
      else { RefusedKeepsInv(cfg, s, r, leader); }
    case Seal(id) => SealKeepsInv(cfg, s, id, leader);
    case Flush(id, frames, times) => FlushKeepsInv(cfg, s, id, frames, times, leader);
    case Publish(id) => PublishKeepsInv(cfg, s, id, leader);
    case EndRound(id) => EndRoundKeepsInv(cfg, s, id, leader);
    case Receive(id) => ReceiveKeepsInv(cfg, s, id, leader);
  }

  lemma {:induction false} RunKeepsInv(cfg: Config, s: State, es: seq<Event>)
    requires Inv(cfg, s) && Run(cfg, s, es)
    ensures Inv(cfg, After(cfg, s, es))
    decreases |es|
  {
    if es != [] {
      StepKeepsInv(cfg, s, es[0]);
      RunKeepsInv(cfg, Step(cfg, s, es[0]), es[1..]);
    }
  }

  lemma StartHoldsInv(cfg: Config)
    ensures Inv(cfg, START)
  {
    assert InvFor(cfg, START, None);
  }

  // ---------------------------------------------------------------- what holds after every run

  ghost predicate Reachable(cfg: Config, s: State) {
    exists es :: Run(cfg, START, es) && After(cfg, START, es) == s
  }

  lemma ReachableHoldsInv(cfg: Config, s: State)
    requires Reachable(cfg, s)
    ensures Inv(cfg, s)
  {
    var es :| Run(cfg, START, es) && After(cfg, START, es) == s;
    StartHoldsInv(cfg);
    RunKeepsInv(cfg, START, es);
  }

  /** Leadership: never two leaders; a waiting request always has one; the flag says exactly whether there is one. */
  lemma OneLeader(cfg: Config, s: State)
    requires Reachable(cfg, s)
    ensures forall a, b :: a in s.threads && b in s.threads && Leading(s.threads[a]) && Leading(s.threads[b]) ==> a == b
    ensures s.queue.flushing <==> exists id :: id in s.threads && Leading(s.threads[id])
    ensures s.queue.pending != [] ==> s.queue.flushing
    ensures |s.queue.pending| <= cfg.maxPending
  {
    ReachableHoldsInv(cfg, s);
    var leader: Option<nat> :| InvFor(cfg, s, leader);
    forall a, b | a in s.threads && b in s.threads && Leading(s.threads[a]) && Leading(s.threads[b])
      ensures a == b
    {
      assert leader == Some(a) && leader == Some(b);
    }
  }

  /** A request is refused exactly when the queue is full, and then changes nothing but its own answer. Any
      other joins the end of the queue, and leads exactly when nobody does. */
  lemma RefusedExactlyWhenFull(cfg: Config, s: State, r: Request)
    requires Reachable(cfg, s) && Enabled(s, Enqueue(r))
    ensures var s' := Step(cfg, s, Enqueue(r));
            && (s'.threads[r.id].Overloaded? <==> |s.queue.pending| >= cfg.maxPending)
            && (if |s.queue.pending| >= cfg.maxPending then s' == s.(threads := s.threads[r.id := Overloaded])
                else && s'.accepted == s.accepted + [r] && s'.queue.pending == s.queue.pending + [r]
                     && (s'.threads[r.id].Collecting? <==> !exists id :: id in s.threads && Leading(s.threads[id]))
                     && (s'.threads[r.id].Collecting? || s'.threads[r.id].Waiting?))
  {
    OneLeader(cfg, s);
  }

  /** The requests of a run that find room on arrival. */
  ghost function Admitted(cfg: Config, s: State, es: seq<Event>): seq<Request>
    requires Run(cfg, s, es)
    decreases |es|
  {
    if es == [] then []
    else
      (if es[0].Enqueue? && |s.queue.pending| < cfg.maxPending then [es[0].r] else [])
      + Admitted(cfg, Step(cfg, s, es[0]), es[1..])
  }

  /** Over every run the accepted requests are those that found room, in the order they came. */
  lemma {:induction false} AcceptedAreThoseThatFoundRoom(cfg: Config, s: State, es: seq<Event>)
    requires Run(cfg, s, es)
    ensures After(cfg, s, es).accepted == s.accepted + Admitted(cfg, s, es)
    decreases |es|
  {
    if es != [] {
      AcceptedAreThoseThatFoundRoom(cfg, Step(cfg, s, es[0]), es[1..]);
    }
  }

  /** A leader that seals takes a group off the front of the queue, as many as fit and no fewer. */
  lemma SealTakesTheGroup(cfg: Config, s: State, id: nat)
    requires Reachable(cfg, s) && Enabled(s, Seal(id))
    ensures var s' := Step(cfg, s, Seal(id));
            && s'.threads[id].Flushing?
            && var members := s'.threads[id].members;
               && members + s'.queue.pending == s.queue.pending && GoodGroup(cfg, members)
               && SealedFor(cfg, s.queue.pending, |members|) && NoneReached(cfg, s.queue.pending, |members|)
  {
    NoEmptyGroupIsSealed(cfg, s, id);
    GroupIsGood(cfg, s.queue.pending);
    assert s.queue.pending[..GroupSize(cfg, s.queue.pending)] != [];
  }

  /** The branch in which a leader finds no group and resigns is never taken. */
  lemma NoEmptyGroupIsSealed(cfg: Config, s: State, id: nat)
    requires Reachable(cfg, s) && Enabled(s, Seal(id))
    ensures GroupSize(cfg, s.queue.pending) > 0
  {
    ReachableHoldsInv(cfg, s);
    var leader: Option<nat> :| InvFor(cfg, s, leader);
    LeaderFlushes(cfg, s, id, leader);
    GroupIsGood(cfg, s.queue.pending);
  }

  /** Accepted requests are flushed in arrival order, each exactly once; the counters total the groups,
      and every group is one request or within both limits. */
  lemma FlushedOnceInOrder(cfg: Config, s: State)
    requires Reachable(cfg, s)
    ensures Flushed(s.groups) <= s.accepted && Distinct(s.accepted)
    ensures s.metrics == MetricsOf(s.groups) && GoodGroups(cfg, s.groups)
    ensures s.metrics.commits == |s.groups| && s.metrics.requests == |Flushed(s.groups)|
    ensures s.metrics.records == Records(Flushed(s.groups)) && s.metrics.bytes == Bytes(Flushed(s.groups))
    ensures s.metrics.sync == SyncTotal(s.groups) && s.metrics.wait == WaitTotal(s.groups)
    ensures s.groups != [] ==>
              var g := s.groups[|s.groups| - 1];
              s.metrics.last == Sample(|g.members|, Records(g.members), Bytes(g.members), g.times)
  {
    ReachableHoldsInv(cfg, s);
    var leader: Option<nat> :| InvFor(cfg, s, leader);
    MetricsTotal(s.groups);
  }

  lemma {:induction false} TotalsOfConcat(a: seq<Request>, b: seq<Request>)
    ensures Records(a + b) == Records(a) + Records(b) && Bytes(a + b) == Bytes(a) + Bytes(b)
    decreases |b|
  {
    if b == [] {
      assert a + b == a;
    } else {
      assert (a + b)[..|a + b| - 1] == a + b[..|b| - 1];
      TotalsOfConcat(a, b[..|b| - 1]);
    }
  }

  function SyncTotal(groups: seq<Group>): nat {
    if groups == [] then 0 else SyncTotal(groups[..|groups| - 1]) + groups[|groups| - 1].times.sync
  }

  function WaitTotal(groups: seq<Group>): nat {
    if groups == [] then 0 else WaitTotal(groups[..|groups| - 1]) + groups[|groups| - 1].times.wait
  }

  lemma {:induction false} MetricsTotal(groups: seq<Group>)
    ensures MetricsOf(groups).sync == SyncTotal(groups) && MetricsOf(groups).wait == WaitTotal(groups)
    ensures MetricsOf(groups).commits == |groups| && MetricsOf(groups).requests == |Flushed(groups)|
    ensures MetricsOf(groups).records == Records(Flushed(groups)) && MetricsOf(groups).bytes == Bytes(Flushed(groups))
  {
    if groups != [] {
      var rest := groups[..|groups| - 1];
      MetricsTotal(rest);
      TotalsOfConcat(Flushed(rest), groups[|groups| - 1].members);
    }
  }

  /** Where position `i` of the flushed requests sits: group and place, frame included. */
  lemma {:induction false} PlaceOf(cfg: Config, groups: seq<Group>, i: nat) returns (g: nat, j: nat)
    requires GoodGroups(cfg, groups) && i < |Flushed(groups)| && i < |Answers(groups)|
    ensures g < |groups| && j < |groups[g].members| == |groups[g].frames|
    ensures groups[g].members[j] == Flushed(groups)[i] && groups[g].frames[j] == Answers(groups)[i]
  {
    var rest := groups[..|groups| - 1];
    AsManyAnswers(cfg, rest);
    if i < |Flushed(rest)| {
      g, j := PlaceOf(cfg, rest, i);
    } else {
      g, j := |rest|, i - |Flushed(rest)|;
    }
  }

  /** A producer that got a frame got the one its own request was given in the one group that held it. */
  lemma ReplyIsItsOwn(cfg: Config, s: State, id: nat) returns (g: nat, j: nat)
    requires Reachable(cfg, s) && id in s.threads && s.threads[id].Received?
    ensures g < |s.groups| && j < |s.groups[g].members| == |s.groups[g].frames|
    ensures s.groups[g].members[j].id == id && s.threads[id].frame == s.groups[g].frames[j]
  {
    ReachableHoldsInv(cfg, s);
    var leader: Option<nat> :| InvFor(cfg, s, leader);
    var pc := PcOf(s.threads, leader);
    assert Holds(s.accepted, id);
    var i :| 0 <= i < |s.accepted| && s.accepted[i].id == id;
    assert Settled(s.threads, s.slots, s.accepted[i].id, Due(s.groups, Published(s.groups, pc), i));
    AsManyAnswers(cfg, s.groups);
    assert s.accepted[i] == Flushed(s.groups)[i];
    g, j := PlaceOf(cfg, s.groups, i);
  }

  lemma HoldsOfConcat(a: seq<Request>, b: seq<Request>, c: seq<Request>, id: nat)
    ensures Holds(a, id) || Holds(c, id) ==> Holds(a + b + c, id)
  {
    var all := a + b + c;
    if Holds(a, id) {
      var i :| 0 <= i < |a| && a[i].id == id;
      assert all[i].id == id;
    } else if Holds(c, id) {
      var i :| 0 <= i < |c| && c[i].id == id;
      assert all[|a| + |b| + i].id == id;
    }
  }

  /** A refused producer's request is in no group and not on the queue, and gets no frame. */
  lemma RefusedIsNeverFlushed(cfg: Config, s: State, id: nat)
    requires Reachable(cfg, s) && id in s.threads && s.threads[id].Overloaded?
    ensures !Holds(Flushed(s.groups), id) && !Holds(s.queue.pending, id) && !Holds(s.accepted, id)
  {
    ReachableHoldsInv(cfg, s);
    var leader: Option<nat> :| InvFor(cfg, s, leader);
    HoldsOfConcat(Flushed(s.groups), InFlight(PcOf(s.threads, leader)), s.queue.pending, id);
  }

  /** Nobody is forgotten: once no flush is running, every accepted request was flushed and
      its producer has its frame, or finds it in its slot. */
  lemma NobodyIsForgotten(cfg: Config, s: State)
    requires Reachable(cfg, s) && !s.queue.flushing
    ensures s.accepted == Flushed(s.groups) && |Answers(s.groups)| == |s.accepted|
    ensures forall i :: 0 <= i < |s.accepted| ==>
                          Settled(s.threads, s.slots, s.accepted[i].id, Some(Answers(s.groups)[i]))
  {
    ReachableHoldsInv(cfg, s);
    var leader: Option<nat> :| InvFor(cfg, s, leader);
    AsManyAnswers(cfg, s.groups);
    forall i | 0 <= i < |s.accepted|
      ensures Settled(s.threads, s.slots, s.accepted[i].id, Some(Answers(s.groups)[i]))
    {
      assert Settled(s.threads, s.slots, s.accepted[i].id, Due(s.groups, |Flushed(s.groups)|, i));
    }
  }

  // ---------------------------------------------------------------- the leader's rounds end

  /** A step of the leader: everything but an arrival and a producer taking its frame. */
  predicate LeaderStep(e: Event) {
    !e.Enqueue? && !e.Receive?
  }

  function LeaderSteps(es: seq<Event>): nat {
    if es == [] then 0 else (if LeaderStep(es[0]) then 1 else 0) + LeaderSteps(es[1..])
  }

  function Rounds(es: seq<Event>): nat {
    if es == [] then 0 else (if es[0].Seal? then 1 else 0) + Rounds(es[1..])
  }

  predicate NoArrivals(es: seq<Event>) {
    forall i :: 0 <= i < |es| ==> !es[i].Enqueue?
  }

  /** A bound on the leader's steps from here, if nobody else arrives. */
  function Work(pending: seq<Request>, pc: Pc): int {
    4 * |pending| + match pc
      case Collecting => 1
      case Flushing(members) => |members| + 3
      case Publishing(members, _, next) => |members| - next + 2
      case _ => 0
  }

  lemma LeaderAfter(cfg: Config, s: State, e: Event, leader: Option<nat>) returns (leader': Option<nat>)
    requires InvFor(cfg, s, leader) && Enabled(s, e) && !e.Enqueue?
    ensures InvFor(cfg, Step(cfg, s, e), leader')
    ensures leader' == if e.EndRound? && s.queue.pending == [] then None else leader
  {
    leader' := if e.EndRound? && s.queue.pending == [] then None else leader;
    match e
    case Seal(id) => SealKeepsInv(cfg, s, id, leader);
    case Flush(id, frames, times) => FlushKeepsInv(cfg, s, id, frames, times, leader);
    case Publish(id) => PublishKeepsInv(cfg, s, id, leader);
    case EndRound(id) => EndRoundKeepsInv(cfg, s, id, leader);
    case Receive(id) => ReceiveKeepsInv(cfg, s, id, leader);
  }

  lemma WorkDrops(cfg: Config, s: State, e: Event, leader: Option<nat>, leader': Option<nat>)
    requires InvFor(cfg, s, leader) && Enabled(s, e) && !e.Enqueue?
    requires leader' == if e.EndRound? && s.queue.pending == [] then None else leader
    ensures var s' := Step(cfg, s, e);
            && Work(s'.queue.pending, PcOf(s'.threads, leader')) + (if LeaderStep(e) then 1 else 0)
               <= Work(s.queue.pending, PcOf(s.threads, leader))
            && |s'.queue.pending| + (if e.Seal? then 1 else 0) <= |s.queue.pending|
  {
    if LeaderStep(e) {
      LeaderFlushes(cfg, s, e.leader, leader);
      GroupIsGood(cfg, s.queue.pending);
    }
  }

  /** With no further arrivals, a run holds at most as many rounds as requests are queued,
      and its leader takes a bounded number of steps. */
  lemma {:induction false} RoundsAreBounded(cfg: Config, s: State, es: seq<Event>, leader: Option<nat>)
    requires InvFor(cfg, s, leader) && Run(cfg, s, es) && NoArrivals(es)
    ensures Rounds(es) <= |s.queue.pending|
    ensures LeaderSteps(es) <= Work(s.queue.pending, PcOf(s.threads, leader))
    decreases |es|
  {
    if es != [] {
      var leader' := LeaderAfter(cfg, s, es[0], leader);
      WorkDrops(cfg, s, es[0], leader, leader');
      RoundsAreBounded(cfg, Step(cfg, s, es[0]), es[1..], leader');
    }
  }

  /** While a flush is running its leader always has a step to take, whoever else is stuck. */
  lemma LeaderIsNeverStuck(cfg: Config, s: State) returns (e: Event)
    requires Reachable(cfg, s) && s.queue.flushing
    ensures LeaderStep(e) && Enabled(s, e)
  {
    ReachableHoldsInv(cfg, s);
    var leader: Option<nat> :| InvFor(cfg, s, leader);
    var id := leader.value;
    match s.threads[id]
    case Collecting => e := Seal(id);
    case Flushing(members) => e := Flush(id, seq(|members|, _ => 0), Times(0, 0, None));
    case Publishing(members, _, next) =>
      if next < |members| {
        NextToPublish(cfg, s, s.threads[id]);
        e := Publish(id);
      } else {
        e := EndRound(id);
      }
  }
}
