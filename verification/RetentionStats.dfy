/**
  The retention statistics of `retention_stats.rs`: retention passes record their
  results under a policy lock, a pass begun before the policy changed records
  nothing, and a scrape reads the fields one by one without the lock.

  The atomics are read and written one at a time, in program order.
 */
module RetentionStats {
  import opened Options

  datatype Blocked = CommittedFloor | ActiveSegment

  datatype Outcome = Outcome(retained: nat, bytesRemoved: nat, segmentsRemoved: nat, blocked: Option<Blocked>)

  /** A pass's result: its outcome, or nothing when it failed. */
  type Result = Option<Outcome>

  datatype Counters = Counters(failures: nat, reclaimedBytes: nat, reclaimedSegments: nat, floorBlocked: nat,
                               segmentBlocked: nat)

  datatype Fields = Fields(
    bound: nat,
    retained: nat,
    blocked: Option<Blocked>,
    lastFailed: bool,
    measured: bool,
    counters: Counters)

  const BLANK: Fields := Fields(0, 0, None, false, false, Counters(0, 0, 0, 0, 0))

  // ---------------------------------------------------------------- the stores, in the order they are made

  datatype Store =
    | SetBound(n: nat)
    | AddFailure
    | SetFailed(on: bool)
    | SetRetained(n: nat)
    | AddReclaimed(n: nat)
    | AddSegments(n: nat)
    | AddBlocked(why: Blocked)
    | SetBlocked(now: Option<Blocked>)
    | SetMeasured(on: bool)

  function Stored(f: Fields, st: Store): Fields {
    match st
    case SetBound(n) => f.(bound := n)
    case AddFailure => f.(counters := f.counters.(failures := f.counters.failures + 1))
    case SetFailed(on) => f.(lastFailed := on)
    case SetRetained(n) => f.(retained := n)
    case AddReclaimed(n) => f.(counters := f.counters.(reclaimedBytes := f.counters.reclaimedBytes + n))
    case AddSegments(n) => f.(counters := f.counters.(reclaimedSegments := f.counters.reclaimedSegments + n))
    case AddBlocked(why) =>
      if why.CommittedFloor? then f.(counters := f.counters.(floorBlocked := f.counters.floorBlocked + 1))
      else f.(counters := f.counters.(segmentBlocked := f.counters.segmentBlocked + 1))
    case SetBlocked(now) => f.(blocked := now)
    case SetMeasured(on) => f.(measured := on)
  }

  function AllStored(f: Fields, sts: seq<Store>): Fields
    decreases |sts|
  {
    if sts == [] then f else AllStored(Stored(f, sts[0]), sts[1..])
  }

  function RecordStores(bound: nat, r: Result): seq<Store> {
    [SetBound(bound)]
    + if r == None then [AddFailure, SetFailed(true)]
      else [SetFailed(false), SetRetained(r.value.retained), AddReclaimed(r.value.bytesRemoved),
          AddSegments(r.value.segmentsRemoved)]
           + (if r.value.blocked.Some? then [AddBlocked(r.value.blocked.value)] else [])
           + [SetBlocked(r.value.blocked), SetMeasured(true)]
  }

  const FORGET: seq<Store> := [SetBound(0), SetMeasured(false), SetBlocked(None), SetFailed(false)]

  // ---------------------------------------------------------------- what the stores amount to

  function Counted(c: Counters, r: Result): Counters {
    if r == None then c.(failures := c.failures + 1)
    else Counters(c.failures, c.reclaimedBytes + r.value.bytesRemoved, c.reclaimedSegments + r.value.segmentsRemoved,
                  c.floorBlocked + (if r.value.blocked == Some(CommittedFloor) then 1 else 0),
                  c.segmentBlocked + (if r.value.blocked == Some(ActiveSegment) then 1 else 0))
  }

  function Recorded(f: Fields, bound: nat, r: Result): Fields {
    if r == None then f.(bound := bound, lastFailed := true, counters := Counted(f.counters, r))
    else Fields(bound, r.value.retained, r.value.blocked, false, true, Counted(f.counters, r))
  }

  function Forgotten(f: Fields): Fields {
    f.(bound := 0, measured := false, blocked := None, lastFailed := false)
  }

  lemma {:induction false} StoredConcat(f: Fields, xs: seq<Store>, ys: seq<Store>)
    ensures AllStored(f, xs + ys) == AllStored(AllStored(f, xs), ys)
    decreases |xs|
  {
    if xs == [] {
      assert xs + ys == ys;
    } else {
      assert (xs + ys)[1..] == xs[1..] + ys;
      StoredConcat(Stored(f, xs[0]), xs[1..], ys);
    }
  }

  lemma StoredTwo(f: Fields, a: Store, b: Store)
    ensures AllStored(f, [a, b]) == Stored(Stored(f, a), b)
  {
    assert [a, b][1..] == [b];
    assert AllStored(Stored(f, a), [b]) == Stored(Stored(f, a), b);
  }

  lemma StoredFour(f: Fields, a: Store, b: Store, c: Store, d: Store)
    ensures AllStored(f, [a, b, c, d]) == Stored(Stored(Stored(Stored(f, a), b), c), d)
  {
    assert [a, b, c, d] == [a, b] + [c, d];
    StoredConcat(f, [a, b], [c, d]);
    StoredTwo(f, a, b);
    StoredTwo(Stored(Stored(f, a), b), c, d);
  }

  lemma RecordStoresRecord(f: Fields, bound: nat, r: Result)
    ensures AllStored(f, RecordStores(bound, r)) == Recorded(f, bound, r)
  {
    var f1 := Stored(f, SetBound(bound));
    assert AllStored(f, [SetBound(bound)]) == f1;
    if r == None {
      StoredConcat(f, [SetBound(bound)], [AddFailure, SetFailed(true)]);
      StoredTwo(f1, AddFailure, SetFailed(true));
    } else {
      var o := r.value;
      var head := [SetFailed(false), SetRetained(o.retained), AddReclaimed(o.bytesRemoved),
          AddSegments(o.segmentsRemoved)];
      var mid := if o.blocked.Some? then [AddBlocked(o.blocked.value)] else [];
      var tail := [SetBlocked(o.blocked), SetMeasured(true)];
      StoredConcat(f, [SetBound(bound)], head + mid + tail);
      StoredFour(f1, head[0], head[1], head[2], head[3]);
      var f2 := AllStored(f1, head);
      StoredConcat(f1, head + mid, tail);
      StoredConcat(f1, head, mid);
      var f3 := AllStored(f2, mid);
      StoredTwo(f3, tail[0], tail[1]);
    }
  }

  lemma ForgetForgets(f: Fields)
    ensures AllStored(f, FORGET) == Forgotten(f)
  {
    StoredFour(f, FORGET[0], FORGET[1], FORGET[2], FORGET[3]);
  }

  // ---------------------------------------------------------------- the object

  datatype Snapshot = Snapshot(retained: Option<nat>, bound: nat, blocked: Option<Blocked>, lastFailed: bool)

  class Stats {
    var f: Fields
    var policy: nat

    constructor ()
      ensures f == BLANK && policy == 0
    {
      f, policy := BLANK, 0;
    }

    /** `record_for`. */
    method RecordFor(generation: nat, bound: nat, r: Result)
      modifies this
      ensures policy == old(policy)
      ensures f == if policy == generation then Recorded(old(f), bound, r) else old(f)
    {
      if policy != generation {
        return;
      }
      f := f.(bound := bound);
      if r == None {
        f := f.(counters := f.counters.(failures := f.counters.failures + 1));
        f := f.(lastFailed := true);
        return;
      }
      var outcome := r.value;
      f := f.(lastFailed := false);
      f := f.(retained := outcome.retained);
      f := f.(counters := f.counters.(reclaimedBytes := f.counters.reclaimedBytes + outcome.bytesRemoved));
      f := f.(counters := f.counters.(reclaimedSegments := f.counters.reclaimedSegments + outcome.segmentsRemoved));
      if outcome.blocked.Some? {
        match outcome.blocked.value
        case CommittedFloor => f := f.(counters := f.counters.(floorBlocked := f.counters.floorBlocked + 1));
        case ActiveSegment => f := f.(counters := f.counters.(segmentBlocked := f.counters.segmentBlocked + 1));
      }
      f := f.(blocked := outcome.blocked);
      f := f.(measured := true);
    }

    /** `change_policy`, and `clear` when retention is turned off. */
    method ChangePolicy()
      modifies this
      ensures policy == old(policy) + 1 && f == Forgotten(old(f))
    {
      policy := policy + 1;
      f := f.(bound := 0);
      f := f.(measured := false);
      f := f.(blocked := None);
      f := f.(lastFailed := false);
    }
  }

  /** `snapshot` of fields nobody is writing. */
  function Snap(f: Fields): Option<Snapshot> {
    if f.bound == 0 then None
    else Some(Snapshot(if f.measured then Some(f.retained) else None, f.bound, f.blocked, f.lastFailed))
  }

  // ---------------------------------------------------------------- passes, policy changes and a scrape

  /** A pass in flight: the generation and the bound it read together. */
  datatype Pass = Pass(generation: nat, bound: nat)

  /** A scrape after `loads` of its five loads; `generation` and `clean` are history: the policy at its
      first load, and that no change was then under way. */
  datatype Scrape = Scrape(
    loads: nat,
    bound: nat,
    measured: bool,
    size: Option<nat>,
    blocked: Option<Blocked>,
    failed: bool,
    generation: nat,
    clean: bool)

  const UNREAD: Scrape := Scrape(0, 0, false, None, None, false, 0, false)

  /** `rest` holds the stores the lock's holder has still to make, none when the lock is free;
      `changing` says that it is a policy change that holds it. History: `log` every result recorded,
      `since` those since the policy last changed, `sizes` the sizes stored so far. */
  datatype State = State(
    f: Fields,
    generation: nat,
    bound: nat,
    rest: seq<Store>,
    changing: bool,
    passes: seq<Pass>,
    scrape: Scrape,
    log: seq<Result>,
    since: seq<Result>,
    sizes: set<nat>)

  function Start(bound: nat): State {
    State(BLANK, 0, bound, [], false, [], UNREAD, [], [], {})
  }

  datatype Event =
    | BeginPass
    | Record(p: nat, r: Result)
    | Change(bound: nat)
    | StoreNext
    | Load

  predicate Enabled(s: State, e: Event) {
    match e
    case BeginPass => s.rest == []
    case Record(p, _) => s.rest == [] && p < |s.passes|
    case Change(_) => s.rest == []
    case StoreNext => s.rest != []
    case Load => s.scrape.loads < 5
  }

  /** The loads of `snapshot`, in the order it makes them. */
  function Loaded(s: State): Scrape {
    var c := s.scrape;
    if c.loads == 0 then c.(loads := 1, bound := s.f.bound, generation := s.generation, clean := !s.changing)
    else if c.loads == 1 then c.(loads := 2, measured := s.f.measured)
    else if c.loads == 2 then c.(loads := 3, size := if c.measured then Some(s.f.retained) else None)
    else if c.loads == 3 then c.(loads := 4, blocked := s.f.blocked)
    else c.(loads := 5, failed := s.f.lastFailed)
  }

  function Step(s: State, e: Event): State
    requires Enabled(s, e)
  {
    match e
    case BeginPass => s.(passes := s.passes + [Pass(s.generation, s.bound)])
    case Record(p, r) =>
      if s.passes[p].generation != s.generation then s
      else s.(rest := RecordStores(s.passes[p].bound, r), log := s.log + [r], since := s.since + [r])
    case Change(bound) =>
      s.(generation := s.generation + 1, bound := bound, rest := FORGET, changing := true, since := [])
    case StoreNext =>
      var st := s.rest[0];
      s.(f := Stored(s.f, st), rest := s.rest[1..], changing := s.changing && |s.rest| > 1,
         sizes := if st.SetRetained? then s.sizes + {st.n} else s.sizes)
    case Load => s.(scrape := Loaded(s))
  }

  ghost predicate Run(s: State, es: seq<Event>)
    decreases |es|
  {
    es == [] || (Enabled(s, es[0]) && Run(Step(s, es[0]), es[1..]))
  }

  ghost function After(s: State, es: seq<Event>): State
    requires Run(s, es)
    decreases |es|
  {
    if es == [] then s else After(Step(s, es[0]), es[1..])
  }

  // ---------------------------------------------------------------- the reference: what the results say

  function CountersOf(log: seq<Result>): Counters {
    if log == [] then BLANK.counters else Counted(CountersOf(log[..|log| - 1]), log[|log| - 1])
  }

  /** The latest success among the results, if there is one. */
  function LastSuccess(since: seq<Result>): Result {
    if since == [] then None else if since[|since| - 1].Some? then since[|since| - 1]
        else LastSuccess(since[..|since| - 1])
  }

  /** The fields agree with the results recorded under the present policy. */
  ghost predicate Shows(f: Fields, bound: nat, since: seq<Result>) {
    var last := LastSuccess(since);
    && f.bound == (if since == [] then 0 else bound)
    && f.lastFailed == (since != [] && since[|since| - 1] == None)
    && f.measured == last.Some?
    && (last.Some? ==> f.retained == last.value.retained)
    && f.blocked == (if last.Some? then last.value.blocked else None)
  }

  // ---------------------------------------------------------------- the invariant

  ghost predicate PassesInv(s: State) {
    forall i :: 0 <= i < |s.passes| ==> s.passes[i].generation <= s.generation
                                        && (s.passes[i].generation == s.generation ==> s.passes[i].bound == s.bound)
  }

  /** Once the stores under way are made, the fields show exactly what was recorded. */
  ghost predicate Converges(s: State) {
    var f := AllStored(s.f, s.rest);
    Shows(f, s.bound, s.since) && f.counters == CountersOf(s.log)
  }

  /** A size is stored before the fields say one was measured. */
  predicate Guarded(rest: seq<Store>, sized: bool)
    decreases |rest|
  {
    rest == [] || ((rest[0] == SetMeasured(true) ==> sized) && Guarded(rest[1..], sized || rest[0].SetRetained?))
  }

  ghost predicate SizeInv(s: State) {
    && (s.sizes != {} ==> s.f.retained in s.sizes)
    && (s.f.measured ==> s.sizes != {})
    && Guarded(s.rest, s.sizes != {})
    && (s.scrape.measured ==> s.sizes != {})
    && (s.scrape.size.Some? ==> s.scrape.size.value in s.sizes)
  }

  /** The bound shown is the policy's, none, or one about to be forgotten. */
  ghost predicate BoundInv(s: State) {
    && (s.f.bound == 0 || s.f.bound == s.bound || s.rest == FORGET)
    && forall i :: 0 <= i < |s.rest| && s.rest[i].SetBound? ==> s.rest[i].n == 0 || s.rest[i].n == s.bound
  }

  /** What the passes of the present policy measured. */
  ghost predicate SizeIn(since: seq<Result>, size: nat) {
    exists i :: 0 <= i < |since| && since[i].Some? && since[i].value.retained == size
  }

  ghost predicate BlockIn(since: seq<Result>, blocked: Option<Blocked>) {
    exists i :: 0 <= i < |since| && since[i].Some? && since[i].value.blocked == blocked
  }

  ghost predicate FailureIn(since: seq<Result>) {
    exists i :: 0 <= i < |since| && since[i] == None
  }

  /** One store of a recording of `r`. */
  predicate Stores(st: Store, r: Result) {
    match st
    case SetRetained(n) => r.Some? && r.value.retained == n
    case SetBlocked(b) => r.Some? && r.value.blocked == b
    case SetMeasured(on) => on
    case SetFailed(on) => on ==> r == None
    case _ => true
  }

  /** The stores under way: a change's, when nothing is recorded yet; or the last result's, of which the
      one that says a size was measured comes last. */
  ghost predicate RestInv(s: State) {
    && (s.rest == [] ==> !s.changing)
    && (s.changing ==> s.since == [])
    && (s.rest != [] && !s.changing ==>
          && s.since != []
          && (forall i :: 0 <= i < |s.rest| ==> Stores(s.rest[i], s.since[|s.since| - 1]))
          && (forall i :: 0 <= i < |s.rest| - 1 ==> !s.rest[i].SetMeasured?))
  }

  /** Unless a change is under way, what the fields say was measured, a pass of the present policy measured. */
  ghost predicate LiveInv(s: State) {
    !s.changing ==>
      && (s.f.measured ==> SizeIn(s.since, s.f.retained) && BlockIn(s.since, s.f.blocked))
      && (s.f.lastFailed ==> FailureIn(s.since))
  }

  /** What a scrape has not loaded yet it does not report. */
  predicate InOrder(c: Scrape) {
    (c.loads < 2 ==> !c.measured) && (c.loads < 3 ==> c.size == None) && (c.loads < 5 ==> !c.failed)
  }

  /** A scrape under one policy, so far. */
  ghost predicate ScrapeInv(s: State) {
    var c := s.scrape;
    && InOrder(c)
    && (0 < c.loads && c.clean && c.generation == s.generation ==>
      && !s.changing
      && (c.bound == 0 || c.bound == s.bound)
      && (c.measured ==> s.f.measured)
      && (c.size.Some? ==> SizeIn(s.since, c.size.value))
      && (c.loads > 3 && c.measured ==> BlockIn(s.since, c.blocked))
      && (c.failed ==> FailureIn(s.since)))
  }

  ghost predicate Inv(s: State) {
    && PassesInv(s) && Converges(s) && SizeInv(s) && BoundInv(s)
    && RestInv(s) && LiveInv(s) && ScrapeInv(s) && s.scrape.generation <= s.generation
  }

  lemma MoreSince(since: seq<Result>, r: Result)
    ensures forall n :: SizeIn(since, n) ==> SizeIn(since + [r], n)
    ensures forall b :: BlockIn(since, b) ==> BlockIn(since + [r], b)
    ensures FailureIn(since) ==> FailureIn(since + [r])
  {
    var more := since + [r];
    forall n | SizeIn(since, n) ensures SizeIn(more, n) {
      var i :| 0 <= i < |since| && since[i].Some? && since[i].value.retained == n;
      assert more[i] == since[i];
    }
    forall b | BlockIn(since, b) ensures BlockIn(more, b) {
      var i :| 0 <= i < |since| && since[i].Some? && since[i].value.blocked == b;
      assert more[i] == since[i];
    }
    if FailureIn(since) {
      var i :| 0 <= i < |since| && since[i] == None;
      assert more[i] == since[i];
    }
  }

  lemma {:induction false} LastSuccessIsIn(since: seq<Result>)
    ensures LastSuccess(since).Some? ==>
              SizeIn(since, LastSuccess(since).value.retained) && BlockIn(since, LastSuccess(since).value.blocked)
  {
    if since != [] {
      LastSuccessIsIn(since[..|since| - 1]);
      assert since == since[..|since| - 1] + [since[|since| - 1]];
      MoreSince(since[..|since| - 1], since[|since| - 1]);
    }
  }

  /** When the last store has been made the fields show what was recorded, so all of it was measured. */
  lemma ShownIsLive(f: Fields, bound: nat, since: seq<Result>)
    requires Shows(f, bound, since)
    ensures f.measured ==> SizeIn(since, f.retained) && BlockIn(since, f.blocked)
    ensures f.lastFailed ==> FailureIn(since)
  {
    LastSuccessIsIn(since);
    if f.lastFailed {
      assert since[|since| - 1] == None;
    }
  }

  lemma StoreKeepsConverging(s: State)
    requires s.rest != [] && Converges(s) && BoundInv(s)
    ensures Converges(Step(s, StoreNext)) && BoundInv(Step(s, StoreNext))
  {
    var s' := Step(s, StoreNext);
    assert AllStored(s'.f, s'.rest) == AllStored(s.f, s.rest);
    forall i | 0 <= i < |s'.rest| && s'.rest[i].SetBound? ensures s'.rest[i].n == 0 || s'.rest[i].n == s.bound {
      assert s'.rest[i] == s.rest[i + 1];
    }
    if s.rest == FORGET {
      assert s.rest[0] == SetBound(0);
    }
  }

  lemma StoreKeepsSizes(s: State)
    requires s.rest != [] && SizeInv(s)
    ensures SizeInv(Step(s, StoreNext))
  {
  }

  lemma StoreKeepsRest(s: State)
    requires s.rest != [] && RestInv(s)
    ensures RestInv(Step(s, StoreNext))
  {
    var s' := Step(s, StoreNext);
    forall i | 0 <= i < |s'.rest| ensures s'.rest[i] == s.rest[i + 1] {
    }
  }

  /** A store of the last result's keeps what the fields say measured: it stores what that result measured. */
  lemma OneStoreIsLive(f: Fields, st: Store, since: seq<Result>)
    requires since != [] && Stores(st, since[|since| - 1]) && !st.SetMeasured?
    requires f.measured ==> SizeIn(since, f.retained) && BlockIn(since, f.blocked)
    requires f.lastFailed ==> FailureIn(since)
    ensures var f' := Stored(f, st);
            && f'.measured == f.measured
            && (f'.measured ==> SizeIn(since, f'.retained) && BlockIn(since, f'.blocked))
            && (f'.lastFailed ==> FailureIn(since))
  {
    var r := since[|since| - 1];
    if st.SetRetained? {
      assert SizeIn(since, st.n);
    } else if st.SetBlocked? {
      assert BlockIn(since, st.now);
    } else if st.SetFailed? && st.on {
      assert FailureIn(since);
    }
  }

  lemma StoreKeepsLive(s: State)
    requires s.rest != [] && Converges(s) && RestInv(s) && LiveInv(s)
    ensures LiveInv(Step(s, StoreNext))
    ensures !s.changing && s.f.measured ==> Step(s, StoreNext).f.measured
  {
    var s' := Step(s, StoreNext);
    if |s.rest| == 1 {
      assert s.rest[1..] == [] && AllStored(s.f, s.rest) == s'.f;
      ShownIsLive(s'.f, s.bound, s.since);
      assert !s.changing ==> Stores(s.rest[0], s.since[|s.since| - 1]);
    } else if !s.changing {
      OneStoreIsLive(s.f, s.rest[0], s.since);
    }
  }

  lemma StoreKeepsInv(s: State)
    requires Inv(s) && s.rest != []
    ensures Inv(Step(s, StoreNext))
  {
    StoreKeepsConverging(s);
    StoreKeepsSizes(s);
    StoreKeepsRest(s);
    StoreKeepsLive(s);
  }

  lemma LoadKeepsScrape(s: State)
    requires BoundInv(s) && RestInv(s) && LiveInv(s) && ScrapeInv(s) && Enabled(s, Load)
    ensures ScrapeInv(Step(s, Load))
  {
    var c, c' := s.scrape, Step(s, Load).scrape;
    if c.loads == 0 && c'.clean {
      assert |s.rest| == 4 ==> !s.rest[1].SetMeasured?;
      assert s.rest != FORGET;
    }
  }

  lemma LoadKeepsInv(s: State)
    requires Inv(s) && Enabled(s, Load)
    ensures Inv(Step(s, Load))
  {
    LoadKeepsScrape(s);
    assert SizeInv(Step(s, Load));
  }

  lemma RecordIsGuarded(bound: nat, r: Result, sized: bool)
    ensures Guarded(RecordStores(bound, r), sized)
  {
    var sts := RecordStores(bound, r);
    if r == None {
      GuardedWithout(sts, sized);
    } else {
      assert sts[1..][1..][0] == SetRetained(r.value.retained);
      GuardedOnceSized(sts[1..][1..][1..]);
      assert Guarded(sts[1..][1..], sized);
      assert Guarded(sts[1..], sized);
    }
  }

  lemma {:induction false} GuardedWithout(sts: seq<Store>, sized: bool)
    requires forall i :: 0 <= i < |sts| ==> sts[i] != SetMeasured(true)
    ensures Guarded(sts, sized)
    decreases |sts|
  {
    if sts != [] {
      GuardedWithout(sts[1..], sized || sts[0].SetRetained?);
    }
  }

  lemma {:induction false} GuardedOnceSized(sts: seq<Store>)
    ensures Guarded(sts, true)
    decreases |sts|
  {
    if sts != [] {
      GuardedOnceSized(sts[1..]);
    }
  }

  lemma RecordKeepsShowing(f: Fields, bound: nat, since: seq<Result>, r: Result)
    requires Shows(f, bound, since)
    ensures Shows(Recorded(f, bound, r), bound, since + [r])
  {
    assert (since + [r])[..|since|] == since;
  }

  lemma RecordConverges(f: Fields, bound: nat, since: seq<Result>, log: seq<Result>, r: Result)
    requires Shows(f, bound, since) && f.counters == CountersOf(log)
    ensures Shows(AllStored(f, RecordStores(bound, r)), bound, since + [r])
    ensures AllStored(f, RecordStores(bound, r)).counters == CountersOf(log + [r])
  {
    RecordStoresRecord(f, bound, r);
    RecordKeepsShowing(f, bound, since, r);
    assert (log + [r])[..|log|] == log;
  }

  lemma RecordKeepsBound(bound: nat, r: Result)
    ensures forall i :: 0 <= i < |RecordStores(bound, r)| && RecordStores(bound, r)[i].SetBound? ==>
                          RecordStores(bound, r)[i].n == bound
  {
  }

  lemma RecordStoresItsOwn(bound: nat, r: Result)
    ensures var sts := RecordStores(bound, r);
            && sts != [] && (forall i :: 0 <= i < |sts| ==> Stores(sts[i], r))
            && (forall i :: 0 <= i < |sts| - 1 ==> !sts[i].SetMeasured?)
  {
  }

  lemma RecordKeepsLive(s: State, s': State, r: Result)
    requires RestInv(s) && LiveInv(s) && ScrapeInv(s) && s.rest == [] && s'.f == s.f && s'.scrape == s.scrape
    requires s'.generation == s.generation && s'.bound == s.bound && s'.changing == s.changing
    requires s'.since == s.since + [r]
    ensures LiveInv(s') && ScrapeInv(s')
  {
    MoreSince(s.since, r);
  }

  lemma RecordKeepsInv(s: State, p: nat, r: Result)
    requires Inv(s) && Enabled(s, Record(p, r))
    ensures Inv(Step(s, Record(p, r)))
  {
    if s.passes[p].generation == s.generation {
      assert s.passes[p].bound == s.bound;
      RecordConverges(s.f, s.bound, s.since, s.log, r);
      RecordIsGuarded(s.bound, r, s.sizes != {});
      RecordKeepsBound(s.bound, r);
      RecordStoresItsOwn(s.bound, r);
      RecordKeepsLive(s, Step(s, Record(p, r)), r);
    }
  }

  lemma ChangeKeepsInv(s: State, bound: nat)
    requires Inv(s) && Enabled(s, Change(bound))
    ensures Inv(Step(s, Change(bound)))
  {
    ForgetForgets(s.f);
    GuardedWithout(FORGET, s.sizes != {});
  }

  lemma StepKeepsInv(s: State, e: Event)
    requires Inv(s) && Enabled(s, e)
    ensures Inv(Step(s, e))
  {
    match e
    case BeginPass =>
    case Record(p, r) => RecordKeepsInv(s, p, r);
    case Change(bound) => ChangeKeepsInv(s, bound);
    case StoreNext => StoreKeepsInv(s);
    case Load => LoadKeepsInv(s);
  }

  lemma {:induction false} RunKeepsInv(s: State, es: seq<Event>)
    requires Inv(s) && Run(s, es)
    ensures Inv(After(s, es))
    decreases |es|
  {
    if es != [] {
      StepKeepsInv(s, es[0]);
      RunKeepsInv(Step(s, es[0]), es[1..]);
    }
  }

  // ---------------------------------------------------------------- what holds after every run

  ghost predicate Reachable(s: State) {
    exists bound, es :: Run(Start(bound), es) && After(Start(bound), es) == s
  }

  lemma ReachableHoldsInv(s: State)
    requires Reachable(s)
    ensures Inv(s)
  {
    var bound, es :| Run(Start(bound), es) && After(Start(bound), es) == s;
    RunKeepsInv(Start(bound), es);
  }

  /** Between writes the snapshot is exactly what the passes of the present policy recorded: nothing
      before the first, the policy's own bound, the last success's size and block, whether the last
      failed; and the counters total every recorded result, whatever the policies since. */
  lemma SnapshotTellsThePresentPolicy(s: State)
    requires Reachable(s) && s.rest == []
    ensures Shows(s.f, s.bound, s.since) && s.f.counters == CountersOf(s.log)
    ensures s.since == [] ==> Snap(s.f) == None
    ensures s.since != [] && s.bound > 0 ==>
              var last := LastSuccess(s.since);
              Snap(s.f) == Some(Snapshot(if last.Some? then Some(last.value.retained) else None, s.bound,
                                         if last.Some? then last.value.blocked else None,
                                         s.since[|s.since| - 1] == None))
  {
    ReachableHoldsInv(s);
  }

  /** What a success contributes to a counter. */
  datatype Figure = BytesGone | SegmentsGone | Blocks(why: Blocked)

  function FigureOf(o: Outcome, figure: Figure): nat {
    match figure
    case BytesGone => o.bytesRemoved
    case SegmentsGone => o.segmentsRemoved
    case Blocks(why) => if o.blocked == Some(why) then 1 else 0
  }

  function Sum(log: seq<Result>, figure: Figure): nat {
    if log == [] then 0
    else Sum(log[..|log| - 1], figure) + if log[|log| - 1].Some? then FigureOf(log[|log| - 1].value, figure) else 0
  }

  function Failures(log: seq<Result>): nat {
    if log == [] then 0 else Failures(log[..|log| - 1]) + if log[|log| - 1] == None then 1 else 0
  }

  function Totals(log: seq<Result>): Counters {
    Counters(Failures(log), Sum(log, BytesGone), Sum(log, SegmentsGone), Sum(log, Blocks(CommittedFloor)),
             Sum(log, Blocks(ActiveSegment)))
  }

  lemma {:induction false} CountersAreTotals(log: seq<Result>)
    ensures CountersOf(log) == Totals(log)
  {
    if log != [] {
      CountersAreTotals(log[..|log| - 1]);
    }
  }

  /** Over every run, between writes, the counters are the totals of every result recorded, whatever the
      policies since: failures counted, bytes and segments reclaimed summed, each kind of block counted. */
  lemma RunCountersAreTotals(s: State)
    requires Reachable(s) && s.rest == []
    ensures s.f.counters == Totals(s.log)
  {
    ReachableHoldsInv(s);
    CountersAreTotals(s.log);
  }

  /** A pass is recorded exactly when the policy is still the one it began under; else it leaves no trace. */
  lemma RecordedExactlyWhenOfThePolicy(s: State, p: nat, r: Result)
    requires Enabled(s, Record(p, r))
    ensures var s' := Step(s, Record(p, r));
            && (s.passes[p].generation == s.generation ==>
                  && s'.log == s.log + [r] && s'.since == s.since + [r] && s'.f == s.f
                  && AllStored(s'.f, s'.rest) == Recorded(s.f, s.passes[p].bound, r))
            && (s.passes[p].generation != s.generation ==> s' == s)
  {
    RecordStoresRecord(s.f, s.passes[p].bound, r);
  }

  /** Whatever the interleaving, a scrape that reports a size reports one some successful pass measured,
      never the zero of fields not written yet. */
  lemma ScrapedSizeWasMeasured(s: State)
    requires Reachable(s) && s.scrape.size.Some?
    ensures s.scrape.size.value in s.sizes
  {
    ReachableHoldsInv(s);
  }

  /** A bound a scrape loads is the present policy's, unless a change is just forgetting the last one. */
  lemma LoadedBoundIsThePolicys(s: State)
    requires Reachable(s) && s.scrape.loads == 0 && Step(s, Load).scrape.bound != 0
    ensures Step(s, Load).scrape.bound == s.bound || s.rest == FORGET
  {
    ReachableHoldsInv(s);
  }

  /** A scrape is of one policy if none changed from its first load, nor was then changing: its bound is
      that policy's, and its size, its blocked state once it saw a size measured, and its failure flag are
      what passes under that policy found. */
  lemma ScrapeOfOnePolicy(s: State)
    requires Reachable(s) && s.scrape.loads == 5 && s.scrape.clean && s.scrape.generation == s.generation
    ensures s.scrape.bound == 0 || s.scrape.bound == s.bound
    ensures s.scrape.size.Some? ==> SizeIn(s.since, s.scrape.size.value)
    ensures s.scrape.measured ==> BlockIn(s.since, s.scrape.blocked)
    ensures s.scrape.failed ==> FailureIn(s.since)
  {
    ReachableHoldsInv(s);
  }

  // ---------------------------------------------------------------- a change in the middle of a scrape

  function Drain(n: nat): seq<Event> {
    if n == 0 then [] else [StoreNext] + Drain(n - 1)
  }

  /** Letting the lock's holder finish. */
  lemma {:induction false} DrainStores(s: State, n: nat)
    requires |s.rest| == n && (n == 0 ==> !s.changing)
    ensures Run(s, Drain(n))
    ensures var t := After(s, Drain(n));
            && t.f == AllStored(s.f, s.rest) && t.rest == [] && !t.changing && t.generation == s.generation
            && t.bound == s.bound && t.passes == s.passes && t.scrape == s.scrape
    decreases n
  {
    if n > 0 {
      var s' := Step(s, StoreNext);
      DrainStores(s', n - 1);
      assert Drain(n)[0] == StoreNext && Drain(n)[1..] == Drain(n - 1);
    }
  }

  lemma {:induction false} RunConcat(s: State, xs: seq<Event>, ys: seq<Event>)
    requires Run(s, xs) && Run(After(s, xs), ys)
    ensures Run(s, xs + ys) && After(s, xs + ys) == After(After(s, xs), ys)
    decreases |xs|
  {
    if xs == [] {
      assert xs + ys == ys;
    } else {
      assert (xs + ys)[1..] == xs[1..] + ys;
      RunConcat(Step(s, xs[0]), xs[1..], ys);
    }
  }

  lemma RunOne(s: State, e: Event)
    requires Enabled(s, e)
    ensures Run(s, [e]) && After(s, [e]) == Step(s, e)
  {
    assert [e][1..] == [];
    assert Run(Step(s, e), []);
  }

  /** One event, and then the lock's holder finishing. */
  lemma RunAndDrain(s: State, e: Event) returns (es: seq<Event>)
    requires Enabled(s, e) && (Step(s, e).rest == [] ==> !Step(s, e).changing)
    ensures Run(s, es)
    ensures var s', t := Step(s, e), After(s, es);
            && t.f == AllStored(s'.f, s'.rest) && t.rest == [] && !t.changing && t.generation == s'.generation
            && t.bound == s'.bound && t.passes == s'.passes && t.scrape == s'.scrape
  {
    var s' := Step(s, e);
    RunOne(s, e);
    DrainStores(s', |s'.rest|);
    RunConcat(s, [e], Drain(|s'.rest|));
    es := [e] + Drain(|s'.rest|);
  }

  /** A whole pass under the present policy. */
  lemma RunAPass(s: State, o: Outcome) returns (es: seq<Event>)
    requires s.rest == [] && !s.changing
    ensures Run(s, es)
    ensures var t := After(s, es);
            && t.f == Recorded(s.f, s.bound, Some(o)) && t.rest == [] && !t.changing && t.generation == s.generation
            && t.bound == s.bound && t.scrape == s.scrape
  {
    var s1 := Step(s, BeginPass);
    RunOne(s, BeginPass);
    var more := RunAndDrain(s1, Record(|s.passes|, Some(o)));
    RecordStoresRecord(s.f, s.bound, Some(o));
    RunConcat(s, [BeginPass], more);
    es := [BeginPass] + more;
  }

  lemma RunTwoLoads(s: State)
    requires s.scrape.loads == 1
    ensures Run(s, [Load, Load]) && After(s, [Load, Load]).scrape.bound == s.scrape.bound
    ensures After(s, [Load, Load]).generation == s.generation && After(s, [Load, Load]).bound == s.bound
    ensures s.f.measured ==> After(s, [Load, Load]).scrape.size == Some(s.f.retained)
  {
    var s1 := Step(s, Load);
    RunOne(s, Load);
    RunOne(s1, Load);
    RunConcat(s, [Load], [Load]);
    assert [Load] + [Load] == [Load, Load];
  }

  /** And the condition is needed: right after a scrape's first load, with the lock free, a change of policy
      can leave the scrape with the bound it loaded and any size whatever, measured under the new bound. */
  lemma ChangeMidScrapeCanMix(s: State, bound: nat, o: Outcome) returns (es: seq<Event>)
    requires s.rest == [] && !s.changing && s.scrape.loads == 1
    ensures Run(s, es)
    ensures var t := After(s, es);
            && t.generation == s.generation + 1 && t.bound == bound
            && t.scrape.bound == s.scrape.bound && t.scrape.size == Some(o.retained)
  {
    var first := RunAndDrain(s, Change(bound));
    var s1 := After(s, first);
    var second := RunAPass(s1, o);
    var s2 := After(s1, second);
    RunTwoLoads(s2);
    RunConcat(s1, second, [Load, Load]);
    RunConcat(s, first, second + [Load, Load]);
    es := first + (second + [Load, Load]);
  }

  // ---------------------------------------------------------------- when a scrape is of one pass

  predicate LoadedNow(was: Scrape, c: Scrape, n: nat) {
    was.loads <= n < c.loads
  }

  /** Of what the scrape `was`, it is now `c`, by loads of the fields `f` alone. */
  predicate LoadedOf(was: Scrape, f: Fields, c: Scrape) {
    && was.loads <= c.loads
    && c.bound == (if LoadedNow(was, c, 0) then f.bound else was.bound)
    && c.measured == (if LoadedNow(was, c, 1) then f.measured else was.measured)
    && c.size == (if LoadedNow(was, c, 2) then (if c.measured then Some(f.retained) else None) else was.size)
    && c.blocked == (if LoadedNow(was, c, 3) then f.blocked else was.blocked)
    && c.failed == (if LoadedNow(was, c, 4) then f.lastFailed else was.failed)
  }

  lemma OneLoadOf(was: Scrape, s: State)
    requires LoadedOf(was, s.f, s.scrape) && Enabled(s, Load)
    ensures LoadedOf(was, s.f, Loaded(s))
  {
  }

  /** With no store made meanwhile, whatever else begins. */
  lemma {:induction false} LoadsBetweenStores(was: Scrape, s: State, es: seq<Event>)
    requires Run(s, es) && StoreNext !in es && LoadedOf(was, s.f, s.scrape)
    ensures After(s, es).f == s.f && LoadedOf(was, s.f, After(s, es).scrape)
    decreases |es|
  {
    if es != [] {
      var next := Step(s, es[0]);
      if es[0].Load? {
        OneLoadOf(was, s);
      }
      LoadsBetweenStores(was, next, es[1..]);
    }
  }

  /** A scrape begun with the lock free, during which no store is made, is the snapshot of the fields as they
      stood: all of it tells of the results recorded by then, its size and blocked state of one pass. */
  lemma ScrapeBetweenStores(s: State, es: seq<Event>)
    requires Reachable(s) && s.rest == [] && s.scrape.loads == 0
    requires Run(s, es) && StoreNext !in es && After(s, es).scrape.loads == 5
    ensures var c, last := After(s, es).scrape, LastSuccess(s.since);
            && c.bound == (if s.since == [] then 0 else s.bound)
            && c.size == (if last.Some? then Some(last.value.retained) else None)
            && c.blocked == (if last.Some? then last.value.blocked else None)
            && c.failed == (s.since != [] && s.since[|s.since| - 1] == None)
  {
    ReachableHoldsInv(s);
    LoadsBetweenStores(s.scrape, s, es);
  }

  /** It takes less for the size and the blocked state alone: the lock free when the size is loaded, a pass
      of the present policy measured by then, and no store up to the load of the blocked state. */
  lemma SizeAndBlockedOfOnePass(s: State, es: seq<Event>)
    requires Reachable(s) && s.rest == [] && s.scrape.loads == 2 && s.scrape.measured && s.f.measured
    requires Run(s, es) && StoreNext !in es && After(s, es).scrape.loads >= 4
    ensures var c, last := After(s, es).scrape, LastSuccess(s.since);
            last.Some? && c.size == Some(last.value.retained) && c.blocked == last.value.blocked
  {
    ReachableHoldsInv(s);
    LoadsBetweenStores(s.scrape, s, es);
  }

  /** And otherwise they can come from two: a pass between the two loads leaves the size loaded beside
      whatever blocked that pass, under one policy throughout. */
  lemma PassMidScrapeCanMix(s: State, o: Outcome) returns (es: seq<Event>)
    requires s.rest == [] && !s.changing && s.scrape.loads == 3
    ensures Run(s, es)
    ensures var t := After(s, es);
            && t.generation == s.generation && t.scrape.loads == 4
            && t.scrape.size == s.scrape.size && t.scrape.blocked == o.blocked
  {
    var pass := RunAPass(s, o);
    var t := After(s, pass);
    RunOne(t, Load);
    RunConcat(s, pass, [Load]);
    es := pass + [Load];
  }
}
