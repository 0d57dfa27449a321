/**
  Exactly-once accounting of records that retention removed before they were
  read: the retention check of `kafka_source.rs`, its bookmark per partition and
  its per-topic debt to the loss counter.
 */
module RetentionLoss {
  import opened KafkaPartition
  import opened Options

  /** One answer of the broker: where this source would read next, and the
      oldest offset the partition still holds. */
  datatype Observation = Observation(next: Option<int>, low: int)

  function RetentionGap(next: Option<int>, low: int): (gap: Option<nat>) {
    if next.None? || next.value < 0 || next.value >= low then None else Some(low - next.value)
  }

  function NewlyLost(next: Option<int>, low: int, reportedThrough: Option<int>): nat {
    if RetentionGap(next, low).None? then 0
    else
      var countedFrom := Max(if reportedThrough.Some? then reportedThrough.value else next.value, next.value);
      if low - countedFrom < 0 then 0 else low - countedFrom
  }

  // ---------------------------------------------------------------- one partition, observed again and again

  function Bookmark(reported: Option<int>, o: Observation): Option<int> {
    if RetentionGap(o.next, o.low).None? then reported
    else if reported.None? then Some(o.low)
    else Some(Max(reported.value, o.low))
  }

  /** The watermark loss has been counted to after the observations. */
  function ReportedThrough(os: seq<Observation>): Option<int> {
    if os == [] then None else Bookmark(ReportedThrough(os[..|os| - 1]), os[|os| - 1])
  }

  predicate InSpan(x: int, lo: int, hi: int) {
    lo <= x < hi
  }

  ghost function Offsets(lo: int, hi: int): set<int> {
    set x: int | lo <= x < hi && InSpan(x, lo, hi)
  }

  lemma {:induction false} OffsetsSize(lo: int, hi: int)
    ensures |Offsets(lo, hi)| == if lo < hi then hi - lo else 0
    decreases hi - lo
  {
    if lo < hi {
      OffsetsSize(lo, hi - 1);
      assert Offsets(lo, hi) == Offsets(lo, hi - 1) + {hi - 1};
    } else {
      assert Offsets(lo, hi) == {};
    }
  }

  /** The offsets an observation shows to be gone unread. */
  ghost function GapOf(o: Observation): set<int> {
    if o.next.None? || o.next.value < 0 then {} else Offsets(o.next.value, o.low)
  }

  /** There is a gap exactly when offsets from the next one on are gone, and it is as long as they are many. */
  lemma GapExactlyWhen(o: Observation)
    ensures RetentionGap(o.next, o.low).Some? <==> GapOf(o) != {}
    ensures RetentionGap(o.next, o.low).Some? ==> RetentionGap(o.next, o.low).value == |GapOf(o)|
  {
    if o.next.Some? && o.next.value >= 0 {
      OffsetsSize(o.next.value, o.low);
      assert o.next.value < o.low ==> o.next.value in GapOf(o);
    }
  }

  /** Every offset any observation showed to be gone unread. */
  ghost function Lost(os: seq<Observation>): set<int> {
    if os == [] then {} else Lost(os[..|os| - 1]) + GapOf(os[|os| - 1])
  }

  /** The offsets an observation adds to the counter. */
  ghost function Fed(reported: Option<int>, o: Observation): set<int> {
    if RetentionGap(o.next, o.low).None? then {}
    else Offsets(Max(if reported.Some? then reported.value else o.next.value, o.next.value), o.low)
  }

  ghost function AllFed(os: seq<Observation>): set<int> {
    if os == [] then {}
    else AllFed(os[..|os| - 1]) + Fed(ReportedThrough(os[..|os| - 1]), os[|os| - 1])
  }

  /** What the counter receives over the observations. */
  function Counted(os: seq<Observation>): nat {
    if os == [] then 0
    else
      var before, o := os[..|os| - 1], os[|os| - 1];
      Counted(before) + NewlyLost(o.next, o.low, ReportedThrough(before))
  }

  lemma NewlyLostIsFed(reported: Option<int>, o: Observation)
    ensures NewlyLost(o.next, o.low, reported) == |Fed(reported, o)|
  {
    if RetentionGap(o.next, o.low).Some? {
      OffsetsSize(Max(if reported.Some? then reported.value else o.next.value, o.next.value), o.low);
    }
  }

  /** Everything lost so far lies below the bookmark. */
  lemma {:induction false} LostIsBelowBookmark(os: seq<Observation>, x: int)
    requires x in Lost(os)
    ensures ReportedThrough(os).Some? && x < ReportedThrough(os).value
  {
    var before := os[..|os| - 1];
    if x in Lost(before) {
      LostIsBelowBookmark(before, x);
    }
  }

  lemma {:induction false} FedIsLost(os: seq<Observation>)
    ensures AllFed(os) <= Lost(os)
  {
    if os != [] {
      FedIsLost(os[..|os| - 1]);
    }
  }

  /** Whatever the watermarks do, the counter counts distinct offsets, each of
      them one that some observation showed to be gone: no record twice. */
  lemma {:induction false} CounterCountsEachOffsetOnce(os: seq<Observation>)
    ensures Counted(os) == |AllFed(os)|
    ensures AllFed(os) <= Lost(os)
  {
    FedIsLost(os);
    if os != [] {
      var before, o := os[..|os| - 1], os[|os| - 1];
      CounterCountsEachOffsetOnce(before);
      var fed := Fed(ReportedThrough(before), o);
      NewlyLostIsFed(ReportedThrough(before), o);
      forall x | x in AllFed(before) ensures x !in fed {
        LostIsBelowBookmark(before, x);
      }
      assert AllFed(before) !! fed;
    }
  }

  /** The next offset never moves back from one gap to a later one. */
  ghost predicate NeverMovesBack(os: seq<Observation>) {
    forall i, j :: 0 <= i < j < |os| && GapOf(os[i]) != {} && GapOf(os[j]) != {} ==>
      os[i].next.value <= os[j].next.value
  }

  /** Below the bookmark and at or above every earlier gap's start, everything is lost. */
  lemma {:induction false} BelowBookmarkIsLost(os: seq<Observation>, x: int)
    requires ReportedThrough(os).Some? && x < ReportedThrough(os).value
    requires forall i :: 0 <= i < |os| && GapOf(os[i]) != {} ==> os[i].next.value <= x
    ensures x in Lost(os)
  {
    var before, o := os[..|os| - 1], os[|os| - 1];
    if RetentionGap(o.next, o.low).Some? {
      assert o.next.value in GapOf(o);
    }
    if x !in GapOf(o) {
      forall i | 0 <= i < |before| && GapOf(before[i]) != {} ensures before[i].next.value <= x {
        assert before[i] == os[i];
      }
      BelowBookmarkIsLost(before, x);
    }
  }

  lemma GapIsFedOrLost(os: seq<Observation>, o: Observation, x: int)
    requires NeverMovesBack(os + [o]) && x in GapOf(o)
    ensures x in Fed(ReportedThrough(os), o) || x in Lost(os)
  {
    if x !in Fed(ReportedThrough(os), o) {
      var more := os + [o];
      forall i | 0 <= i < |os| && GapOf(os[i]) != {} ensures os[i].next.value <= x {
        assert more[i] == os[i] && more[|os|] == o;
      }
      BelowBookmarkIsLost(os, x);
    }
  }

  /** While the next offset never moves back, the counter misses nothing: it
      has counted exactly the offsets any observation showed to be gone. */
  lemma {:induction false} CounterMissesNothing(os: seq<Observation>)
    requires NeverMovesBack(os)
    ensures AllFed(os) == Lost(os)
    ensures Counted(os) == |Lost(os)|
  {
    CounterCountsEachOffsetOnce(os);
    if os != [] {
      var before, o := os[..|os| - 1], os[|os| - 1];
      assert forall i :: 0 <= i < |before| ==> before[i] == os[i];
      CounterMissesNothing(before);
      assert os == before + [o];
      forall x | x in GapOf(o) ensures x in AllFed(os) {
        GapIsFedOrLost(before, o, x);
      }
    }
  }

  /** The part of a gap below the bookmark had all been seen to be gone before. */
  ghost predicate SeenBelowBookmark(os: seq<Observation>, o: Observation) {
    forall x :: x in GapOf(o) && ReportedThrough(os).Some? && x < ReportedThrough(os).value ==> x in Lost(os)
  }

  /** A counter that has missed nothing so far misses nothing of the next observation exactly then. */
  lemma NextIsCountedExactlyWhen(os: seq<Observation>, o: Observation)
    requires AllFed(os) == Lost(os)
    ensures AllFed(os + [o]) == Lost(os + [o]) <==> SeenBelowBookmark(os, o)
  {
    assert (os + [o])[..|os|] == os;
    var fed := Fed(ReportedThrough(os), o);
    assert forall x :: x in GapOf(o) && x !in fed ==> ReportedThrough(os).Some? && x < ReportedThrough(os).value;
    forall x | x in GapOf(o) && ReportedThrough(os).Some? && x < ReportedThrough(os).value && x !in Lost(os)
      ensures x in Lost(os + [o]) && x !in AllFed(os + [o])
    {
    }
  }

  /** An offset once missed is missed for good. */
  lemma MissedStaysMissed(os: seq<Observation>, o: Observation)
    requires AllFed(os + [o]) == Lost(os + [o])
    ensures AllFed(os) == Lost(os)
  {
    assert (os + [o])[..|os|] == os;
    FedIsLost(os);
    forall x | x in Lost(os) ensures x in AllFed(os) {
      LostIsBelowBookmark(os, x);
      assert x in Lost(os + [o]) && x !in Fed(ReportedThrough(os), o);
    }
  }

  /** Each observation's gap, where it lies below the bookmark of its time, had been seen to be gone before. */
  ghost predicate Complete(os: seq<Observation>) {
    forall k :: 0 <= k < |os| ==> SeenBelowBookmark(os[..k], os[k])
  }

  /** In general, over any observations: the counter misses nothing exactly when they are complete. */
  lemma {:induction false} CounterMissesNothingExactlyWhen(os: seq<Observation>)
    ensures AllFed(os) == Lost(os) <==> Complete(os)
  {
    if os != [] {
      var before, o := os[..|os| - 1], os[|os| - 1];
      assert os == before + [o];
      CounterMissesNothingExactlyWhen(before);
      assert forall k :: 0 <= k < |before| ==> os[..k] == before[..k] && os[k] == before[k];
      assert os[..|before|] == before;
      if AllFed(os) == Lost(os) {
        MissedStaysMissed(before, o);
      }
      if AllFed(before) == Lost(before) {
        NextIsCountedExactlyWhen(before, o);
      }
      assert SeenBelowBookmark(os[..|before|], os[|before|]) <==> SeenBelowBookmark(before, o);
    }
  }

  /** A next offset that moves back below a reported gap: offset 5 is gone
      unread and is never counted. */
  lemma MovingBackHidesLoss()
    ensures var os := [Observation(Some(10), 20)];
            var o := Observation(Some(5), 20);
            AllFed(os) == Lost(os) && 5 in Lost(os + [o]) && 5 !in AllFed(os + [o])
  {
    var first, o := Observation(Some(10), 20), Observation(Some(5), 20);
    var os := [first];
    assert os[..0] == [] && (os + [o])[..1] == os;
    assert 5 in GapOf(o) && 5 !in GapOf(first);
    assert ReportedThrough(os) == Some(20);
  }

  // ---------------------------------------------------------------- the ledger over all partitions

  /** What a check saw of one partition. */
  datatype Seen = Seen(partition: Partition, observed: Observation)

  datatype Ledger = Ledger(reported: map<Partition, int>, pending: map<string, nat>)

  const EMPTY: Ledger := Ledger(map[], map[])

  function ReportedOf(reported: map<Partition, int>, p: Partition): Option<int> {
    if p in reported then Some(reported[p]) else None
  }

  function PendingOf(pending: map<string, nat>, topic: string): nat {
    if topic in pending then pending[topic] else 0
  }

  function LossOf(reported: map<Partition, int>, s: Seen): nat {
    NewlyLost(s.observed.next, s.observed.low, ReportedOf(reported, s.partition))
  }

  /** The debt after a check, all of it scored against the bookmarks the check began with. */
  function Owe(reported: map<Partition, int>, pending: map<string, nat>, seen: seq<Seen>): map<string, nat> {
    if seen == [] then pending
    else
      var s := seen[|seen| - 1];
      var before := Owe(reported, pending, seen[..|seen| - 1]);
      if LossOf(reported, s) > 0
      then before[s.partition.topic := PendingOf(before, s.partition.topic) + LossOf(reported, s)]
      else before
  }

  function BookmarkAll(reported: map<Partition, int>, seen: seq<Seen>): map<Partition, int> {
    if seen == [] then reported
    else
      var s := seen[|seen| - 1];
      var before := BookmarkAll(reported, seen[..|seen| - 1]);
      if RetentionGap(s.observed.next, s.observed.low).Some?
      then
        var entry := if s.partition in before then before[s.partition] else s.observed.low;
        before[s.partition := Max(entry, s.observed.low)]
      else before
  }

  function GapsOnly(seen: seq<Seen>): (r: seq<Seen>)
    ensures |r| <= |seen|
  {
    if seen == [] then []
    else
      var s := seen[|seen| - 1];
      GapsOnly(seen[..|seen| - 1]) + (if RetentionGap(s.observed.next, s.observed.low).Some? then [s] else [])
  }

  ghost predicate AllGaps(seen: seq<Seen>) {
    forall i :: 0 <= i < |seen| ==> RetentionGap(seen[i].observed.next, seen[i].observed.low).Some?
  }

  lemma {:induction false} BookmarksNeedGapsOnly(reported: map<Partition, int>, seen: seq<Seen>)
    ensures AllGaps(GapsOnly(seen))
    ensures BookmarkAll(reported, GapsOnly(seen)) == BookmarkAll(reported, seen)
  {
    if seen != [] {
      var before, s := GapsOnly(seen[..|seen| - 1]), seen[|seen| - 1];
      BookmarksNeedGapsOnly(reported, seen[..|seen| - 1]);
      if RetentionGap(s.observed.next, s.observed.low).Some? {
        assert (before + [s])[..|before|] == before;
      } else {
        assert before + [] == before;
      }
    }
  }

  function Check(l: Ledger, seen: seq<Seen>): Ledger {
    Ledger(BookmarkAll(l.reported, seen), Owe(l.reported, l.pending, seen))
  }

  function Prune(l: Ledger, live: set<string>): Ledger {
    l.(reported := map p | p in l.reported && p.topic in live :: l.reported[p])
  }

  class RetentionLedger {
    var reported: map<Partition, int>
    var pending: map<string, nat>

    ghost function View(): Ledger
      reads this
    {
      Ledger(reported, pending)
    }

    constructor ()
      ensures View() == EMPTY
    {
      reported, pending := map[], map[];
    }

    /** The check: bookmarks are read while it runs and written after it. */
    method ReportGaps(seen: seq<Seen>)
      modifies this
      ensures View() == Check(old(View()), seen)
    {
      var newlyReported: seq<Seen> := [];
      var i := 0;
      while i < |seen|
        invariant 0 <= i <= |seen|
        invariant reported == old(reported)
        invariant pending == Owe(old(reported), old(pending), seen[..i])
        invariant newlyReported == GapsOnly(seen[..i])
      {
        var s := seen[i];
        assert seen[..i + 1][..i] == seen[..i];
        if RetentionGap(s.observed.next, s.observed.low).Some? {
          var newly := LossOf(reported, s);
          if newly > 0 {
            pending := pending[s.partition.topic := PendingOf(pending, s.partition.topic) + newly];
          }
          newlyReported := newlyReported + [s];
        }
        i := i + 1;
      }
      assert seen[..i] == seen;
      BookmarksNeedGapsOnly(reported, seen);
      RecordWatermarks(newlyReported);
    }

    /** Never overwrites a bookmark downward. */
    method RecordWatermarks(newlyReported: seq<Seen>)
      requires AllGaps(newlyReported)
      modifies this`reported
      ensures reported == BookmarkAll(old(reported), newlyReported)
    {
      var i := 0;
      while i < |newlyReported|
        invariant 0 <= i <= |newlyReported|
        invariant reported == BookmarkAll(old(reported), newlyReported[..i])
      {
        var s := newlyReported[i];
        assert newlyReported[..i + 1][..i] == newlyReported[..i];
        var entry := if s.partition in reported then reported[s.partition] else s.observed.low;
        reported := reported[s.partition := Max(entry, s.observed.low)];
        i := i + 1;
      }
      assert newlyReported[..i] == newlyReported;
    }

    /** Pays the whole debt: called only by a pass that returns a report. */
    method TakePending() returns (paid: map<string, nat>)
      modifies this
      ensures paid == old(pending) && View() == old(View()).(pending := map[])
    {
      paid := pending;
      pending := map[];
    }

    method PruneDeadTopics(live: set<string>)
      modifies this
      ensures View() == Prune(old(View()), live)
    {
      reported := map p | p in reported && p.topic in live :: reported[p];
    }
  }

  // ---------------------------------------------------------------- every history of passes

  /** A pass checks (or its interval gate skips the check) and then returns a
      report or fails; an empty assignment reports without checking. */
  datatype Event =
    | PassReports(seen: seq<Seen>)
    | PassFails(seen: seq<Seen>)
    | EmptyPassReports
    | TopicsPruned(live: set<string>)

  function Checked(l: Ledger, e: Event): Ledger {
    if e.PassReports? || e.PassFails? then Check(l, e.seen) else l
  }

  function Apply(l: Ledger, e: Event): Ledger {
    match e
    case PassReports(seen) => Check(l, seen).(pending := map[])
    case PassFails(seen) => Check(l, seen)
    case EmptyPassReports => l.(pending := map[])
    case TopicsPruned(live) => Prune(l, live)
  }

  function Run(h: seq<Event>): Ledger {
    if h == [] then EMPTY else Apply(Run(h[..|h| - 1]), h[|h| - 1])
  }

  /** All loss of a topic that any check of the history counted. */
  function CountedFor(reported: map<Partition, int>, seen: seq<Seen>, topic: string): nat {
    if seen == [] then 0
    else
      CountedFor(reported, seen[..|seen| - 1], topic)
      + (if seen[|seen| - 1].partition.topic == topic then LossOf(reported, seen[|seen| - 1]) else 0)
  }

  function EverCounted(h: seq<Event>, topic: string): nat {
    if h == [] then 0
    else
      var before, e := h[..|h| - 1], h[|h| - 1];
      EverCounted(before, topic)
      + (if e.PassReports? || e.PassFails? then CountedFor(Run(before).reported, e.seen, topic) else 0)
  }

  /** All loss of a topic that a report of the history carried. */
  function EverDelivered(h: seq<Event>, topic: string): nat {
    if h == [] then 0
    else
      var before, e := h[..|h| - 1], h[|h| - 1];
      EverDelivered(before, topic)
      + (if e.PassReports? || e.EmptyPassReports? then PendingOf(Checked(Run(before), e).pending, topic) else 0)
  }

  lemma {:induction false} OweAddsCounted(reported: map<Partition, int>, pending: map<string, nat>, seen: seq<Seen>,
                                          topic: string)
    ensures PendingOf(Owe(reported, pending, seen), topic)
        == PendingOf(pending, topic) + CountedFor(reported, seen, topic)
  {
    if seen != [] {
      OweAddsCounted(reported, pending, seen[..|seen| - 1], topic);
    }
  }

  /** Per topic, what was delivered and what is still owed are together all
      loss ever counted, over every mix of failed, successful and empty passes
      and of topic pruning. */
  lemma {:induction false} LossIsConserved(h: seq<Event>, topic: string)
    ensures EverDelivered(h, topic) + PendingOf(Run(h).pending, topic) == EverCounted(h, topic)
  {
    if h != [] {
      var before, e := h[..|h| - 1], h[|h| - 1];
      LossIsConserved(before, topic);
      var l := Run(before);
      if e.PassReports? || e.PassFails? {
        OweAddsCounted(l.reported, l.pending, e.seen, topic);
      }
    }
  }

  /** Each partition is looked at once in a check. */
  ghost predicate Distinct(seen: seq<Seen>) {
    forall i, j :: 0 <= i < j < |seen| ==> seen[i].partition != seen[j].partition
  }

  ghost predicate WellFormed(h: seq<Event>) {
    forall i :: 0 <= i < |h| && (h[i].PassReports? || h[i].PassFails?) ==> Distinct(h[i].seen)
  }

  /** The observations a check made of a partition: none, or one. */
  function SeenOf(seen: seq<Seen>, p: Partition): seq<Observation> {
    if seen == [] then []
    else
      SeenOf(seen[..|seen| - 1], p) + (if seen[|seen| - 1].partition == p then [seen[|seen| - 1].observed] else [])
  }

  /** The observations of a partition since its topic was last pruned. */
  function ObservationsOf(h: seq<Event>, p: Partition): seq<Observation> {
    if h == [] then []
    else
      var before := ObservationsOf(h[..|h| - 1], p);
      match h[|h| - 1]
      case PassReports(seen) => before + SeenOf(seen, p)
      case PassFails(seen) => before + SeenOf(seen, p)
      case EmptyPassReports => before
      case TopicsPruned(live) => if p.topic in live then before else []
  }

  lemma {:induction false} UnseenKeepsBookmark(reported: map<Partition, int>, seen: seq<Seen>, p: Partition)
    requires forall i :: 0 <= i < |seen| ==> seen[i].partition != p
    ensures ReportedOf(BookmarkAll(reported, seen), p) == ReportedOf(reported, p)
    ensures SeenOf(seen, p) == []
  {
    if seen != [] {
      UnseenKeepsBookmark(reported, seen[..|seen| - 1], p);
    }
  }

  lemma {:induction false} CheckBookmarks(reported: map<Partition, int>, seen: seq<Seen>, p: Partition)
    requires Distinct(seen)
    ensures SeenOf(seen, p) == [] ==> ReportedOf(BookmarkAll(reported, seen), p) == ReportedOf(reported, p)
    ensures SeenOf(seen, p) != [] ==>
              && |SeenOf(seen, p)| == 1
              && ReportedOf(BookmarkAll(reported, seen), p) == Bookmark(ReportedOf(reported, p), SeenOf(seen, p)[0])
  {
    if seen != [] {
      var before, s := seen[..|seen| - 1], seen[|seen| - 1];
      if s.partition == p {
        UnseenKeepsBookmark(reported, before, p);
      } else {
        CheckBookmarks(reported, before, p);
      }
    }
  }

  /** The ledger's bookmark of a partition is the one its own observations give:
      so each check of it counts exactly the gap's offsets at or above it. */
  lemma {:induction false} LedgerFollowsEachPartition(h: seq<Event>, p: Partition)
    requires WellFormed(h)
    ensures ReportedOf(Run(h).reported, p) == ReportedThrough(ObservationsOf(h, p))
  {
    if h != [] {
      var before, e := h[..|h| - 1], h[|h| - 1];
      LedgerFollowsEachPartition(before, p);
      if e.PassReports? || e.PassFails? {
        CheckBookmarks(Run(before).reported, e.seen, p);
        var was, now := ObservationsOf(before, p), SeenOf(e.seen, p);
        if now != [] {
          assert (was + now)[..|was|] == was && (was + now)[|was|] == now[0];
        } else {
          assert was + now == was;
        }
      }
    }
  }

  /** What a check owes for a partition is the number of offsets it adds to those
      counted of the partition. */
  lemma CheckOwesNewOffsets(h: seq<Event>, s: Seen)
    requires WellFormed(h)
    ensures var os := ObservationsOf(h, s.partition);
            LossOf(Run(h).reported, s) == |AllFed(os + [s.observed])| - |AllFed(os)|
  {
    var os := ObservationsOf(h, s.partition);
    LedgerFollowsEachPartition(h, s.partition);
    CounterCountsEachOffsetOnce(os);
    CounterCountsEachOffsetOnce(os + [s.observed]);
    assert (os + [s.observed])[..|os|] == os;
  }

  // ---------------------------------------------------------------- the ledger counts each lost offset once

  /** Distinct offsets counted of a partition in the lives of its topic that pruning has ended. */
  ghost function FedInEndedLives(h: seq<Event>, p: Partition): nat {
    if h == [] then 0
    else
      var before, e := h[..|h| - 1], h[|h| - 1];
      FedInEndedLives(before, p)
      + if e.TopicsPruned? && p.topic !in e.live then |AllFed(ObservationsOf(before, p))| else 0
  }

  /** And in all its lives: an offset counted in two of them is two lost records. */
  ghost function FedOf(h: seq<Event>, p: Partition): nat {
    FedInEndedLives(h, p) + |AllFed(ObservationsOf(h, p))|
  }

  ghost function FedOfAll(h: seq<Event>, ps: seq<Partition>): nat {
    if ps == [] then 0 else FedOfAll(h, ps[..|ps| - 1]) + FedOf(h, ps[|ps| - 1])
  }

  /** The loss one check counts of one partition. */
  function LossIn(reported: map<Partition, int>, seen: seq<Seen>, p: Partition): nat {
    if seen == [] then 0
    else
      LossIn(reported, seen[..|seen| - 1], p)
      + if seen[|seen| - 1].partition == p then LossOf(reported, seen[|seen| - 1]) else 0
  }

  function LossInAll(reported: map<Partition, int>, seen: seq<Seen>, ps: seq<Partition>): nat {
    if ps == [] then 0 else LossInAll(reported, seen, ps[..|ps| - 1]) + LossIn(reported, seen, ps[|ps| - 1])
  }

  ghost predicate NoRepeats(ps: seq<Partition>) {
    forall i, j :: 0 <= i < j < |ps| ==> ps[i] != ps[j]
  }

  lemma {:induction false} OneMoreSeen(reported: map<Partition, int>, seen: seq<Seen>, s: Seen, ps: seq<Partition>)
    requires NoRepeats(ps)
    ensures LossInAll(reported, seen + [s], ps)
         == LossInAll(reported, seen, ps) + if s.partition in ps then LossOf(reported, s) else 0
  {
    if ps != [] {
      OneMoreSeen(reported, seen, s, ps[..|ps| - 1]);
      assert (seen + [s])[..|seen|] == seen;
      assert ps == ps[..|ps| - 1] + [ps[|ps| - 1]];
    }
  }

  lemma {:induction false} NothingSeen(reported: map<Partition, int>, ps: seq<Partition>)
    ensures LossInAll(reported, [], ps) == 0
  {
    if ps != [] {
      NothingSeen(reported, ps[..|ps| - 1]);
    }
  }

  /** `ps` lists a topic's partitions: all that a check looked at, and none of another topic. */
  ghost predicate Lists(ps: seq<Partition>, seen: seq<Seen>, topic: string) {
    forall i :: 0 <= i < |seen| ==> (seen[i].partition.topic == topic <==> seen[i].partition in ps)
  }

  lemma {:induction false} CountedByPartition(reported: map<Partition, int>, seen: seq<Seen>, topic: string,
                                              ps: seq<Partition>)
    requires NoRepeats(ps) && Lists(ps, seen, topic)
    ensures CountedFor(reported, seen, topic) == LossInAll(reported, seen, ps)
  {
    if seen == [] {
      NothingSeen(reported, ps);
    } else {
      var before, s := seen[..|seen| - 1], seen[|seen| - 1];
      assert forall i :: 0 <= i < |before| ==> before[i] == seen[i];
      CountedByPartition(reported, before, topic, ps);
      OneMoreSeen(reported, before, s, ps);
      assert seen == before + [s];
    }
  }

  lemma {:induction false} UnseenLosesNothing(reported: map<Partition, int>, seen: seq<Seen>, p: Partition)
    requires forall i :: 0 <= i < |seen| ==> seen[i].partition != p
    ensures LossIn(reported, seen, p) == 0 && SeenOf(seen, p) == []
  {
    if seen != [] {
      UnseenLosesNothing(reported, seen[..|seen| - 1], p);
    }
  }

  /** What a check counts of a partition is what its observation adds to the distinct offsets counted. */
  lemma {:induction false} LossInIsFed(reported: map<Partition, int>, seen: seq<Seen>, p: Partition,
                                       os: seq<Observation>)
    requires Distinct(seen) && ReportedOf(reported, p) == ReportedThrough(os)
    ensures |AllFed(os + SeenOf(seen, p))| == |AllFed(os)| + LossIn(reported, seen, p)
  {
    if seen == [] {
      assert os + [] == os;
    } else {
      var before, s := seen[..|seen| - 1], seen[|seen| - 1];
      if s.partition == p {
        UnseenLosesNothing(reported, before, p);
        assert os + SeenOf(seen, p) == os + [s.observed] && (os + [s.observed])[..|os|] == os;
        CounterCountsEachOffsetOnce(os);
        CounterCountsEachOffsetOnce(os + [s.observed]);
      } else {
        LossInIsFed(reported, before, p, os);
        assert SeenOf(seen, p) == SeenOf(before, p);
      }
    }
  }

  /** One event moves a partition's total by what it counts of it. */
  lemma FedStep(h: seq<Event>, e: Event, p: Partition)
    requires WellFormed(h + [e])
    ensures FedOf(h + [e], p)
         == FedOf(h, p) + if e.PassReports? || e.PassFails? then LossIn(Run(h).reported, e.seen, p) else 0
  {
    var more := h + [e];
    assert more[..|h|] == h && more[|h|] == e;
    assert WellFormed(h) by {
      assert forall i :: 0 <= i < |h| ==> h[i] == more[i];
    }
    if e.PassReports? || e.PassFails? {
      LedgerFollowsEachPartition(h, p);
      LossInIsFed(Run(h).reported, e.seen, p, ObservationsOf(h, p));
    }
  }

  lemma {:induction false} FedStepAll(h: seq<Event>, e: Event, ps: seq<Partition>)
    requires WellFormed(h + [e])
    ensures FedOfAll(h + [e], ps)
         == FedOfAll(h, ps) + if e.PassReports? || e.PassFails? then LossInAll(Run(h).reported, e.seen, ps) else 0
  {
    if ps != [] {
      FedStepAll(h, e, ps[..|ps| - 1]);
      FedStep(h, e, ps[|ps| - 1]);
    }
  }

  lemma {:induction false} NothingFed(ps: seq<Partition>)
    ensures FedOfAll([], ps) == 0
  {
    if ps != [] {
      NothingFed(ps[..|ps| - 1]);
    }
  }

  ghost predicate ListsAll(ps: seq<Partition>, h: seq<Event>, topic: string) {
    forall i :: 0 <= i < |h| && (h[i].PassReports? || h[i].PassFails?) ==> Lists(ps, h[i].seen, topic)
  }

  /** Over every history, all loss counted of a topic is the number of distinct offsets counted, summed over
      its partitions and their lives: none is counted twice in one life. */
  lemma {:induction false} LedgerCountsEachOffsetOnce(h: seq<Event>, topic: string, ps: seq<Partition>)
    requires WellFormed(h) && NoRepeats(ps) && ListsAll(ps, h, topic)
    ensures EverCounted(h, topic) == FedOfAll(h, ps)
    ensures EverDelivered(h, topic) + PendingOf(Run(h).pending, topic) == FedOfAll(h, ps)
  {
    LossIsConserved(h, topic);
    if h == [] {
      NothingFed(ps);
    } else {
      var before, e := h[..|h| - 1], h[|h| - 1];
      assert h == before + [e] && forall i :: 0 <= i < |before| ==> before[i] == h[i];
      LedgerCountsEachOffsetOnce(before, topic, ps);
      FedStepAll(before, e, ps);
      if e.PassReports? || e.PassFails? {
        assert h[|before|] == e;
        CountedByPartition(Run(before).reported, e.seen, topic, ps);
      }
    }
  }

  // ---------------------------------------------------------------- and when it misses none

  /** Distinct offsets of a partition seen to be gone in the lives of its topic that pruning has ended. */
  ghost function LostInEndedLives(h: seq<Event>, p: Partition): nat {
    if h == [] then 0
    else
      var before, e := h[..|h| - 1], h[|h| - 1];
      LostInEndedLives(before, p)
      + if e.TopicsPruned? && p.topic !in e.live then |Lost(ObservationsOf(before, p))| else 0
  }

  ghost function LostOf(h: seq<Event>, p: Partition): nat {
    LostInEndedLives(h, p) + |Lost(ObservationsOf(h, p))|
  }

  ghost function LostOfAll(h: seq<Event>, ps: seq<Partition>): nat {
    if ps == [] then 0 else LostOfAll(h, ps[..|ps| - 1]) + LostOf(h, ps[|ps| - 1])
  }

  ghost predicate CompleteInEndedLives(h: seq<Event>, p: Partition) {
    h == [] ||
    (var before, e := h[..|h| - 1], h[|h| - 1];
     && CompleteInEndedLives(before, p)
     && (e.TopicsPruned? && p.topic !in e.live ==> Complete(ObservationsOf(before, p))))
  }

  /** What was observed of the partition is complete in each life of its topic. */
  ghost predicate EveryLifeComplete(h: seq<Event>, p: Partition) {
    CompleteInEndedLives(h, p) && Complete(ObservationsOf(h, p))
  }

  lemma SubsetSize(a: set<int>, b: set<int>)
    requires a <= b
    ensures |a| <= |b| && (|a| == |b| <==> a == b)
  {
    assert b == a + (b - a);
    assert |b| == |a| + |b - a|;
  }

  lemma CountIsAllExactlyWhen(os: seq<Observation>)
    ensures |AllFed(os)| <= |Lost(os)| && (|AllFed(os)| == |Lost(os)| <==> Complete(os))
  {
    FedIsLost(os);
    SubsetSize(AllFed(os), Lost(os));
    CounterMissesNothingExactlyWhen(os);
  }

  lemma {:induction false} EndedLivesCountAllExactlyWhen(h: seq<Event>, p: Partition)
    ensures FedInEndedLives(h, p) <= LostInEndedLives(h, p)
    ensures FedInEndedLives(h, p) == LostInEndedLives(h, p) <==> CompleteInEndedLives(h, p)
  {
    if h != [] {
      var before := h[..|h| - 1];
      EndedLivesCountAllExactlyWhen(before, p);
      CountIsAllExactlyWhen(ObservationsOf(before, p));
    }
  }

  lemma LivesCountAllExactlyWhen(h: seq<Event>, p: Partition)
    ensures FedOf(h, p) <= LostOf(h, p) && (FedOf(h, p) == LostOf(h, p) <==> EveryLifeComplete(h, p))
  {
    EndedLivesCountAllExactlyWhen(h, p);
    CountIsAllExactlyWhen(ObservationsOf(h, p));
  }

  /** So it is of every partition listed. */
  ghost predicate AllComplete(h: seq<Event>, ps: seq<Partition>) {
    ps == [] || (AllComplete(h, ps[..|ps| - 1]) && EveryLifeComplete(h, ps[|ps| - 1]))
  }

  lemma SumsAgree(fed: nat, lost: nat, all: bool, fedToo: nat, lostToo: nat, allToo: bool)
    requires fed <= lost && (fed == lost <==> all) && fedToo <= lostToo && (fedToo == lostToo <==> allToo)
    ensures fed + fedToo <= lost + lostToo && (fed + fedToo == lost + lostToo <==> all && allToo)
  {
  }

  lemma {:induction false} PartitionsCountAllExactlyWhen(h: seq<Event>, ps: seq<Partition>)
    ensures FedOfAll(h, ps) <= LostOfAll(h, ps) && (FedOfAll(h, ps) == LostOfAll(h, ps) <==> AllComplete(h, ps))
  {
    if ps != [] {
      var before, p := ps[..|ps| - 1], ps[|ps| - 1];
      PartitionsCountAllExactlyWhen(h, before);
      LivesCountAllExactlyWhen(h, p);
      SumsAgree(FedOfAll(h, before), LostOfAll(h, before), AllComplete(h, before),
                FedOf(h, p), LostOf(h, p), EveryLifeComplete(h, p));
    }
  }

  /** Over every history, what is counted of a topic, delivered or still owed, is never more than the
      distinct offsets seen to be gone, summed over its partitions and their lives; and it is all of them
      exactly when, in every life of every partition, no gap reached below the bookmark of its time into
      offsets not seen to be gone before. */
  lemma LedgerMissesNothingExactlyWhen(h: seq<Event>, topic: string, ps: seq<Partition>)
    requires WellFormed(h) && NoRepeats(ps) && ListsAll(ps, h, topic)
    ensures EverDelivered(h, topic) + PendingOf(Run(h).pending, topic) == EverCounted(h, topic) <= LostOfAll(h, ps)
    ensures EverCounted(h, topic) == LostOfAll(h, ps) <==> AllComplete(h, ps)
  {
    LedgerCountsEachOffsetOnce(h, topic, ps);
    PartitionsCountAllExactlyWhen(h, ps);
  }

  lemma OneMoreObservation(os: seq<Observation>, o: Observation)
    ensures Lost(os + [o]) == Lost(os) + GapOf(o)
    ensures AllFed(os + [o]) == AllFed(os) + Fed(ReportedThrough(os), o)
    ensures ReportedThrough(os + [o]) == Bookmark(ReportedThrough(os), o)
  {
    assert (os + [o])[..|os|] == os;
  }

  lemma NextMovedBack(o1: Observation, o2: Observation, back: int, next: int, low: int)
    requires 0 <= back < next < low && o1 == Observation(Some(next), low) && o2 == Observation(Some(back), low)
    ensures |Lost([o1] + [o2])| == low - back && |AllFed([o1] + [o2])| == low - next
  {
    OneMoreObservation([], o1);
    assert [] + [o1] == [o1];
    OneMoreObservation([o1], o2);
    assert Lost([o1] + [o2]) == Offsets(back, low);
    assert AllFed([o1] + [o2]) == Offsets(next, low);
    OffsetsSize(back, low);
    OffsetsSize(next, low);
  }

  /** A pass over one partition. */
  lemma OnePass(h: seq<Event>, p: Partition, o: Observation)
    ensures var more := h + [PassReports([Seen(p, o)])];
            && ObservationsOf(more, p) == ObservationsOf(h, p) + [o]
            && FedInEndedLives(more, p) == FedInEndedLives(h, p)
            && LostInEndedLives(more, p) == LostInEndedLives(h, p)
  {
    var seen := [Seen(p, o)];
    var more := h + [PassReports(seen)];
    assert more[..|h|] == h && more[|h|] == PassReports(seen);
    assert seen[..0] == [] && SeenOf(seen, p) == [o];
  }

  lemma OnePartition(h: seq<Event>, p: Partition)
    ensures FedOfAll(h, [p]) == FedOf(h, p) && LostOfAll(h, [p]) == LostOf(h, p)
  {
    assert [p][..0] == [];
  }

  /** Two passes that report, the second with the next offset moved back: every offset from there on is seen
      to be gone, and those from the first next offset on are counted. */
  lemma PassesCanMissLoss(p: Partition, back: int, next: int, low: int)
    requires 0 <= back < next < low
    ensures var h := [PassReports([Seen(p, Observation(Some(next), low))])]
                     + [PassReports([Seen(p, Observation(Some(back), low))])];
            EverCounted(h, p.topic) == low - next && LostOfAll(h, [p]) == low - back
  {
    var o1, o2 := Observation(Some(next), low), Observation(Some(back), low);
    var first := [PassReports([Seen(p, o1)])];
    var h := first + [PassReports([Seen(p, o2)])];
    assert [] + first == first && [] + [o1] == [o1];
    OnePass([], p, o1);
    OnePass(first, p, o2);
    NextMovedBack(o1, o2, back, next, low);
    OnePartition(h, p);
    LedgerCountsEachOffsetOnce(h, p.topic, [p]);
  }
}
