/**
  Whether a read position still applies to the file at a path, and which
  generation of that file each handed-out byte range was read in
  (`continuity.rs`).
 */
module Continuity {
  import opened Options

  /** The length and identity a cursor last observed. */
  datatype Observed = Observed(inode: Option<nat>, size: nat)

  datatype Discontinuity =
    | Rotated(from: nat, to: nat)
    | Truncated(readByte: nat, observed: nat, size: nat)

  function Check(lastSeen: Option<Observed>, inode: Option<nat>, size: nat, readByte: nat): Option<Discontinuity> {
    if lastSeen.Some? && lastSeen.value.inode.Some? && inode.Some? && lastSeen.value.inode != inode then
      Some(Rotated(lastSeen.value.inode.value, inode.value))
    else
      var shrunkBelow := if lastSeen.Some? then lastSeen.value.size else 0;
      if size < Max(readByte, shrunkBelow) then Some(Truncated(readByte, shrunkBelow, size)) else None
  }

  predicate CommitIsCurrent(markerInode: Option<nat>, inode: Option<nat>, size: nat, endByte: nat) {
    if markerInode.Some? && inode.Some? && markerInode != inode then false else endByte <= size
  }

  const MAX_ISSUED: nat := 256

  datatype Issued = Issued(start: nat, end: nat, generation: nat)
  datatype Settled = Current | Stale | Unknown

  /** The value of a `Generations` object. */
  datatype Gens = Gens(current: nat, issued: seq<Issued>)

  const FRESH: Gens := Gens(0, [])

  // ---------------------------------------------------------------- operations as functions

  function Discontinue(g: Gens): Gens {
    g.(current := g.current + 1)
  }

  function Issue(g: Gens, start: nat, end: nat): Gens {
    if end <= start then g
    else
      var kept := if |g.issued| >= MAX_ISSUED then g.issued[1..] else g.issued;
      g.(issued := kept + [Issued(start, end, g.current)])
  }

  function StartingBelow(q: seq<Issued>, start: nat): (r: seq<Issued>)
    ensures |r| <= |q|
    ensures forall x :: x in r <==> x in q && x.start < start
  {
    if q == [] then []
    else
      var rest := StartingBelow(q[1..], start);
      if q[0].start < start then [q[0]] + rest else rest
  }

  function ReissueFrom(g: Gens, start: nat): Gens {
    g.(issued := StartingBelow(g.issued, start))
  }

  predicate Names(x: Issued, start: nat, end: nat) {
    x.start == start && x.end == end
  }

  /** The oldest record of `start..end`, or the length of the queue. */
  function FirstMatch(q: seq<Issued>, start: nat, end: nat): (at: nat)
    ensures at <= |q|
    ensures at < |q| ==> Names(q[at], start, end)
    ensures forall i :: 0 <= i < at ==> !Names(q[i], start, end)
  {
    if q == [] then 0
    else if Names(q[0], start, end) then 0
    else 1 + FirstMatch(q[1..], start, end)
  }

  function WithoutGeneration(q: seq<Issued>, generation: nat): (r: seq<Issued>)
    ensures |r| <= |q|
    ensures forall x :: x in r <==> x in q && x.generation != generation
  {
    if q == [] then []
    else
      var rest := WithoutGeneration(q[1..], generation);
      if q[0].generation != generation then [q[0]] + rest else rest
  }

  function Settle(g: Gens, start: nat, end: nat): (Gens, Settled) {
    var at := FirstMatch(g.issued, start, end);
    if at == |g.issued| then (g, Unknown)
    else
      var hit := g.issued[at];
      (g.(issued := WithoutGeneration(g.issued[..at], hit.generation) + g.issued[at + 1..]),
       if hit.generation == g.current then Current else Stale)
  }

  // ---------------------------------------------------------------- the mutable object

  class Generations {
    var current: nat
    var issued: seq<Issued>

    ghost function View(): Gens
      reads this
    {
      Gens(current, issued)
    }

    constructor ()
      ensures View() == FRESH
    {
      current, issued := 0, [];
    }

    method Discontinuity()
      modifies this
      ensures View() == Discontinue(old(View()))
    {
      current := current + 1;
    }

    method IssueRange(start: nat, end: nat)
      modifies this
      ensures View() == Issue(old(View()), start, end)
    {
      if end <= start {
        return;
      }
      if |issued| >= MAX_ISSUED {
        issued := issued[1..];
      }
      issued := issued + [Issued(start, end, current)];
    }

    method ForgetFrom(start: nat)
      modifies this
      ensures View() == ReissueFrom(old(View()), start)
    {
      issued := StartingBelow(issued, start);
    }

    method SettleRange(start: nat, end: nat) returns (answer: Settled)
      modifies this
      ensures (View(), answer) == Settle(old(View()), start, end)
    {
      var q := issued;
      var at := FirstMatch(q, start, end);
      if at == |q| {
        return Unknown;
      }
      var hit := q[at];
      var others := q[..at] + q[at + 1..];
      issued := RetainOthers(others, at, hit.generation);
      assert others[..at] == q[..at] && others[at..] == q[at + 1..];
      answer := if hit.generation == current then Current else Stale;
    }
  }

  /** The retain closure of `settle`: it counts the records it has seen, and
      drops a record of the settled generation while the count is at most `at`. */
  method RetainOthers(others: seq<Issued>, at: nat, generation: nat) returns (kept: seq<Issued>)
    requires at <= |others|
    ensures kept == WithoutGeneration(others[..at], generation) + others[at..]
  {
    kept := [];
    var before := 0;
    while before < |others|
      invariant 0 <= before <= |others|
      invariant before <= at ==> kept == WithoutGeneration(others[..before], generation)
      invariant before >= at ==> kept == WithoutGeneration(others[..at], generation) + others[at..before]
    {
      var other := others[before];
      if before < at {
        RetainedBefore(others, before, generation);
      } else {
        RetainedAfter(others, at, before, WithoutGeneration(others[..at], generation));
      }
      before := before + 1;
      if before > at || other.generation != generation {
        kept := kept + [other];
      }
    }
    assert others[at..before] == others[at..];
  }

  lemma RetainedBefore(others: seq<Issued>, i: nat, generation: nat)
    requires i < |others|
    ensures WithoutGeneration(others[..i + 1], generation)
         == WithoutGeneration(others[..i], generation)
             + (if others[i].generation != generation then [others[i]] else [])
  {
    assert others[..i + 1] == others[..i] + [others[i]];
    WithoutGenerationAppend(others[..i], others[i], generation);
  }

  lemma RetainedAfter(others: seq<Issued>, at: nat, i: nat, front: seq<Issued>)
    requires at <= i < |others|
    ensures front + others[at..i + 1] == front + others[at..i] + [others[i]]
  {
    assert others[at..i + 1] == others[at..i] + [others[i]];
  }

  lemma {:induction false} WithoutGenerationAppend(q: seq<Issued>, x: Issued, generation: nat)
    ensures WithoutGeneration(q + [x], generation)
         == WithoutGeneration(q, generation) + (if x.generation != generation then [x] else [])
  {
    if q != [] {
      assert (q + [x])[1..] == q[1..] + [x];
      WithoutGenerationAppend(q[1..], x, generation);
    }
  }

  // ---------------------------------------------------------------- every operation history

  datatype Op =
    | OpDiscontinue
    | OpIssue(start: nat, end: nat)
    | OpReissueFrom(start: nat)
    | OpSettle(start: nat, end: nat)

  function Apply(g: Gens, op: Op): Gens {
    match op
    case OpDiscontinue => Discontinue(g)
    case OpIssue(s, e) => Issue(g, s, e)
    case OpReissueFrom(s) => ReissueFrom(g, s)
    case OpSettle(s, e) => Settle(g, s, e).0
  }

  function Run(h: seq<Op>): Gens {
    if h == [] then FRESH else Apply(Run(h[..|h| - 1]), h[|h| - 1])
  }

  /** How many discontinuities a history holds: the generation it ends in. */
  function Generation(h: seq<Op>): nat {
    if h == [] then 0
    else Generation(h[..|h| - 1]) + (if h[|h| - 1].OpDiscontinue? then 1 else 0)
  }

  /** Every range handed out, with the generation the history was then in. */
  ghost function EverIssued(h: seq<Op>): multiset<Issued> {
    if h == [] then multiset{}
    else
      var before := h[..|h| - 1];
      match h[|h| - 1]
      case OpIssue(s, e) =>
        if e <= s then EverIssued(before) else EverIssued(before) + multiset{Issued(s, e, Generation(before))}
      case _ => EverIssued(before)
  }

  /** The record each successful settlement consumed. */
  ghost function EverSettled(h: seq<Op>): multiset<Issued> {
    if h == [] then multiset{}
    else
      var before := h[..|h| - 1];
      match h[|h| - 1]
      case OpSettle(s, e) =>
        var q := Run(before).issued;
        var at := FirstMatch(q, s, e);
        if at == |q| then EverSettled(before) else EverSettled(before) + multiset{q[at]}
      case _ => EverSettled(before)
  }

  ghost predicate Sorted(q: seq<Issued>) {
    forall i, j :: 0 <= i < j < |q| ==> q[i].generation <= q[j].generation
  }

  ghost predicate Ordered(g: Gens) {
    && Sorted(g.issued)
    && (forall x :: x in g.issued ==> x.generation <= g.current)
    && |g.issued| <= MAX_ISSUED
  }

  lemma {:induction false} StartingBelowOrdered(q: seq<Issued>, start: nat)
    requires Sorted(q)
    ensures Sorted(StartingBelow(q, start))
    ensures multiset(StartingBelow(q, start)) <= multiset(q)
  {
    if q != [] {
      StartingBelowOrdered(q[1..], start);
      assert q == [q[0]] + q[1..];
      PrependSorted(q, StartingBelow(q[1..], start));
    }
  }

  lemma {:induction false} WithoutGenerationOrdered(q: seq<Issued>, generation: nat)
    requires Sorted(q)
    ensures Sorted(WithoutGeneration(q, generation))
    ensures multiset(WithoutGeneration(q, generation)) <= multiset(q)
  {
    if q != [] {
      WithoutGenerationOrdered(q[1..], generation);
      assert q == [q[0]] + q[1..];
      PrependSorted(q, WithoutGeneration(q[1..], generation));
    }
  }

  lemma PrependSorted(q: seq<Issued>, rest: seq<Issued>)
    requires q != [] && Sorted(q) && Sorted(rest)
    requires forall x :: x in rest ==> x in q[1..]
    ensures Sorted([q[0]] + rest)
  {
    forall j | 0 <= j < |rest| ensures q[0].generation <= rest[j].generation {
      assert rest[j] in q[1..];
    }
  }

  lemma ConcatSorted(a: seq<Issued>, b: seq<Issued>, bound: nat)
    requires Sorted(a) && Sorted(b)
    requires forall x :: x in a ==> x.generation <= bound
    requires forall x :: x in b ==> bound <= x.generation
    ensures Sorted(a + b)
  {
    var r := a + b;
    forall i, j | 0 <= i < j < |r| ensures r[i].generation <= r[j].generation {
      if i < |a| <= j {
        assert a[i] in a && b[j - |a|] in b;
      }
    }
  }

  lemma SettleOrdered(g: Gens, start: nat, end: nat)
    requires Ordered(g)
    ensures Ordered(Settle(g, start, end).0)
  {
    var q := g.issued;
    var at := FirstMatch(q, start, end);
    if at < |q| {
      WithoutGenerationOrdered(q[..at], q[at].generation);
      ConcatSorted(WithoutGeneration(q[..at], q[at].generation), q[at + 1..], q[at].generation);
    }
  }

  lemma SettleConsumes(g: Gens, start: nat, end: nat)
    requires Ordered(g)
    ensures var at := FirstMatch(g.issued, start, end);
            at < |g.issued| ==>
              multiset(Settle(g, start, end).0.issued) + multiset{g.issued[at]} <= multiset(g.issued)
  {
    var q := g.issued;
    var at := FirstMatch(q, start, end);
    if at < |q| {
      WithoutGenerationOrdered(q[..at], q[at].generation);
      SpliceMultiset(q, at, WithoutGeneration(q[..at], q[at].generation));
    }
  }

  lemma SpliceMultiset(q: seq<Issued>, at: nat, front: seq<Issued>)
    requires at < |q|
    requires multiset(front) <= multiset(q[..at])
    ensures multiset(front + q[at + 1..]) + multiset{q[at]} <= multiset(q)
  {
    assert q == q[..at] + ([q[at]] + q[at + 1..]);
    assert multiset(q) == multiset(q[..at]) + (multiset{q[at]} + multiset(q[at + 1..]));
  }

  lemma IssueAccounts(g: Gens, start: nat, end: nat)
    ensures multiset(Issue(g, start, end).issued)
         <= multiset(g.issued) + if end <= start then multiset{} else multiset{Issued(start, end, g.current)}
  {
    if |g.issued| >= MAX_ISSUED {
      assert g.issued == [g.issued[0]] + g.issued[1..];
    }
  }

  lemma OperationKeepsOrder(g: Gens, op: Op)
    requires Ordered(g)
    ensures Ordered(Apply(g, op))
  {
    match op
    case OpDiscontinue =>
    case OpIssue(s, e) =>
    case OpReissueFrom(s) => StartingBelowOrdered(g.issued, s);
    case OpSettle(s, e) => SettleOrdered(g, s, e);
  }

  /** Over any history: records are ordered by generation, at most 256 are
      kept, and what is on record together with what was settled was issued. */
  lemma {:induction false} HistoryInvariant(h: seq<Op>)
    ensures Ordered(Run(h))
    ensures Run(h).current == Generation(h)
    ensures multiset(Run(h).issued) + EverSettled(h) <= EverIssued(h)
  {
    if h != [] {
      var before := h[..|h| - 1];
      HistoryInvariant(before);
      var g := Run(before);
      OperationKeepsOrder(g, h[|h| - 1]);
      match h[|h| - 1]
      case OpDiscontinue =>
      case OpIssue(s, e) => IssueAccounts(g, s, e);
      case OpReissueFrom(s) => StartingBelowOrdered(g.issued, s);
      case OpSettle(s, e) => SettleConsumes(g, s, e);
    }
  }

  /** `start..end` was handed out by operation `k` of `h`, and no discontinuity follows it. */
  ghost predicate IssuedSinceDiscontinuity(h: seq<Op>, k: nat, start: nat, end: nat) {
    && k < |h|
    && h[k] == OpIssue(start, end)
    && forall j :: k < j < |h| ==> !h[j].OpDiscontinue?
  }

  lemma {:induction false} GenerationOfPrefix(h: seq<Op>, k: nat)
    requires k <= |h|
    ensures Generation(h[..k]) <= Generation(h)
    ensures Generation(h[..k]) == Generation(h) ==> forall j :: k <= j < |h| ==> !h[j].OpDiscontinue?
  {
    if k < |h| {
      var before := h[..|h| - 1];
      GenerationOfPrefix(before, k);
      assert before[..k] == h[..k];
      assert forall j :: k <= j < |before| ==> before[j] == h[j];
    } else {
      assert h[..k] == h;
    }
  }

  lemma {:induction false} IssuedAt(h: seq<Op>, x: Issued) returns (k: nat)
    requires x in EverIssued(h)
    ensures k < |h| && h[k] == OpIssue(x.start, x.end) && x.start < x.end
    ensures x.generation == Generation(h[..k])
  {
    var before := h[..|h| - 1];
    if x in EverIssued(before) {
      k := IssuedAt(before, x);
      assert before[..k] == h[..k];
    } else {
      k := |h| - 1;
    }
  }

  /** A hand-out of the generation the history ends in has no discontinuity after it; any other has one. */
  lemma WhenIssued(h: seq<Op>, x: Issued) returns (k: nat)
    requires x in EverIssued(h)
    ensures k < |h| && h[k] == OpIssue(x.start, x.end)
    ensures x.generation == Generation(h) ==> forall j :: k < j < |h| ==> !h[j].OpDiscontinue?
    ensures x.generation != Generation(h) ==> exists j :: k < j < |h| && h[j].OpDiscontinue?
  {
    k := IssuedAt(h, x);
    GenerationOfPrefix(h, k);
    if forall j :: k < j < |h| ==> !h[j].OpDiscontinue? {
      SameGenerationAfter(h, k);
    }
  }

  lemma SettledRecord(g: Gens, start: nat, end: nat) returns (hit: Issued)
    requires Settle(g, start, end).1 != Unknown
    ensures hit in g.issued && Names(hit, start, end)
    ensures Settle(g, start, end).1 == Current <==> hit.generation == g.current
  {
    hit := g.issued[FirstMatch(g.issued, start, end)];
  }

  /** A commit is settled as current only for a range of exactly those bytes,
      handed out after the latest discontinuity; and stale only for one handed
      out before it. */
  lemma SettleIsTruthful(h: seq<Op>, start: nat, end: nat) returns (k: nat)
    ensures Settle(Run(h), start, end).1 == Current ==> IssuedSinceDiscontinuity(h, k, start, end)
    ensures Settle(Run(h), start, end).1 == Stale ==>
              && k < |h| && h[k] == OpIssue(start, end)
              && exists j :: k < j < |h| && h[j].OpDiscontinue?
  {
    k := 0;
    if Settle(Run(h), start, end).1 != Unknown {
      HistoryInvariant(h);
      var hit := SettledRecord(Run(h), start, end);
      assert hit in multiset(Run(h).issued);
      assert hit in EverIssued(h);
      k := WhenIssued(h, hit);
    }
  }

  lemma {:induction false} SameGenerationAfter(h: seq<Op>, k: nat)
    requires k < |h|
    requires forall j :: k <= j < |h| ==> !h[j].OpDiscontinue?
    ensures Generation(h[..k]) == Generation(h)
  {
    var before := h[..|h| - 1];
    if k < |h| - 1 {
      SameGenerationAfter(before, k);
      assert before[..k] == h[..k];
    } else {
      assert h[..k] == before;
    }
  }

  /** No range is settled more often than it was handed out in its generation. */
  lemma SettledAtMostOnce(h: seq<Op>, x: Issued)
    ensures EverSettled(h)[x] <= EverIssued(h)[x]
  {
    HistoryInvariant(h);
  }

  /** Settling takes the matched record and the earlier records of its own
      generation off the queue, and nothing else. */
  lemma SettleRemovesExactly(g: Gens, start: nat, end: nat, x: Issued)
    requires Settle(g, start, end).1 != Unknown
    ensures var at := FirstMatch(g.issued, start, end);
            x in Settle(g, start, end).0.issued <==>
              x in g.issued[at + 1..] || (x in g.issued[..at] && x.generation != g.issued[at].generation)
    ensures x in g.issued && x.generation != g.issued[FirstMatch(g.issued, start, end)].generation
            ==> x in Settle(g, start, end).0.issued
  {
    var q := g.issued;
    var at := FirstMatch(q, start, end);
    if x in q && x.generation != q[at].generation {
      var i :| 0 <= i < |q| && q[i] == x;
      assert if i < at then x == q[..at][i] else x == q[at + 1..][i - at - 1];
    }
  }

  /** A range read before the latest discontinuity and still on record is judged
      stale, whatever was settled for the current generation in between. */
  lemma OlderRangeIsJudgedStale(h: seq<Op>, x: Issued, start: nat, end: nat)
    requires x in Run(h).issued && x.generation < Run(h).current
    requires Settle(Run(h), start, end).1 == Current
    ensures x in Settle(Run(h), start, end).0.issued
    ensures Settle(Settle(Run(h), start, end).0, x.start, x.end).1 == Stale
  {
    HistoryInvariant(h);
    SettleRemovesExactly(Run(h), start, end, x);
    SettleOrdered(Run(h), start, end);
    OnRecordIsStale(Settle(Run(h), start, end).0, x);
  }

  lemma OnRecordIsStale(g: Gens, x: Issued)
    requires Ordered(g) && x in g.issued && x.generation < g.current
    ensures Settle(g, x.start, x.end).1 == Stale
  {
    var at := FirstMatch(g.issued, x.start, x.end);
    var i :| 0 <= i < |g.issued| && g.issued[i] == x;
    assert at <= i;
  }

  // ---------------------------------------------------------------- what is judged, and what stays on record

  /** A position is judged not to apply exactly when the file is shorter than the position, or than when it
      was last seen, or is known to be another. */
  lemma JudgedExactlyWhen(lastSeen: Option<Observed>, inode: Option<nat>, size: nat, readByte: nat)
    ensures Check(lastSeen, inode, size, readByte).Some?
       <==> || size < readByte
            || (lastSeen.Some? && size < lastSeen.value.size)
            || (lastSeen.Some? && lastSeen.value.inode.Some? && inode.Some? && lastSeen.value.inode != inode)
  {
  }

  /** A commit is for the file at the path exactly when that file holds its range and is not known to be
      another. */
  lemma CurrentExactlyWhen(markerInode: Option<nat>, inode: Option<nat>, size: nat, endByte: nat)
    ensures CommitIsCurrent(markerInode, inode, size, endByte)
       <==> endByte <= size && (markerInode == None || inode == None || markerInode == inode)
  {
  }

  predicate HandsOut(op: Op) {
    op.OpIssue? && op.start < op.end
  }

  /** How many ranges operations `k` and on hand out. */
  function HandOuts(h: seq<Op>, k: nat): nat {
    if |h| <= k then 0 else HandOuts(h[..|h| - 1], k) + if HandsOut(h[|h| - 1]) then 1 else 0
  }

  /** Nothing after operation `k` gives the record of its range up: fewer than `MAX_ISSUED` ranges are handed
      out from it on, no replay goes to or below its start, and no commit names a range handed out since. */
  ghost predicate NothingGivesItUp(h: seq<Op>, k: nat)
    requires k < |h| && h[k].OpIssue?
  {
    && HandOuts(h, k) <= MAX_ISSUED
    && (forall j :: k < j < |h| && h[j].OpReissueFrom? ==> h[j].start > h[k].start)
    && (forall i, j :: k <= i < j < |h| && h[j].OpSettle? ==> h[i] != OpIssue(h[j].start, h[j].end))
  }

  /** `x` is on record, after `before`; what follows it was handed out by operations after `k`. */
  ghost predicate OnRecordAfter(h: seq<Op>, k: nat, x: Issued, before: nat) {
    var q := Run(h).issued;
    && before < |q| && q[before] == x
    && |q| - before <= HandOuts(h, k)
    && forall i :: before < i < |q| ==> IssuedFrom(h, k, q[i])
  }

  ghost predicate IssuedFrom(h: seq<Op>, k: nat, x: Issued) {
    exists j :: k <= j < |h| && h[j] == OpIssue(x.start, x.end)
  }

  lemma IssuedFromLonger(h: seq<Op>, op: Op, k: nat, x: Issued)
    requires IssuedFrom(h, k, x)
    ensures IssuedFrom(h + [op], k, x)
  {
    var j :| k <= j < |h| && h[j] == OpIssue(x.start, x.end);
    assert (h + [op])[j] == OpIssue(x.start, x.end);
  }

  lemma {:induction false} StartingBelowConcat(a: seq<Issued>, b: seq<Issued>, start: nat)
    ensures StartingBelow(a + b, start) == StartingBelow(a, start) + StartingBelow(b, start)
    decreases |a|
  {
    if a == [] {
      assert a + b == b;
    } else {
      assert (a + b)[1..] == a[1..] + b && (a + b)[0] == a[0];
      StartingBelowConcat(a[1..], b, start);
      var head := if a[0].start < start then [a[0]] else [];
      var rest, tail := StartingBelow(a[1..], start), StartingBelow(b, start);
      assert StartingBelow(a + b, start) == head + (rest + tail) && StartingBelow(a, start) == head + rest;
    }
  }

  /** The record at `before` of `q` is the one at `now` of `r`, and what follows it followed it before, or is
      `extra`. */
  ghost predicate RecordKept(q: seq<Issued>, before: nat, r: seq<Issued>, now: nat, extra: seq<Issued>) {
    && before < |q| && now < |r| && r[now] == q[before]
    && |r| - now <= |q| - before + |extra|
    && forall i :: now < i < |r| ==> r[i] in q[before + 1..] + extra
  }

  lemma ReissueKeepsRecord(q: seq<Issued>, before: nat, start: nat) returns (now: nat)
    requires before < |q| && q[before].start < start
    ensures RecordKept(q, before, StartingBelow(q, start), now, [])
  {
    var rest := StartingBelow(q[before + 1..], start);
    StartingBelowConcat(q[..before], q[before..], start);
    assert q == q[..before] + q[before..];
    assert q[before..][1..] == q[before + 1..] && q[before..][0] == q[before];
    now := |StartingBelow(q[..before], start)|;
    assert StartingBelow(q[before..], start) == [q[before]] + rest;
    var r := StartingBelow(q, start);
    assert r[now..] == [q[before]] + rest;
    forall i | now < i < |r| ensures r[i] in q[before + 1..] + [] {
      assert r[i] == r[now..][i - now];
      assert r[i] in rest;
    }
  }

  lemma TailKept(q: seq<Issued>, before: nat, r: seq<Issued>, now: nat, extra: seq<Issued>)
    requires before < |q| && now < |r| && r[now..] == q[before..] + extra
    ensures RecordKept(q, before, r, now, extra)
  {
    assert |r| - now == |r[now..]|;
    assert r[now] == r[now..][0];
    forall i | now < i < |r| ensures r[i] in q[before + 1..] + extra {
      assert r[i] == r[now..][i - now] == (q[before + 1..] + extra)[i - now - 1];
    }
  }

  lemma SettleKeepsRecord(g: Gens, before: nat, start: nat, end: nat) returns (now: nat)
    requires before < |g.issued| && forall i :: before <= i < |g.issued| ==> !Names(g.issued[i], start, end)
    ensures RecordKept(g.issued, before, Settle(g, start, end).0.issued, now, [])
  {
    var q := g.issued;
    var at := FirstMatch(q, start, end);
    now := before;
    if at < |q| {
      assert at < before by { assert Names(q[at], start, end); }
      now := |WithoutGeneration(q[..at], q[at].generation)| + before - at - 1;
    }
    var r := Settle(g, start, end).0.issued;
    assert r[now..] == q[before..] + [];
    TailKept(q, before, r, now, []);
  }

  lemma IssueKeepsRecord(g: Gens, before: nat, start: nat, end: nat) returns (now: nat)
    requires before < |g.issued| && start < end && |g.issued| - before < MAX_ISSUED
    ensures RecordKept(g.issued, before, Issue(g, start, end).issued, now, [Issued(start, end, g.current)])
  {
    now := if |g.issued| >= MAX_ISSUED then before - 1 else before;
    var r := Issue(g, start, end).issued;
    assert r[now..] == g.issued[before..] + [Issued(start, end, g.current)];
    TailKept(g.issued, before, r, now, [Issued(start, end, g.current)]);
  }

  /** What an operation adds to the queue. */
  function FreshOf(g: Gens, op: Op): seq<Issued> {
    if HandsOut(op) then [Issued(op.start, op.end, g.current)] else []
  }

  lemma OperationKeepsRecord(g: Gens, op: Op, before: nat) returns (now: nat)
    requires before < |g.issued| && (HandsOut(op) ==> |g.issued| - before < MAX_ISSUED)
    requires op.OpReissueFrom? ==> g.issued[before].start < op.start
    requires op.OpSettle? ==> forall i :: before <= i < |g.issued| ==> !Names(g.issued[i], op.start, op.end)
    ensures RecordKept(g.issued, before, Apply(g, op).issued, now, FreshOf(g, op))
  {
    now := before;
    match op
    case OpDiscontinue => TailKept(g.issued, before, g.issued, before, []);
    case OpIssue(s, e) =>
      if s < e {
        now := IssueKeepsRecord(g, before, s, e);
      } else {
        TailKept(g.issued, before, g.issued, before, []);
      }
    case OpReissueFrom(s) => now := ReissueKeepsRecord(g.issued, before, s);
    case OpSettle(s, e) => now := SettleKeepsRecord(g, before, s, e);
  }

  lemma KeptIsOnRecord(h: seq<Op>, op: Op, k: nat, x: Issued, before: nat, now: nat)
    requires k < |h| && OnRecordAfter(h, k, x, before)
    requires RecordKept(Run(h).issued, before, Apply(Run(h), op).issued, now, FreshOf(Run(h), op))
    ensures OnRecordAfter(h + [op], k, x, now)
  {
    var more, q := h + [op], Run(h).issued;
    assert more[..|h|] == h && more[|h|] == op;
    var r := Run(more).issued;
    forall i | now < i < |r| ensures IssuedFrom(more, k, r[i]) {
      if r[i] in FreshOf(Run(h), op) {
        assert more[|h|] == OpIssue(r[i].start, r[i].end);
      } else {
        assert r[i] in q[before + 1..];
        var j :| before + 1 <= j < |q| && q[j] == r[i];
        IssuedFromLonger(h, op, k, r[i]);
      }
    }
  }

  lemma NotNamedSince(h: seq<Op>, k: nat, x: Issued, before: nat, start: nat, end: nat, i: nat)
    requires k < |h| && h[k] == OpIssue(x.start, x.end) && OnRecordAfter(h, k, x, before)
    requires forall j :: k <= j < |h| ==> h[j] != OpIssue(start, end)
    requires before <= i < |Run(h).issued|
    ensures !Names(Run(h).issued[i], start, end)
  {
    var y := Run(h).issued[i];
    if i > before {
      assert IssuedFrom(h, k, y);
      var j :| k <= j < |h| && h[j] == OpIssue(y.start, y.end);
    }
  }

  lemma StaysStep(h: seq<Op>, op: Op, k: nat, x: Issued, before: nat) returns (now: nat)
    requires k < |h| && h[k] == OpIssue(x.start, x.end) && OnRecordAfter(h, k, x, before)
    requires NothingGivesItUp(h + [op], k)
    ensures OnRecordAfter(h + [op], k, x, now)
  {
    var more := h + [op];
    assert more[..|h|] == h && more[|h|] == op && more[k] == h[k];
    if op.OpSettle? {
      assert forall j :: k <= j < |h| ==> h[j] == more[j];
      forall i | before <= i < |Run(h).issued| ensures !Names(Run(h).issued[i], op.start, op.end) {
        NotNamedSince(h, k, x, before, op.start, op.end, i);
      }
    }
    now := OperationKeepsRecord(Run(h), op, before);
    KeptIsOnRecord(h, op, k, x, before, now);
  }

  lemma NothingGivesItUpEarlier(h: seq<Op>, k: nat)
    requires k < |h| - 1 && h[k].OpIssue? && NothingGivesItUp(h, k)
    ensures NothingGivesItUp(h[..|h| - 1], k)
  {
    var before := h[..|h| - 1];
    assert forall j :: 0 <= j < |before| ==> before[j] == h[j];
  }

  lemma OnRecordAtFirst(h: seq<Op>, x: Issued)
    requires x.start < x.end && x.generation == Generation(h)
    ensures OnRecordAfter(h + [OpIssue(x.start, x.end)], |h|, x, |Run(h + [OpIssue(x.start, x.end)]).issued| - 1)
  {
    var more := h + [OpIssue(x.start, x.end)];
    assert more[..|h|] == h && more[|h|] == OpIssue(x.start, x.end);
    HistoryInvariant(h);
    assert HandOuts(h, |h|) == 0;
  }

  lemma {:induction false} Stays(h: seq<Op>, k: nat, x: Issued) returns (at: nat)
    requires k < |h| && h[k] == OpIssue(x.start, x.end) && x.start < x.end && x.generation == Generation(h[..k])
    requires NothingGivesItUp(h, k)
    ensures OnRecordAfter(h, k, x, at)
    decreases |h|
  {
    var before, op := h[..|h| - 1], h[|h| - 1];
    assert h == before + [op];
    if k == |h| - 1 {
      OnRecordAtFirst(before, x);
      at := |Run(h).issued| - 1;
    } else {
      NothingGivesItUpEarlier(h, k);
      assert before[..k] == h[..k];
      at := Stays(before, k, x);
      at := StaysStep(before, op, k, x, at);
    }
  }

  /** A range handed out is found on record as long as fewer than `MAX_ISSUED` more are handed out, no replay
      goes to or below its start, and no commit names it or one handed out after it: its commit is then not
      taken for a restarted process's. */
  lemma HandedOutStaysOnRecord(h: seq<Op>, k: nat)
    requires k < |h| && HandsOut(h[k]) && NothingGivesItUp(h, k)
    ensures Settle(Run(h), h[k].start, h[k].end).1 != Unknown
  {
    var x := Issued(h[k].start, h[k].end, Generation(h[..k]));
    var at := Stays(h, k, x);
    assert Names(Run(h).issued[at], h[k].start, h[k].end);
  }
}
