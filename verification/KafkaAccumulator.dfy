/**
  The demultiplexer of one Kafka poll pass, `MultiTopicAcc` of
  `kafka_source.rs`: per-topic budgets over per-partition accumulators.
 */
module KafkaAccumulator {
  type Payload = seq<bv8>

  /** A partition of the topic at index `topic` of the pass's source list. */
  datatype Key = Key(topic: nat, partition: int)

  datatype PartAcc = PartAcc(records: seq<Payload>, startOffset: int, endOffset: int)
  datatype TopicUsage = TopicUsage(records: nat, bytes: nat)

  datatype Acc = Acc(
    parts: map<Key, PartAcc>,
    usage: seq<TopicUsage>,
    full: seq<bool>,
    fullTopics: nat,
    totalRecords: nat,
    maxRecords: nat,
    maxBytes: nat)

  function SaturatingSub(a: nat, b: nat): nat {
    if a < b then 0 else a - b
  }

  predicate Shaped(a: Acc) {
    |a.usage| == |a.full|
  }

  function Empty(topics: nat, maxRecords: nat, maxBytes: nat): Acc {
    Acc(map[], seq(topics, _ => TopicUsage(0, 0)), seq(topics, _ => false), 0, 0, maxRecords, maxBytes)
  }

  function MarkFull(a: Acc, topic: nat): Acc
    requires Shaped(a) && topic < |a.full|
  {
    a.(full := a.full[topic := true], fullTopics := a.fullTopics + 1)
  }

  predicate OverBudget(a: Acc, topic: nat, payload: Payload)
    requires topic < |a.usage|
  {
    || a.usage[topic].records >= a.maxRecords
    || |payload| > SaturatingSub(a.maxBytes, a.usage[topic].bytes)
  }

  function AddRecord(parts: map<Key, PartAcc>, k: Key, offset: int, payload: Payload): map<Key, PartAcc> {
    var part := if k in parts then parts[k] else PartAcc([], offset, offset);
    parts[k := PartAcc(part.records + [payload], part.startOffset, offset)]
  }

  /** The usage of a topic with one more record. */
  function Used(a: Acc, topic: nat, payload: Payload): TopicUsage
    requires topic < |a.usage|
  {
    TopicUsage(a.usage[topic].records + 1, a.usage[topic].bytes + |payload|)
  }

  /** The accumulator with a message added and counted. */
  function Count(a: Acc, k: Key, offset: int, payload: Payload): Acc
    requires Shaped(a) && k.topic < |a.usage|
  {
    a.(usage := a.usage[k.topic := Used(a, k.topic, payload)],
       totalRecords := a.totalRecords + 1,
       parts := AddRecord(a.parts, k, offset, payload))
  }

  function Keep(a: Acc, k: Key, offset: int, payload: Payload): Acc
    requires Shaped(a) && k.topic < |a.usage|
  {
    var counted := Count(a, k, offset, payload);
    var used := Used(a, k.topic, payload);
    if used.records >= a.maxRecords || used.bytes >= a.maxBytes then MarkFull(counted, k.topic) else counted
  }

  /** Whether the accumulator keeps the next message of a topic. */
  predicate Keeps(a: Acc, k: Key, payload: Payload)
    requires Shaped(a) && k.topic < |a.usage|
  {
    !a.full[k.topic] && !OverBudget(a, k.topic, payload)
  }

  function Push(a: Acc, k: Key, offset: int, payload: Payload): Acc
    requires Shaped(a) && k.topic < |a.usage|
  {
    if a.full[k.topic] then a
    else if OverBudget(a, k.topic, payload) then MarkFull(a, k.topic)
    else Keep(a, k, offset, payload)
  }

  function Fail(a: Acc, topic: nat): Acc
    requires Shaped(a) && topic < |a.usage|
  {
    var cleared := a.(parts := map k | k in a.parts && k.topic != topic :: a.parts[k],
                      totalRecords := SaturatingSub(a.totalRecords, a.usage[topic].records),
                      usage := a.usage[topic := TopicUsage(0, 0)]);
    if a.full[topic] then cleared else MarkFull(cleared, topic)
  }

  // ---------------------------------------------------------------- the mutable object

  class MultiTopicAcc {
    var parts: map<Key, PartAcc>
    var usage: seq<TopicUsage>
    var full: seq<bool>
    var fullTopics: nat
    var totalRecords: nat
    const maxRecords: nat
    const maxBytes: nat

    ghost function View(): Acc
      reads this
    {
      Acc(parts, usage, full, fullTopics, totalRecords, maxRecords, maxBytes)
    }

    constructor (topics: nat, maxRecords: nat, maxBytes: nat)
      ensures View() == Empty(topics, maxRecords, maxBytes)
    {
      parts := map[];
      usage := seq(topics, _ => TopicUsage(0, 0));
      full := seq(topics, _ => false);
      fullTopics, totalRecords := 0, 0;
      this.maxRecords, this.maxBytes := maxRecords, maxBytes;
    }

    method PushMessage(k: Key, offset: int, payload: Payload) returns (kept: bool)
      requires Shaped(View()) && k.topic < |usage|
      modifies this
      ensures View() == Push(old(View()), k, offset, payload)
      ensures kept == Keeps(old(View()), k, payload)
    {
      if full[k.topic] {
        return false;
      }
      if usage[k.topic].records >= maxRecords || |payload| > SaturatingSub(maxBytes, usage[k.topic].bytes) {
        full := full[k.topic := true];
        fullTopics := fullTopics + 1;
        return false;
      }
      usage := usage[k.topic := TopicUsage(usage[k.topic].records + 1, usage[k.topic].bytes + |payload|)];
      if usage[k.topic].records >= maxRecords || usage[k.topic].bytes >= maxBytes {
        full := full[k.topic := true];
        fullTopics := fullTopics + 1;
      }
      totalRecords := totalRecords + 1;
      var part := if k in parts then parts[k] else PartAcc([], offset, offset);
      part := part.(endOffset := offset);
      part := part.(records := part.records + [payload]);
      parts := parts[k := part];
      return true;
    }

    method FailTopic(topic: nat)
      requires Shaped(View()) && topic < |usage|
      modifies this
      ensures View() == Fail(old(View()), topic)
    {
      parts := map k | k in parts && k.topic != topic :: parts[k];
      totalRecords := SaturatingSub(totalRecords, usage[topic].records);
      usage := usage[topic := TopicUsage(0, 0)];
      if !full[topic] {
        full := full[topic := true];
        fullTopics := fullTopics + 1;
      }
    }
  }

  // ---------------------------------------------------------------- every interleaving of pushes and failures

  datatype Message = Message(partition: int, offset: int, payload: Payload)

  datatype Event =
    | Pushed(topic: nat, m: Message)
    | Failed(topic: nat)

  ghost predicate Within(events: seq<Event>, topics: nat) {
    forall i :: 0 <= i < |events| ==> events[i].topic < topics
  }

  function Apply(a: Acc, e: Event): (r: Acc)
    requires Shaped(a) && e.topic < |a.usage|
    ensures Shaped(r) && |r.usage| == |a.usage| && r.maxRecords == a.maxRecords && r.maxBytes == a.maxBytes
  {
    match e
    case Pushed(t, m) => Push(a, Key(t, m.partition), m.offset, m.payload)
    case Failed(t) => Fail(a, t)
  }

  ghost function Run(topics: nat, maxRecords: nat, maxBytes: nat, events: seq<Event>): (r: Acc)
    requires Within(events, topics)
    ensures Shaped(r) && |r.usage| == topics && r.maxRecords == maxRecords && r.maxBytes == maxBytes
  {
    if events == [] then Empty(topics, maxRecords, maxBytes)
    else Apply(Run(topics, maxRecords, maxBytes, events[..|events| - 1]), events[|events| - 1])
  }

  // ---------------------------------------------------------------- what one topic accumulates

  /** The messages pushed to one topic, over all its partitions. */
  ghost function Pushes(events: seq<Event>, topic: nat): seq<Message> {
    if events == [] then []
    else
      var e := events[|events| - 1];
      Pushes(events[..|events| - 1], topic) + (if e.Pushed? && e.topic == topic then [e.m] else [])
  }

  ghost predicate EverFailed(events: seq<Event>, topic: nat) {
    events != [] && (events[|events| - 1] == Failed(topic) || EverFailed(events[..|events| - 1], topic))
  }

  function Bytes(ms: seq<Message>): nat {
    if ms == [] then 0 else Bytes(ms[..|ms| - 1]) + |ms[|ms| - 1].payload|
  }

  /** A topic that has kept `n` messages of `bytes` bytes is at a budget. */
  predicate AtBudget(n: nat, bytes: nat, maxRecords: nat, maxBytes: nat) {
    n > 0 && (n >= maxRecords || bytes >= maxBytes)
  }

  /** How many of the messages pushed to a topic fit its budgets: pushing stops
      for good at the first message that does not fit, or once a budget is reached. */
  function KeptCount(ms: seq<Message>, maxRecords: nat, maxBytes: nat): (k: nat)
    ensures k <= |ms|
    ensures k <= maxRecords && Bytes(ms[..k]) <= maxBytes
  {
    if ms == [] then 0
    else
      var before := ms[..|ms| - 1];
      var k := KeptCount(before, maxRecords, maxBytes);
      assert before[..k] == ms[..k];
      assert ms[..|ms|] == ms;
      if k < |before| || AtBudget(k, Bytes(before[..k]), maxRecords, maxBytes)
         || k >= maxRecords || Bytes(before) + |ms[|ms| - 1].payload| > maxBytes
      then k
      else
        assert before[..k] == before;
        |ms|
  }

  /** A prefix that pushing can keep: within both budgets, and no shorter one had reached either. */
  ghost predicate Keepable(ms: seq<Message>, k: nat, maxRecords: nat, maxBytes: nat) {
    && k <= |ms| && k <= maxRecords && Bytes(ms[..k]) <= maxBytes
    && forall j :: 0 < j < k ==> !AtBudget(j, Bytes(ms[..j]), maxRecords, maxBytes)
  }

  lemma KeepableOfPrefix(ms: seq<Message>, n: nat, k: nat, maxRecords: nat, maxBytes: nat)
    requires k <= n <= |ms|
    ensures Keepable(ms[..n], k, maxRecords, maxBytes) <==> Keepable(ms, k, maxRecords, maxBytes)
  {
    assert forall j :: 0 <= j <= k ==> ms[..n][..j] == ms[..j];
  }

  lemma ShorterIsKeepable(ms: seq<Message>, k: nat, maxRecords: nat, maxBytes: nat, n: nat)
    requires Keepable(ms, n, maxRecords, maxBytes) && k <= n
    ensures Keepable(ms, k, maxRecords, maxBytes)
    decreases n - k
  {
    if k < n {
      ShorterIsKeepable(ms, k + 1, maxRecords, maxBytes, n);
      assert ms[..k + 1][..k] == ms[..k];
    }
  }

  /** After `k` messages kept and no budget reached, the next one still fits. */
  ghost predicate TakesNext(ms: seq<Message>, k: nat, maxRecords: nat, maxBytes: nat)
    requires k < |ms|
  {
    && !AtBudget(k, Bytes(ms[..k]), maxRecords, maxBytes)
    && k < maxRecords && Bytes(ms[..k]) + |ms[k].payload| <= maxBytes
  }

  lemma OneMoreIsKeepable(ms: seq<Message>, k: nat, maxRecords: nat, maxBytes: nat)
    requires k < |ms|
    ensures Keepable(ms, k + 1, maxRecords, maxBytes)
       <==> Keepable(ms, k, maxRecords, maxBytes) && TakesNext(ms, k, maxRecords, maxBytes)
  {
    assert ms[..k + 1][..k] == ms[..k];
  }

  lemma KeptCountOfLast(ms: seq<Message>, maxRecords: nat, maxBytes: nat)
    requires ms != []
    ensures var n := |ms| - 1;
            var k := KeptCount(ms[..n], maxRecords, maxBytes);
            KeptCount(ms, maxRecords, maxBytes) == if k == n && TakesNext(ms, n, maxRecords, maxBytes) then n + 1 else k
  {
    var n := |ms| - 1;
    assert ms[..n][..n] == ms[..n];
  }

  lemma {:induction false} KeptCountStops(ms: seq<Message>, maxRecords: nat, maxBytes: nat)
    ensures var k := KeptCount(ms, maxRecords, maxBytes);
            Keepable(ms, k, maxRecords, maxBytes) && (k < |ms| ==> !Keepable(ms, k + 1, maxRecords, maxBytes))
  {
    if ms != [] {
      var n := |ms| - 1;
      var k := KeptCount(ms[..n], maxRecords, maxBytes);
      KeptCountStops(ms[..n], maxRecords, maxBytes);
      KeptCountOfLast(ms, maxRecords, maxBytes);
      KeepableOfPrefix(ms, n, k, maxRecords, maxBytes);
      if k < n {
        KeepableOfPrefix(ms, n, k + 1, maxRecords, maxBytes);
      } else {
        OneMoreIsKeepable(ms, n, maxRecords, maxBytes);
      }
    }
  }

  /** What is kept is the longest keepable prefix. */
  lemma KeptCountIsTheLongest(ms: seq<Message>, maxRecords: nat, maxBytes: nat, n: nat)
    ensures Keepable(ms, KeptCount(ms, maxRecords, maxBytes), maxRecords, maxBytes)
    ensures Keepable(ms, n, maxRecords, maxBytes) ==> n <= KeptCount(ms, maxRecords, maxBytes)
  {
    var k := KeptCount(ms, maxRecords, maxBytes);
    KeptCountStops(ms, maxRecords, maxBytes);
    if Keepable(ms, n, maxRecords, maxBytes) && k < n {
      ShorterIsKeepable(ms, k + 1, maxRecords, maxBytes, n);
    }
  }

  /** It is not the longest within the budgets: once the byte budget is reached, a message without
      payload is turned away too. */
  lemma EmptyPayloadIsTurnedAway(a: Message, b: Message)
    requires |a.payload| == 5 && |b.payload| == 0
    ensures KeptCount([a, b], 10, 5) == 1 && Bytes([a, b]) <= 5
  {
    assert [a, b][..1] == [a] && [a][..0] == [] && [a][..1] == [a];
    assert Bytes([a]) == 5 && KeptCount([a], 10, 5) == 1;
  }

  ghost function OfPartition(ms: seq<Message>, partition: int): seq<Message> {
    if ms == [] then []
    else
      OfPartition(ms[..|ms| - 1], partition)
      + (if ms[|ms| - 1].partition == partition then [ms[|ms| - 1]] else [])
  }

  function Payloads(ms: seq<Message>): seq<Payload> {
    seq(|ms|, i requires 0 <= i < |ms| => ms[i].payload)
  }

  /** The accumulator at `k` holds exactly the messages `own`; none, and there is no accumulator. */
  ghost predicate HoldsPart(parts: map<Key, PartAcc>, k: Key, own: seq<Message>) {
    && (k in parts <==> own != [])
    && (own != [] ==> parts[k] == PartAcc(Payloads(own), own[0].offset, own[|own| - 1].offset))
  }

  /** The accumulators of `topic` hold exactly the messages `ms`, by partition. */
  ghost predicate Holds(parts: map<Key, PartAcc>, topic: nat, ms: seq<Message>) {
    forall p: int :: HoldsPart(parts, Key(topic, p), OfPartition(ms, p))
  }

  /** What one topic's state must be after its pushes `ms`, of which the first `k` fit. */
  ghost predicate TopicIs(a: Acc, topic: nat, ms: seq<Message>, k: nat)
    requires Shaped(a) && topic < |a.usage| && k <= |ms|
  {
    && Holds(a.parts, topic, ms[..k])
    && a.usage[topic] == TopicUsage(k, Bytes(ms[..k]))
    && a.full[topic] == (k < |ms| || AtBudget(k, Bytes(ms[..k]), a.maxRecords, a.maxBytes))
  }

  lemma OtherTopicUntouched(a: Acc, e: Event, topic: nat)
    requires Shaped(a) && e.topic < |a.usage| && topic < |a.usage| && e.topic != topic
    ensures var r := Apply(a, e);
            && r.usage[topic] == a.usage[topic] && r.full[topic] == a.full[topic]
            && forall p: int :: (Key(topic, p) in r.parts <==> Key(topic, p) in a.parts)
                             && (Key(topic, p) in a.parts ==> r.parts[Key(topic, p)] == a.parts[Key(topic, p)])
  {
  }

  lemma HoldsElsewhere(a: Acc, e: Event, topic: nat, ms: seq<Message>)
    requires Shaped(a) && e.topic < |a.usage| && topic < |a.usage| && e.topic != topic
    requires Holds(a.parts, topic, ms)
    ensures Holds(Apply(a, e).parts, topic, ms)
  {
    OtherTopicUntouched(a, e, topic);
    forall p: int ensures HoldsPart(Apply(a, e).parts, Key(topic, p), OfPartition(ms, p)) {
      assert HoldsPart(a.parts, Key(topic, p), OfPartition(ms, p));
    }
  }

  lemma HoldsAfterAdd(parts: map<Key, PartAcc>, topic: nat, ms: seq<Message>, m: Message)
    requires Holds(parts, topic, ms)
    ensures Holds(AddRecord(parts, Key(topic, m.partition), m.offset, m.payload), topic, ms + [m])
  {
    var after := AddRecord(parts, Key(topic, m.partition), m.offset, m.payload);
    assert (ms + [m])[..|ms|] == ms;
    forall p: int ensures HoldsPart(after, Key(topic, p), OfPartition(ms + [m], p)) {
      var before := OfPartition(ms, p);
      assert HoldsPart(parts, Key(topic, p), before);
      if p == m.partition {
        assert OfPartition(ms + [m], p) == before + [m];
        assert Payloads(before + [m]) == Payloads(before) + [m.payload];
      } else {
        assert OfPartition(ms + [m], p) == before;
      }
    }
  }

  /** The pushed messages that fit, with one more. */
  lemma KeptCountStep(ms: seq<Message>, m: Message, maxRecords: nat, maxBytes: nat)
    ensures var k := KeptCount(ms, maxRecords, maxBytes);
            && (ms + [m])[..k] == ms[..k]
            && KeptCount(ms + [m], maxRecords, maxBytes) ==
                 if k == |ms| && !AtBudget(k, Bytes(ms), maxRecords, maxBytes)
                    && k < maxRecords && Bytes(ms) + |m.payload| <= maxBytes
                 then k + 1 else k
  {
    var k := KeptCount(ms, maxRecords, maxBytes);
    assert (ms + [m])[..|ms|] == ms;
    if k == |ms| {
      assert ms[..k] == ms;
    }
  }

  lemma KeepAdvancesTopic(a: Acc, topic: nat, ms: seq<Message>, m: Message)
    requires Shaped(a) && topic < |a.usage|
    requires TopicIs(a, topic, ms, |ms|) && !a.full[topic]
    ensures TopicIs(Keep(a, Key(topic, m.partition), m.offset, m.payload), topic, ms + [m], |ms| + 1)
  {
    assert ms[..|ms|] == ms && (ms + [m])[..|ms| + 1] == ms + [m] && (ms + [m])[..|ms|] == ms;
    HoldsAfterAdd(a.parts, topic, ms, m);
  }

  lemma PushAdvancesTopic(a: Acc, topic: nat, ms: seq<Message>, m: Message)
    requires Shaped(a) && topic < |a.usage|
    requires TopicIs(a, topic, ms, KeptCount(ms, a.maxRecords, a.maxBytes))
    ensures TopicIs(Push(a, Key(topic, m.partition), m.offset, m.payload), topic, ms + [m],
                    KeptCount(ms + [m], a.maxRecords, a.maxBytes))
  {
    var k := KeptCount(ms, a.maxRecords, a.maxBytes);
    KeptCountStep(ms, m, a.maxRecords, a.maxBytes);
    if Keeps(a, Key(topic, m.partition), m.payload) {
      assert ms[..k] == ms;
      KeepAdvancesTopic(a, topic, ms, m);
    } else {
      RejectKeepsTopic(a, topic, ms, m, k);
    }
  }

  lemma RejectKeepsTopic(a: Acc, topic: nat, ms: seq<Message>, m: Message, k: nat)
    requires Shaped(a) && topic < |a.usage| && k <= |ms|
    requires TopicIs(a, topic, ms, k) && !Keeps(a, Key(topic, m.partition), m.payload)
    ensures TopicIs(Push(a, Key(topic, m.partition), m.offset, m.payload), topic, ms + [m], k)
  {
    assert (ms + [m])[..k] == ms[..k];
  }

  /** What a failed topic is: emptied, and closed. */
  ghost predicate Emptied(a: Acc, topic: nat)
    requires Shaped(a) && topic < |a.usage|
  {
    Holds(a.parts, topic, []) && a.usage[topic] == TopicUsage(0, 0) && a.full[topic]
  }

  /** For any interleaving over any topics: a topic that did not fail holds
      exactly the longest keepable prefix of its own messages; a failed one
      holds nothing and takes nothing more. */
  lemma {:induction false} TopicHoldsItsPrefix(topics: nat, maxRecords: nat, maxBytes: nat, events: seq<Event>,
                                               topic: nat)
    requires Within(events, topics) && topic < topics
    ensures var a := Run(topics, maxRecords, maxBytes, events);
            var ms := Pushes(events, topic);
            if EverFailed(events, topic) then Emptied(a, topic)
            else TopicIs(a, topic, ms, KeptCount(ms, maxRecords, maxBytes))
  {
    if events != [] {
      var before, e := events[..|events| - 1], events[|events| - 1];
      TopicHoldsItsPrefix(topics, maxRecords, maxBytes, before, topic);
      var a := Run(topics, maxRecords, maxBytes, before);
      var ms := Pushes(before, topic);
      if e.topic != topic {
        OtherTopicUntouched(a, e, topic);
        var k := KeptCount(ms, maxRecords, maxBytes);
        HoldsElsewhere(a, e, topic, if EverFailed(before, topic) then [] else ms[..k]);
        assert Pushes(events, topic) == ms;
      } else if e.Pushed? && !EverFailed(before, topic) {
        PushAdvancesTopic(a, topic, ms, e.m);
      }
    }
  }

  // ---------------------------------------------------------------- non-interference

  ghost function Only(events: seq<Event>, topic: nat): seq<Event> {
    if events == [] then []
    else
      Only(events[..|events| - 1], topic)
      + (if events[|events| - 1].topic == topic then [events[|events| - 1]] else [])
  }

  lemma {:induction false} OnlyIsWithin(events: seq<Event>, topics: nat, topic: nat)
    requires Within(events, topics)
    ensures Within(Only(events, topic), topics)
  {
    if events != [] {
      OnlyIsWithin(events[..|events| - 1], topics, topic);
    }
  }

  ghost predicate SameFor(a: Acc, b: Acc, topic: nat)
    requires Shaped(a) && Shaped(b) && topic < |a.usage| && topic < |b.usage|
  {
    && a.usage[topic] == b.usage[topic] && a.full[topic] == b.full[topic]
    && forall p: int :: (Key(topic, p) in a.parts <==> Key(topic, p) in b.parts)
                     && (Key(topic, p) in a.parts ==> a.parts[Key(topic, p)] == b.parts[Key(topic, p)])
  }

  lemma OwnEventSameEffect(a: Acc, b: Acc, e: Event)
    requires Shaped(a) && Shaped(b) && e.topic < |a.usage| && e.topic < |b.usage|
    requires a.maxRecords == b.maxRecords && a.maxBytes == b.maxBytes
    requires SameFor(a, b, e.topic)
    ensures SameFor(Apply(a, e), Apply(b, e), e.topic)
  {
  }

  /** What one topic accumulates in a multiplexed pass is what it would have
      accumulated alone: the other topics' traffic and failures do not show. */
  lemma {:induction false} TopicsDoNotInterfere(topics: nat, maxRecords: nat, maxBytes: nat, events: seq<Event>,
                                                topic: nat)
    requires Within(events, topics) && topic < topics
    ensures Within(Only(events, topic), topics)
    ensures SameFor(Run(topics, maxRecords, maxBytes, events),
                    Run(topics, maxRecords, maxBytes, Only(events, topic)), topic)
  {
    OnlyIsWithin(events, topics, topic);
    if events != [] {
      var before, e := events[..|events| - 1], events[|events| - 1];
      TopicsDoNotInterfere(topics, maxRecords, maxBytes, before, topic);
      var a, b := Run(topics, maxRecords, maxBytes, before), Run(topics, maxRecords, maxBytes, Only(before, topic));
      if e.topic == topic {
        OwnEventSameEffect(a, b, e);
        var own := Only(events, topic);
        assert own[..|own| - 1] == Only(before, topic);
      } else {
        OtherTopicUntouched(a, e, topic);
        assert Only(events, topic) == Only(before, topic);
      }
    }
  }

  // ---------------------------------------------------------------- contiguity

  /** Offsets rise by one from each message to the next. */
  ghost predicate Consecutive(ms: seq<Message>) {
    forall i :: 0 < i < |ms| ==> ms[i].offset == ms[i - 1].offset + 1
  }

  lemma {:induction false} OfPartitionPrefix(ms: seq<Message>, k: nat, partition: int)
    requires k <= |ms|
    ensures OfPartition(ms[..k], partition) <= OfPartition(ms, partition)
  {
    if k < |ms| {
      OfPartitionPrefix(ms[..|ms| - 1], k, partition);
      assert ms[..|ms| - 1][..k] == ms[..k];
    } else {
      assert ms[..k] == ms;
    }
  }

  lemma {:induction false} ConsecutiveSpan(ms: seq<Message>)
    requires ms != [] && Consecutive(ms)
    ensures ms[|ms| - 1].offset - ms[0].offset + 1 == |ms|
  {
    if |ms| > 1 {
      ConsecutiveSpan(ms[..|ms| - 1]);
    }
  }

  /** If a partition's deliveries are consecutive, what is kept of it is one
      contiguous offset range, from the first delivery on. */
  lemma KeptRangeIsContiguous(topics: nat, maxRecords: nat, maxBytes: nat, events: seq<Event>, k: Key)
    requires Within(events, topics) && k.topic < topics
    requires Consecutive(OfPartition(Pushes(events, k.topic), k.partition))
    ensures var a := Run(topics, maxRecords, maxBytes, events);
            k in a.parts ==>
              && OfPartition(Pushes(events, k.topic), k.partition) != []
              && a.parts[k].startOffset == OfPartition(Pushes(events, k.topic), k.partition)[0].offset
              && a.parts[k].endOffset - a.parts[k].startOffset + 1 == |a.parts[k].records|
  {
    TopicHoldsItsPrefix(topics, maxRecords, maxBytes, events, k.topic);
    var a := Run(topics, maxRecords, maxBytes, events);
    if k in a.parts {
      assert k == Key(k.topic, k.partition);
      var ms := Pushes(events, k.topic);
      var n := KeptCount(ms, maxRecords, maxBytes);
      assert HoldsPart(a.parts, k, OfPartition(if EverFailed(events, k.topic) then [] else ms[..n], k.partition));
      OfPartitionPrefix(ms, n, k.partition);
      var own := OfPartition(ms[..n], k.partition);
      ConsecutiveSpan(own);
    }
  }

  // ---------------------------------------------------------------- the counters

  function Lengths(records: seq<Payload>): nat {
    if records == [] then 0 else Lengths(records[..|records| - 1]) + |records[|records| - 1]|
  }

  /** The records, and their bytes, held over all partitions of a set of accumulators. */
  ghost function Held(parts: map<Key, PartAcc>): TopicUsage {
    if parts == map[] then TopicUsage(0, 0)
    else
      var k :| k in parts;
      var rest := Held(parts - {k});
      TopicUsage(rest.records + |parts[k].records|, rest.bytes + Lengths(parts[k].records))
  }

  lemma {:induction false} HeldSplits(parts: map<Key, PartAcc>, k: Key)
    requires k in parts
    ensures Held(parts) == TopicUsage(Held(parts - {k}).records + |parts[k].records|,
                                      Held(parts - {k}).bytes + Lengths(parts[k].records))
    decreases |parts|
  {
    var j :| j in parts && Held(parts) == TopicUsage(Held(parts - {j}).records + |parts[j].records|,
                                                     Held(parts - {j}).bytes + Lengths(parts[j].records));
    if j != k {
      HeldSplits(parts - {j}, k);
      HeldSplits(parts - {k}, j);
      assert parts - {j} - {k} == parts - {k} - {j};
    }
  }

  function Of(parts: map<Key, PartAcc>, topic: nat): map<Key, PartAcc> {
    map k | k in parts && k.topic == topic :: parts[k]
  }

  function TotalRecords(usage: seq<TopicUsage>): nat {
    if usage == [] then 0 else TotalRecords(usage[..|usage| - 1]) + usage[|usage| - 1].records
  }

  function CountFull(full: seq<bool>): nat {
    if full == [] then 0 else CountFull(full[..|full| - 1]) + (if full[|full| - 1] then 1 else 0)
  }

  lemma {:induction false} TotalAfterUpdate(usage: seq<TopicUsage>, i: nat, u: TopicUsage)
    requires i < |usage|
    ensures TotalRecords(usage[i := u]) == TotalRecords(usage) - usage[i].records + u.records
    ensures usage[i].records <= TotalRecords(usage)
  {
    var n := |usage| - 1;
    if i < n {
      TotalAfterUpdate(usage[..n], i, u);
      assert usage[i := u][..n] == usage[..n][i := u];
    } else {
      assert usage[i := u][..n] == usage[..n];
    }
  }

  lemma {:induction false} CountAfterMark(full: seq<bool>, i: nat)
    requires i < |full| && !full[i]
    ensures CountFull(full[i := true]) == CountFull(full) + 1
  {
    var n := |full| - 1;
    if i < n {
      CountAfterMark(full[..n], i);
      assert full[i := true][..n] == full[..n][i := true];
    } else {
      assert full[i := true][..n] == full[..n];
    }
  }

  /** Each topic's usage is the sum over its partitions, within both budgets. */
  ghost predicate UsageIsHeld(parts: map<Key, PartAcc>, usage: seq<TopicUsage>, maxRecords: nat, maxBytes: nat) {
    forall t :: 0 <= t < |usage| ==>
      && usage[t] == Held(Of(parts, t))
      && usage[t].records <= maxRecords && usage[t].bytes <= maxBytes
  }

  /** Every counter equals its recomputed value, and no topic is over a budget. */
  ghost predicate Consistent(a: Acc) {
    && Shaped(a)
    && UsageIsHeld(a.parts, a.usage, a.maxRecords, a.maxBytes)
    && a.totalRecords == TotalRecords(a.usage)
    && a.fullTopics == CountFull(a.full)
  }

  lemma HeldAfterAdd(parts: map<Key, PartAcc>, k: Key, offset: int, payload: Payload)
    ensures Held(Of(AddRecord(parts, k, offset, payload), k.topic))
         == TopicUsage(Held(Of(parts, k.topic)).records + 1, Held(Of(parts, k.topic)).bytes + |payload|)
    ensures forall t :: t != k.topic ==> Of(AddRecord(parts, k, offset, payload), t) == Of(parts, t)
  {
    var after := AddRecord(parts, k, offset, payload);
    var mine, was := Of(after, k.topic), Of(parts, k.topic);
    HeldSplits(mine, k);
    assert mine - {k} == was - {k};
    var records := after[k].records;
    assert records[..|records| - 1] == if k in parts then parts[k].records else [];
    if k in was {
      HeldSplits(was, k);
    } else {
      assert was - {k} == was;
    }
  }

  lemma CountKeepsConsistent(a: Acc, k: Key, offset: int, payload: Payload)
    requires Consistent(a) && k.topic < |a.usage| && !OverBudget(a, k.topic, payload)
    ensures Consistent(Count(a, k, offset, payload))
  {
    HeldAfterAdd(a.parts, k, offset, payload);
    TotalAfterUpdate(a.usage, k.topic, Used(a, k.topic, payload));
  }

  lemma MarkFullKeepsConsistent(a: Acc, topic: nat)
    requires Consistent(a) && topic < |a.usage| && !a.full[topic]
    ensures Consistent(MarkFull(a, topic))
  {
    CountAfterMark(a.full, topic);
  }

  lemma PushKeepsConsistent(a: Acc, k: Key, offset: int, payload: Payload)
    requires Consistent(a) && k.topic < |a.usage|
    ensures Consistent(Push(a, k, offset, payload))
  {
    if a.full[k.topic] {
    } else if OverBudget(a, k.topic, payload) {
      MarkFullKeepsConsistent(a, k.topic);
    } else {
      var counted := Count(a, k, offset, payload);
      CountKeepsConsistent(a, k, offset, payload);
      if Keep(a, k, offset, payload) != counted {
        MarkFullKeepsConsistent(counted, k.topic);
      }
    }
  }

  lemma FailKeepsConsistent(a: Acc, topic: nat)
    requires Consistent(a) && topic < |a.usage|
    ensures Consistent(Fail(a, topic))
  {
    TotalAfterUpdate(a.usage, topic, TopicUsage(0, 0));
    if !a.full[topic] {
      CountAfterMark(a.full, topic);
    }
    UsageAfterFail(a, topic);
  }

  lemma UsageAfterFail(a: Acc, topic: nat)
    requires Consistent(a) && topic < |a.usage|
    ensures UsageIsHeld(Fail(a, topic).parts, Fail(a, topic).usage, a.maxRecords, a.maxBytes)
  {
    var r := Fail(a, topic);
    forall t | 0 <= t < |a.usage|
      ensures r.usage[t] == Held(Of(r.parts, t)) && r.usage[t].records <= a.maxRecords && r.usage[t].bytes <= a.maxBytes
    {
      if t == topic {
        assert Of(r.parts, t) == map[];
      } else {
        assert Of(r.parts, t) == Of(a.parts, t);
      }
    }
  }

  lemma EmptyIsConsistent(topics: nat, maxRecords: nat, maxBytes: nat)
    ensures Consistent(Empty(topics, maxRecords, maxBytes))
  {
    var a := Empty(topics, maxRecords, maxBytes);
    forall t | 0 <= t < topics ensures a.usage[t] == Held(Of(a.parts, t)) {
      assert Of(a.parts, t) == map[];
    }
    AllZero(a.usage, a.full);
  }

  lemma {:induction false} AllZero(usage: seq<TopicUsage>, full: seq<bool>)
    requires forall i :: 0 <= i < |usage| ==> usage[i] == TopicUsage(0, 0)
    requires forall i :: 0 <= i < |full| ==> !full[i]
    ensures TotalRecords(usage) == 0 && CountFull(full) == 0
    decreases |usage| + |full|
  {
    if usage != [] {
      AllZero(usage[..|usage| - 1], full);
    } else if full != [] {
      AllZero(usage, full[..|full| - 1]);
    }
  }

  /** Over every interleaving of pushes and topic failures. */
  lemma {:induction false} CountersStayConsistent(topics: nat, maxRecords: nat, maxBytes: nat, events: seq<Event>)
    requires Within(events, topics)
    ensures Consistent(Run(topics, maxRecords, maxBytes, events))
  {
    if events == [] {
      EmptyIsConsistent(topics, maxRecords, maxBytes);
    } else {
      var before, e := events[..|events| - 1], events[|events| - 1];
      CountersStayConsistent(topics, maxRecords, maxBytes, before);
      var a := Run(topics, maxRecords, maxBytes, before);
      match e
      case Pushed(t, m) => PushKeepsConsistent(a, Key(t, m.partition), m.offset, m.payload);
      case Failed(t) => FailKeepsConsistent(a, t);
    }
  }
}
