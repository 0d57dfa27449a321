/**
  Collecting a benchmark matrix, after `benchmarks/run_matrix.py`: scenarios run one
  at a time, those declaring a shaping driver not seen yet first, and the matrix is
  refused the moment the rows in hand span two drivers.

  `rows[i]` is what running scenario `i` produces, if anything, whenever it is run.
 */
module RunMatrix {
  import opened Options

  /** `driver` is blank on an unshaped row. */
  datatype Row = Row(driver: string, body: nat)

  predicate Exists(rows: seq<Option<Row>>, i: nat) {
    i < |rows| && rows[i].Some?
  }

  predicate Clash(rows: seq<Option<Row>>, i: nat, j: nat) {
    Exists(rows, i) && Exists(rows, j)
    && rows[i].value.driver != "" && rows[j].value.driver != "" && rows[i].value.driver != rows[j].value.driver
  }

  /** Whether two of the rows of these scenarios were shaped by different drivers. */
  ghost predicate Spans(rows: seq<Option<Row>>, run: seq<nat>) {
    exists i, j :: i in run && j in run && Clash(rows, i, j)
  }

  ghost predicate Mixed(rows: seq<Option<Row>>) {
    exists i, j :: Clash(rows, i, j)
  }

  /** The rows there are, in the order of the scenario list. */
  function InOrder(rows: seq<Option<Row>>): seq<Row> {
    if rows == [] then []
    else
      var last := rows[|rows| - 1];
      InOrder(rows[..|rows| - 1]) + if last.Some? then [last.value] else []
  }

  /** How many of these scenarios produced a row. */
  function RowCount(rows: seq<Option<Row>>, run: seq<nat>): nat {
    if run == [] then 0 else RowCount(rows, run[..|run| - 1]) + if Exists(rows, run[|run| - 1]) then 1 else 0
  }

  /** Every row's driver is the one its scenario declared. */
  ghost predicate Accurate(declared: seq<string>, rows: seq<Option<Row>>) {
    forall i :: 0 <= i < |rows| && rows[i].Some? && i < |declared| ==> rows[i].value.driver == declared[i]
  }

  ghost predicate NoRepeats(run: seq<nat>) {
    forall a, b :: 0 <= a < b < |run| ==> run[a] != run[b]
  }

  // ---------------------------------------------------------------- the two judgements

  function Drivers(rows: seq<Option<Row>>, produced: seq<nat>): set<string> {
    set i | i in produced && Exists(rows, i) :: rows[i].value.driver
  }

  lemma TwoOfThem(s: set<string>)
    requires |s| > 1
    ensures exists a, b :: a in s && b in s && a != b
  {
    var a :| a in s;
    assert |s - {a}| > 0;
    var b :| b in s - {a};
  }

  lemma TwoAreMany(s: set<string>, a: string, b: string)
    requires a in s && b in s && a != b
    ensures |s| > 1
  {
    assert b in s - {a};
    assert |s| == |s - {a}| + 1;
  }

  /** `refuse_mixed_drivers` counts distinct drivers; it refuses exactly the sets with two that differ. */
  lemma RefusedExactlyWhenSpanning(rows: seq<Option<Row>>, produced: seq<nat>)
    ensures |Drivers(rows, produced) - {""}| > 1 <==> Spans(rows, produced)
  {
    var drivers := Drivers(rows, produced) - {""};
    if |drivers| > 1 {
      TwoOfThem(drivers);
      var a, b :| a in drivers && b in drivers && a != b;
      var i: nat :| i in produced && Exists(rows, i) && rows[i].value.driver == a;
      var j: nat :| j in produced && Exists(rows, j) && rows[j].value.driver == b;
      assert Clash(rows, i, j);
    }
    if Spans(rows, produced) {
      var i, j :| i in produced && j in produced && Clash(rows, i, j);
      TwoAreMany(drivers, rows[i].value.driver, rows[j].value.driver);
    }
  }

  predicate Unseen(declared: seq<string>, seen: set<string>, i: nat) {
    i < |declared| && declared[i] != "" && declared[i] !in seen
  }

  /** The first pending scenario declaring a driver no row has shown yet, or the first pending one. */
  method PickNext(declared: seq<string>, pending: seq<nat>, seen: set<string>) returns (k: nat)
    requires pending != []
    ensures k < |pending|
    ensures Unseen(declared, seen, pending[k])
        || (k == 0 && forall i :: 0 <= i < |pending| ==> !Unseen(declared, seen, pending[i]))
    ensures forall i :: 0 <= i < k ==> !Unseen(declared, seen, pending[i])
  {
    k := 0;
    while k < |pending|
      invariant k <= |pending|
      invariant forall i :: 0 <= i < k ==> !Unseen(declared, seen, pending[i])
    {
      if Unseen(declared, seen, pending[k]) {
        return;
      }
      k := k + 1;
    }
    k := 0;
  }

  // ---------------------------------------------------------------- the loop's bookkeeping

  /** Every scenario is waiting or has run, never both and never twice. */
  ghost predicate Ledger(n: nat, pending: seq<nat>, ran: seq<nat>) {
    && (forall i: nat :: i < n <==> i in pending || i in ran)
    && (forall i :: i in pending ==> i !in ran)
    && NoRepeats(pending) && NoRepeats(ran)
  }

  function Without(pending: seq<nat>, k: nat): seq<nat>
    requires k < |pending|
  {
    pending[..k] + pending[k + 1..]
  }

  lemma WithoutMembers(pending: seq<nat>, k: nat, i: nat)
    requires k < |pending| && NoRepeats(pending)
    ensures i in Without(pending, k) <==> i in pending && i != pending[k]
  {
    if i in pending && i != pending[k] {
      var a :| 0 <= a < |pending| && pending[a] == i;
      assert Without(pending, k)[if a < k then a else a - 1] == i;
    }
    if i in Without(pending, k) {
      var a :| 0 <= a < |Without(pending, k)| && Without(pending, k)[a] == i;
      assert pending[if a < k then a else a + 1] == i;
    }
  }

  lemma RunOne(n: nat, pending: seq<nat>, ran: seq<nat>, k: nat)
    requires Ledger(n, pending, ran) && k < |pending|
    ensures Ledger(n, Without(pending, k), ran + [pending[k]])
  {
    forall i: nat ensures i in Without(pending, k) <==> i in pending && i != pending[k] {
      WithoutMembers(pending, k, i);
    }
    assert pending[k] in pending;
    var more := ran + [pending[k]];
    assert forall i: nat :: i in more <==> i in ran || i == pending[k];
    assert forall a :: 0 <= a < |ran| ==> ran[a] in ran;
  }

  /** `produced` is the part of `ran` that has rows. */
  ghost predicate HasRows(rows: seq<Option<Row>>, ran: seq<nat>, produced: seq<nat>) {
    && |produced| == RowCount(rows, ran)
    && forall i :: i in produced <==> i in ran && Exists(rows, i)
  }

  lemma RunOneRow(rows: seq<Option<Row>>, ran: seq<nat>, produced: seq<nat>, i: nat)
    requires HasRows(rows, ran, produced)
    ensures HasRows(rows, ran + [i], if Exists(rows, i) then produced + [i] else produced)
  {
    assert (ran + [i])[..|ran|] == ran;
  }

  lemma SpansAlike(rows: seq<Option<Row>>, ran: seq<nat>, produced: seq<nat>)
    requires HasRows(rows, ran, produced)
    ensures Spans(rows, ran) <==> Spans(rows, produced)
  {
  }

  /** While a declared driver has no row yet, at most one row exists, and it is a shaped one. */
  ghost predicate Early(declared: seq<string>, rows: seq<Option<Row>>, pending: seq<nat>, produced: seq<nat>) {
    (exists i :: i in pending && Unseen(declared, Drivers(rows, produced), i))
    ==> |produced| <= 1 && forall i :: i in produced && Exists(rows, i) ==> rows[i].value.driver != ""
  }

  lemma DriversGrow(rows: seq<Option<Row>>, produced: seq<nat>, i: nat)
    requires Exists(rows, i)
    ensures Drivers(rows, produced + [i]) == Drivers(rows, produced) + {rows[i].value.driver}
  {
    var more := produced + [i];
    forall d ensures d in Drivers(rows, more) <==> d in Drivers(rows, produced) + {rows[i].value.driver} {
      if d in Drivers(rows, produced) {
        var k: nat :| k in produced && Exists(rows, k) && rows[k].value.driver == d;
        assert k in more;
      }
      assert i in more;
    }
  }

  /** A row whose driver is new, and shaped, clashes with any shaped row already there. */
  lemma NewDriverClashes(rows: seq<Option<Row>>, produced: seq<nat>, i: nat, j: nat)
    requires Exists(rows, i) && rows[i].value.driver != "" && rows[i].value.driver !in Drivers(rows, produced)
    requires j in produced && Exists(rows, j) && rows[j].value.driver != ""
    ensures Spans(rows, produced + [i])
  {
    assert rows[j].value.driver in Drivers(rows, produced);
    assert j in produced + [i] && i in produced + [i] && Clash(rows, i, j);
  }

  lemma RunOneEarly(declared: seq<string>, rows: seq<Option<Row>>, pending: seq<nat>, produced: seq<nat>, k: nat)
    requires |declared| == |rows| && Accurate(declared, rows) && k < |pending| && NoRepeats(pending)
    requires forall i :: i in produced ==> Exists(rows, i)
    requires Early(declared, rows, pending, produced)
    requires Unseen(declared, Drivers(rows, produced), pending[k])
             || forall i :: 0 <= i < |pending| ==> !Unseen(declared, Drivers(rows, produced), pending[i])
    requires Exists(rows, pending[k]) && !Spans(rows, produced + [pending[k]])
    ensures Early(declared, rows, Without(pending, k), produced + [pending[k]])
  {
    var index := pending[k];
    var after := produced + [index];
    DriversGrow(rows, produced, index);
    if exists i :: i in Without(pending, k) && Unseen(declared, Drivers(rows, after), i) {
      var i :| i in Without(pending, k) && Unseen(declared, Drivers(rows, after), i);
      WithoutMembers(pending, k, i);
      assert Unseen(declared, Drivers(rows, produced), i);
      assert Unseen(declared, Drivers(rows, produced), index);
      if produced != [] {
        NewDriverClashes(rows, produced, index, produced[0]);
        assert false;
      }
    }
  }

  lemma RunNoneEarly(declared: seq<string>, rows: seq<Option<Row>>, pending: seq<nat>, produced: seq<nat>, k: nat)
    requires k < |pending| && NoRepeats(pending) && Early(declared, rows, pending, produced)
    ensures Early(declared, rows, Without(pending, k), produced)
  {
    if exists i :: i in Without(pending, k) && Unseen(declared, Drivers(rows, produced), i) {
      var i :| i in Without(pending, k) && Unseen(declared, Drivers(rows, produced), i);
      WithoutMembers(pending, k, i);
    }
  }

  /** The row that makes the matrix mixed is the second one, if declarations can be trusted. */
  lemma ConflictIsTheSecondRow(declared: seq<string>, rows: seq<Option<Row>>, pending: seq<nat>, produced: seq<nat>,
                               k: nat)
    requires |declared| == |rows| && Accurate(declared, rows) && k < |pending|
    requires Early(declared, rows, pending, produced) && !Spans(rows, produced)
    requires Unseen(declared, Drivers(rows, produced), pending[k])
             || forall i :: 0 <= i < |pending| ==> !Unseen(declared, Drivers(rows, produced), pending[i])
    requires Exists(rows, pending[k]) && Spans(rows, produced + [pending[k]])
    ensures |produced| == 1
  {
    var index := pending[k];
    var after := produced + [index];
    var i, j :| i in after && j in after && Clash(rows, i, j);
    var other := if i in produced then i else j;
    assert other in produced by {
      if i !in produced { assert i == index && j != index; }
    }
    assert rows[index].value.driver == declared[index];
    if !Unseen(declared, Drivers(rows, produced), index) {
      ClashWasThere(rows, produced, index, i, j);
      assert false;
    }
  }

  /** A row of a driver already seen, or of none, brings no new clash. */
  lemma ClashWasThere(rows: seq<Option<Row>>, produced: seq<nat>, index: nat, i: nat, j: nat)
    requires Exists(rows, index)
        && (rows[index].value.driver == "" || rows[index].value.driver in Drivers(rows, produced))
    requires i in produced + [index] && j in produced + [index] && Clash(rows, i, j)
    ensures Spans(rows, produced)
  {
    var a := SameDriver(rows, produced, index, i);
    var b := SameDriver(rows, produced, index, j);
    assert Clash(rows, a, b);
  }

  lemma SameDriver(rows: seq<Option<Row>>, produced: seq<nat>, index: nat, i: nat) returns (a: nat)
    requires Exists(rows, index)
        && (rows[index].value.driver == "" || rows[index].value.driver in Drivers(rows, produced))
    requires i in produced + [index] && Exists(rows, i) && rows[i].value.driver != ""
    ensures a in produced && Exists(rows, a) && rows[a].value.driver == rows[i].value.driver
  {
    if i in produced {
      a := i;
    } else {
      a :| a in produced && Exists(rows, a) && rows[a].value.driver == rows[index].value.driver;
    }
  }

  // ---------------------------------------------------------------- collecting

  lemma InOrderStep(rows: seq<Option<Row>>, i: nat)
    requires i < |rows|
    ensures InOrder(rows[..i + 1]) == InOrder(rows[..i]) + if rows[i].Some? then [rows[i].value] else []
  {
    assert rows[..i + 1][..i] == rows[..i];
  }

  /** The produced rows sorted by their scenario's place in the list. */
  method ListOrder(rows: seq<Option<Row>>, produced: seq<nat>) returns (table: seq<Row>)
    requires forall i: nat :: i in produced <==> Exists(rows, i)
    ensures table == InOrder(rows)
  {
    table := [];
    for i := 0 to |rows|
      invariant table == InOrder(rows[..i])
    {
      InOrderStep(rows, i);
      if i in produced {
        assert Exists(rows, i);
        table := table + [rows[i].value];
      }
    }
    assert rows[..|rows|] == rows;
  }

  method FirstPending(n: nat) returns (pending: seq<nat>)
    ensures Ledger(n, pending, []) && |pending| == n
  {
    pending := [];
    for i := 0 to n
      invariant |pending| == i && forall k :: 0 <= k < i ==> pending[k] == k
    {
      pending := pending + [i];
    }
    forall i: nat ensures i < n <==> i in pending {
      if i < n { assert pending[i] == i; }
    }
  }

  /** `collect_rows`: the table when every row fits in one, and nothing otherwise; `ran` lists the
      scenarios run, in order. Whether there is a table depends on the rows alone, never on what the
      scenarios declare; no scenario runs twice; and a refusal comes with the first row that clashes,
      which is the second row of all if the declarations are true. */
  method CollectRows(declared: seq<string>, rows: seq<Option<Row>>) returns (table: Option<seq<Row>>, ran: seq<nat>)
    requires |declared| == |rows|
    ensures table.Some? <==> !Mixed(rows)
    ensures table.Some? ==> table.value == InOrder(rows) && forall i: nat :: i < |rows| ==> i in ran
    ensures NoRepeats(ran) && forall i :: i in ran ==> i < |rows|
    ensures table.None? ==> ran != [] && Spans(rows, ran) && !Spans(rows, ran[..|ran| - 1])
    ensures table.None? && Accurate(declared, rows) ==> RowCount(rows, ran) == 2
  {
    var pending := FirstPending(|rows|);
    var produced: seq<nat> := [];
    ran := [];
    while pending != []
      invariant Ledger(|rows|, pending, ran)
      invariant HasRows(rows, ran, produced)
      invariant !Spans(rows, produced)
      invariant Accurate(declared, rows) ==> Early(declared, rows, pending, produced)
      decreases |pending|
    {
      var k := PickNext(declared, pending, Drivers(rows, produced));
      var index := pending[k];
      ghost var before := ran;
      RunOne(|rows|, pending, ran, k);
      RunOneRow(rows, ran, produced, index);
      SpansAlike(rows, ran, produced);
      ran := ran + [index];
      assert index < |rows| by { assert index in pending; }
      if rows[index].Some? {
        RefusedExactlyWhenSpanning(rows, produced + [index]);
        SpansAlike(rows, ran, produced + [index]);
        if |Drivers(rows, produced + [index]) - {""}| > 1 {
          if Accurate(declared, rows) {
            ConflictIsTheSecondRow(declared, rows, pending, produced, k);
          }
          assert ran[..|ran| - 1] == before;
          SpansMixes(rows, ran);
          return None, ran;
        }
        if Accurate(declared, rows) {
          RunOneEarly(declared, rows, pending, produced, k);
        }
        produced := produced + [index];
      } else if Accurate(declared, rows) {
        RunNoneEarly(declared, rows, pending, produced, k);
      }
      pending := Without(pending, k);
    }
    MixedSpans(rows, produced);
    var all := ListOrder(rows, produced);
    table := Some(all);
  }

  lemma SpansMixes(rows: seq<Option<Row>>, ran: seq<nat>)
    requires Spans(rows, ran)
    ensures Mixed(rows)
  {
  }

  lemma MixedSpans(rows: seq<Option<Row>>, produced: seq<nat>)
    requires forall i: nat :: Exists(rows, i) ==> i in produced
    ensures Mixed(rows) ==> Spans(rows, produced)
  {
  }
}
