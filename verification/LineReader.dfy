/**
  The bounded reads of `FileSource::read_opened`: complete lines only, within a
  record and a byte budget, or the whole remaining file as one record.
 */
module LineReader {
  type byte = bv8

  const NEWLINE: byte := 10

  function Min(a: nat, b: nat): nat {
    if a < b then a else b
  }

  /** What a read returns: records and the position after them, or the refusal
      of a record that alone exceeds the byte budget. */
  datatype Outcome = Taken(records: seq<seq<byte>>, end: nat) | TooLong

  // ---------------------------------------------------------------- the reference split

  /** The position after the first newline of `pos..hi`; `hi` when there is none. */
  function LineEnd(c: seq<byte>, pos: nat, hi: nat): (e: nat)
    requires pos <= hi <= |c|
    ensures pos <= e <= hi && (pos < hi ==> pos < e)
    decreases hi - pos
  {
    if pos == hi then hi else if c[pos] == NEWLINE then pos + 1 else LineEnd(c, pos + 1, hi)
  }

  /** Position `end` closes a line (or nothing lies between it and `start`). */
  predicate Boundary(c: seq<byte>, start: nat, end: nat)
    requires start <= end <= |c|
  {
    end == start || c[end - 1] == NEWLINE
  }

  /** The one-shot split of `a..b`: every newline-terminated line, without its newline. */
  function Lines(c: seq<byte>, a: nat, b: nat): seq<seq<byte>>
    requires a <= b <= |c|
    decreases b - a
  {
    if a == b then []
    else
      var e := LineEnd(c, a, b);
      if c[e - 1] != NEWLINE then [] else [c[a..e - 1]] + Lines(c, e, b)
  }

  /** The end of the newline-terminated prefix of `a..b`. */
  function TerminatedEnd(c: seq<byte>, a: nat, b: nat): (e: nat)
    requires a <= b <= |c|
    ensures a <= e <= b && Boundary(c, a, e)
    ensures forall k :: e <= k < b ==> c[k] != NEWLINE
    decreases b
  {
    if a == b || c[b - 1] == NEWLINE then b else TerminatedEnd(c, a, b - 1)
  }

  /** The records with their newlines put back. */
  function Frame(records: seq<seq<byte>>): seq<byte> {
    if records == [] then [] else records[0] + [NEWLINE] + Frame(records[1..])
  }

  // ---------------------------------------------------------------- the reads

  /** The line loop from the middle of a read that started at `start` and has
      taken `records`, ending at `pos`. */
  function Scan(c: seq<byte>, start: nat, maxRecords: nat, maxBytes: nat, records: seq<seq<byte>>, pos: nat): Outcome
    requires start <= pos <= |c|
    decreases |c| - pos
  {
    if |records| >= maxRecords || pos - start >= maxBytes then Taken(records, pos)
    else
      var remaining := maxBytes - (pos - start);
      var n := Min(LineEnd(c, pos, |c|) - pos, remaining + 1);
      if n == 0 then Taken(records, pos)
      else if n > remaining then (if records == [] then TooLong else Taken(records, pos))
      else if c[pos + n - 1] != NEWLINE then Taken(records, pos)
      else Scan(c, start, maxRecords, maxBytes, records + [c[pos..pos + n - 1]], pos + n)
  }

  function ReadFrom(c: seq<byte>, start: nat, maxRecords: nat, maxBytes: nat): Outcome
    requires start <= |c|
  {
    Scan(c, start, maxRecords, maxBytes, [], start)
  }

  function ReadWhole(c: seq<byte>, start: nat, maxBytes: nat): Outcome
    requires start <= |c|
  {
    if |c| - start > maxBytes then TooLong
    else Taken(if start == |c| then [] else [c[start..]], |c|)
  }

  /** The loop as the source runs it. */
  method ReadLines(c: seq<byte>, start: nat, maxRecords: nat, maxBytes: nat) returns (r: Outcome)
    requires start <= |c|
    ensures r == ReadFrom(c, start, maxRecords, maxBytes)
  {
    var records := [];
    var bytesRead := 0;
    var pos := start;
    while true
      invariant start <= pos <= |c| && bytesRead == pos - start
      invariant Scan(c, start, maxRecords, maxBytes, records, pos) == ReadFrom(c, start, maxRecords, maxBytes)
      decreases |c| - pos
    {
      if |records| >= maxRecords || bytesRead >= maxBytes {
        assert Scan(c, start, maxRecords, maxBytes, records, pos) == Taken(records, pos);
        break;
      }
      var remaining := maxBytes - bytesRead;
      var n := Min(LineEnd(c, pos, |c|) - pos, remaining + 1);
      var line := c[pos..pos + n];
      if n == 0 {
        assert Scan(c, start, maxRecords, maxBytes, records, pos) == Taken(records, pos);
        break;
      }
      if n > remaining {
        if records == [] {
          return TooLong;
        }
        assert Scan(c, start, maxRecords, maxBytes, records, pos) == Taken(records, pos);
        break;
      }
      if line[n - 1] != NEWLINE {
        assert Scan(c, start, maxRecords, maxBytes, records, pos) == Taken(records, pos);
        break;
      }
      WithoutNewline(c, pos, n);
      pos := pos + n;
      bytesRead := bytesRead + n;
      records := records + [line[..n - 1]];
    }
    return Taken(records, pos);
  }

  lemma WithoutNewline(c: seq<byte>, pos: nat, n: nat)
    requires 0 < n && pos + n <= |c|
    ensures c[pos..pos + n][..n - 1] == c[pos..pos + n - 1]
  {
  }

  // ---------------------------------------------------------------- the split, put together from pieces

  lemma {:induction false} LineEndOfPrefix(c: seq<byte>, a: nat, m: nat, b: nat)
    requires a < m <= b <= |c| && c[m - 1] == NEWLINE
    ensures LineEnd(c, a, b) == LineEnd(c, a, m)
    ensures c[LineEnd(c, a, m) - 1] == NEWLINE
    decreases m - a
  {
    if c[a] != NEWLINE {
      LineEndOfPrefix(c, a + 1, m, b);
    }
  }

  /** The split cuts at any position that closes a line. */
  lemma {:induction false} LinesSplit(c: seq<byte>, a: nat, m: nat, b: nat)
    requires a <= m <= b <= |c| && Boundary(c, a, m)
    ensures Lines(c, a, b) == Lines(c, a, m) + Lines(c, m, b)
    decreases m - a
  {
    if a < m {
      LineEndOfPrefix(c, a, m, b);
      LinesSplit(c, LineEnd(c, a, m), m, b);
    }
  }

  /** Appending to the file changes no line already in it. */
  lemma {:induction false} LineEndAfterAppend(c: seq<byte>, d: seq<byte>, a: nat, b: nat)
    requires a <= b <= |c| && c <= d
    ensures LineEnd(c, a, b) == LineEnd(d, a, b)
    decreases b - a
  {
    if a < b {
      LineEndAfterAppend(c, d, a + 1, b);
    }
  }

  lemma {:induction false} LinesAfterAppend(c: seq<byte>, d: seq<byte>, a: nat, b: nat)
    requires a <= b <= |c| && c <= d
    ensures Lines(c, a, b) == Lines(d, a, b)
    decreases b - a
  {
    if a < b {
      LineEndAfterAppend(c, d, a, b);
      var e := LineEnd(c, a, b);
      assert c[a..e - 1] == d[a..e - 1];
      LinesAfterAppend(c, d, e, b);
    }
  }

  lemma {:induction false} FrameOfLines(c: seq<byte>, a: nat, b: nat)
    requires a <= b <= |c| && Boundary(c, a, b)
    ensures Frame(Lines(c, a, b)) == c[a..b]
    decreases b - a
  {
    if a < b {
      LineEndOfPrefix(c, a, b, b);
      var e := LineEnd(c, a, b);
      FrameOfLines(c, e, b);
      FramePrepend(c, a, e, b, Lines(c, e, b));
    }
  }

  lemma FramePrepend(c: seq<byte>, a: nat, e: nat, b: nat, rest: seq<seq<byte>>)
    requires a < e <= b <= |c| && c[e - 1] == NEWLINE && Frame(rest) == c[e..b]
    ensures Frame([c[a..e - 1]] + rest) == c[a..b]
  {
    var all := [c[a..e - 1]] + rest;
    assert all[1..] == rest;
    assert c[a..b] == c[a..e - 1] + [NEWLINE] + c[e..b];
  }

  // ---------------------------------------------------------------- one read

  /** The read so far is the split of the bytes it covers. */
  ghost predicate Exact(c: seq<byte>, start: nat, records: seq<seq<byte>>, end: nat) {
    && start <= end <= |c|
    && Boundary(c, start, end)
    && records == Lines(c, start, end)
  }

  /** Nothing more could have been taken within the budgets. */
  ghost predicate Maximal(c: seq<byte>, start: nat, maxRecords: nat, maxBytes: nat, records: seq<seq<byte>>, end: nat)
    requires start <= end <= |c|
  {
    || |records| >= maxRecords
    || end - start >= maxBytes
    || Lines(c, end, |c|) == []
    || LineEnd(c, end, |c|) - start > maxBytes
  }

  lemma ExactStep(c: seq<byte>, start: nat, records: seq<seq<byte>>, pos: nat, e: nat)
    requires Exact(c, start, records, pos)
    requires pos < |c| && e == LineEnd(c, pos, |c|) && c[e - 1] == NEWLINE
    ensures Exact(c, start, records + [c[pos..e - 1]], e)
  {
    LineEndOfPrefix(c, pos, e, |c|);
    assert Lines(c, pos, e) == [c[pos..e - 1]] + Lines(c, e, e);
    LinesSplit(c, start, pos, e);
  }

  /** What every successful read is: exact, within the budgets, and maximal. */
  ghost predicate GoodRead(c: seq<byte>, start: nat, maxRecords: nat, maxBytes: nat, records: seq<seq<byte>>,
                           end: nat) {
    && Exact(c, start, records, end)
    && |records| <= maxRecords && end - start <= maxBytes
    && Maximal(c, start, maxRecords, maxBytes, records, end)
  }

  lemma {:induction false} ScanIsExact(c: seq<byte>, start: nat, maxRecords: nat, maxBytes: nat,
                                       records: seq<seq<byte>>, pos: nat)
    requires Exact(c, start, records, pos)
    requires |records| <= maxRecords && pos - start <= maxBytes
    ensures var r := Scan(c, start, maxRecords, maxBytes, records, pos);
            r.Taken? ==> GoodRead(c, start, maxRecords, maxBytes, r.records, r.end)
    decreases |c| - pos
  {
    if |records| < maxRecords && pos - start < maxBytes && pos < |c| {
      var e := LineEnd(c, pos, |c|);
      if e - start <= maxBytes && c[e - 1] == NEWLINE {
        ExactStep(c, start, records, pos, e);
        ScanIsExact(c, start, maxRecords, maxBytes, records + [c[pos..e - 1]], e);
      } else {
        assert c[e - 1] != NEWLINE ==> Lines(c, pos, |c|) == [];
        assert Maximal(c, start, maxRecords, maxBytes, records, pos);
      }
    } else {
      assert Maximal(c, start, maxRecords, maxBytes, records, pos);
    }
  }

  /** One line-mode read: byte-exact with `start..end`, within both budgets,
      no partial tail, and as much as the budgets allow. */
  lemma ReadIsExact(c: seq<byte>, start: nat, maxRecords: nat, maxBytes: nat)
    requires start <= |c|
    ensures var r := ReadFrom(c, start, maxRecords, maxBytes);
            r.Taken? ==>
              && GoodRead(c, start, maxRecords, maxBytes, r.records, r.end)
              && Frame(r.records) == c[start..r.end]
  {
    ScanIsExact(c, start, maxRecords, maxBytes, [], start);
    var r := ReadFrom(c, start, maxRecords, maxBytes);
    if r.Taken? {
      FrameOfLines(c, start, r.end);
    }
  }

  lemma {:induction false} ScanKeepsRecords(c: seq<byte>, start: nat, maxRecords: nat, maxBytes: nat,
                                            records: seq<seq<byte>>, pos: nat)
    requires start <= pos <= |c| && records != []
    ensures var r := Scan(c, start, maxRecords, maxBytes, records, pos);
            r.Taken? && pos <= r.end <= |c|
    decreases |c| - pos
  {
    if |records| < maxRecords && pos - start < maxBytes && pos < |c| {
      var e := LineEnd(c, pos, |c|);
      if e - start <= maxBytes && c[e - 1] == NEWLINE {
        ScanKeepsRecords(c, start, maxRecords, maxBytes, records + [c[pos..e - 1]], e);
      }
    }
  }

  /** A read is refused exactly when both budgets are positive and the next
      record (a line, or an unterminated tail) is longer than the byte budget. */
  lemma RefusedExactlyWhenTooLong(c: seq<byte>, start: nat, maxRecords: nat, maxBytes: nat)
    requires start <= |c|
    ensures ReadFrom(c, start, maxRecords, maxBytes).TooLong?
       <==> maxRecords > 0 && maxBytes > 0 && LineEnd(c, start, |c|) - start > maxBytes
  {
    if maxRecords > 0 && maxBytes > 0 && start < |c| {
      var e := LineEnd(c, start, |c|);
      if e - start <= maxBytes && c[e - 1] == NEWLINE {
        ScanKeepsRecords(c, start, maxRecords, maxBytes, [] + [c[start..e - 1]], e);
      }
    }
  }

  /** A complete line that fits is taken. */
  lemma ReadProgresses(c: seq<byte>, start: nat, maxRecords: nat, maxBytes: nat)
    requires start < |c| && maxRecords > 0
    requires c[LineEnd(c, start, |c|) - 1] == NEWLINE && LineEnd(c, start, |c|) - start <= maxBytes
    ensures var r := ReadFrom(c, start, maxRecords, maxBytes);
            r.Taken? && start < r.end
  {
    var e := LineEnd(c, start, |c|);
    ScanKeepsRecords(c, start, maxRecords, maxBytes, [] + [c[start..e - 1]], e);
  }

  // ---------------------------------------------------------------- successive reads

  /** One read of the file as it then is, with that read's budgets. */
  datatype Call = Call(content: seq<byte>, maxRecords: nat, maxBytes: nat)

  /** The file only grows from one call to the next. */
  ghost predicate Growing(calls: seq<Call>) {
    forall i, j :: 0 <= i < j < |calls| ==> calls[i].content <= calls[j].content
  }

  /** Where the read after `call` resumes: a refused read leaves the position alone. */
  function After(pos: nat, call: Call): (at: nat)
    requires pos <= |call.content|
    ensures pos <= at <= |call.content|
  {
    var r := ReadFrom(call.content, pos, call.maxRecords, call.maxBytes);
    ReadIsExact(call.content, pos, call.maxRecords, call.maxBytes);
    if r.Taken? then r.end else pos
  }

  function HandedOut(pos: nat, call: Call): seq<seq<byte>>
    requires pos <= |call.content|
  {
    var r := ReadFrom(call.content, pos, call.maxRecords, call.maxBytes);
    if r.Taken? then r.records else []
  }

  /** All records, and the final position, of reads that each resume where the last one ended. */
  ghost function Successive(pos: nat, calls: seq<Call>): (seq<seq<byte>>, nat)
    requires calls != [] ==> pos <= |calls[0].content|
    requires Growing(calls)
    decreases |calls|
  {
    if calls == [] then ([], pos)
    else
      var (rest, end) := Successive(After(pos, calls[0]), calls[1..]);
      (HandedOut(pos, calls[0]) + rest, end)
  }

  lemma CallIsExact(pos: nat, call: Call, d: seq<byte>)
    requires pos <= |call.content| && call.content <= d
    ensures Exact(d, pos, HandedOut(pos, call), After(pos, call))
  {
    ReadIsExact(call.content, pos, call.maxRecords, call.maxBytes);
    LinesAfterAppend(call.content, d, pos, After(pos, call));
  }

  lemma ExactConcat(c: seq<byte>, a: nat, m: nat, b: nat, x: seq<seq<byte>>, y: seq<seq<byte>>)
    requires Exact(c, a, x, m) && Exact(c, m, y, b)
    ensures Exact(c, a, x + y, b)
  {
    LinesSplit(c, a, m, b);
  }

  lemma {:induction false} SuccessiveIsExact(pos: nat, calls: seq<Call>)
    requires calls != [] && pos <= |calls[0].content| && Growing(calls)
    ensures var (records, end) := Successive(pos, calls);
            Exact(calls[|calls| - 1].content, pos, records, end)
    decreases |calls|
  {
    var last := calls[|calls| - 1].content;
    var at := After(pos, calls[0]);
    CallIsExact(pos, calls[0], last);
    if |calls| > 1 {
      SuccessiveIsExact(at, calls[1..]);
      assert calls[1..][|calls| - 2] == calls[|calls| - 1];
      var (rest, end) := Successive(at, calls[1..]);
      ExactConcat(last, pos, at, end, HandedOut(pos, calls[0]), rest);
    }
  }

  /** Whatever the budgets, and however the file grows between reads, what has
      been handed out is a prefix of the one-shot split of the whole file, and
      is byte-exact with the bytes the position has passed. */
  lemma ReadsFormAPrefixOfTheSplit(calls: seq<Call>)
    requires calls != [] && Growing(calls)
    ensures var (records, end) := Successive(0, calls);
            var c := calls[|calls| - 1].content;
            && end <= TerminatedEnd(c, 0, |c|)
            && Frame(records) == c[..end]
            && records <= Lines(c, 0, |c|)
  {
    SuccessiveIsExact(0, calls);
    var (records, end) := Successive(0, calls);
    var c := calls[|calls| - 1].content;
    LinesSplit(c, 0, end, |c|);
    FrameOfLines(c, 0, end);
    assert 0 < end ==> c[end - 1] == NEWLINE;
  }

  /** The call takes any complete line at or after `pos`. */
  ghost predicate EachLineFits(c: seq<byte>, pos: nat, call: Call)
    requires pos <= |c|
  {
    && call.content == c
    && call.maxRecords > 0
    && forall line :: line in Lines(c, pos, |c|) ==> |line| + 1 <= call.maxBytes
  }

  lemma FittingCallAdvances(c: seq<byte>, pos: nat, call: Call)
    requires pos <= |c| && EachLineFits(c, pos, call)
    requires Lines(c, pos, |c|) != []
    ensures pos < After(pos, call)
  {
    var e := LineEnd(c, pos, |c|);
    assert Lines(c, pos, |c|)[0] == c[pos..e - 1];
    assert |c[pos..e - 1]| + 1 <= call.maxBytes;
    ReadProgresses(c, pos, call.maxRecords, call.maxBytes);
  }

  lemma CallSplits(c: seq<byte>, pos: nat, call: Call)
    requires pos <= |c| && call.content == c
    ensures var at := After(pos, call);
            && Lines(c, pos, |c|) == HandedOut(pos, call) + Lines(c, at, |c|)
            && TerminatedEnd(c, pos, |c|) == TerminatedEnd(c, at, |c|)
            && (at == pos || HandedOut(pos, call) != [])
  {
    CallIsExact(pos, call, c);
    ExactSplits(c, pos, After(pos, call), HandedOut(pos, call));
  }

  lemma ExactSplits(c: seq<byte>, pos: nat, at: nat, taken: seq<seq<byte>>)
    requires Exact(c, pos, taken, at)
    ensures Lines(c, pos, |c|) == taken + Lines(c, at, |c|)
    ensures TerminatedEnd(c, pos, |c|) == TerminatedEnd(c, at, |c|)
    ensures at == pos || taken != []
  {
    LinesSplit(c, pos, at, |c|);
    TerminatedEndSplit(c, pos, at, |c|);
    if at > pos {
      LineEndOfPrefix(c, pos, at, at);
    }
  }

  lemma {:induction false} TerminatedEndSplit(c: seq<byte>, a: nat, m: nat, b: nat)
    requires a <= m <= b <= |c| && Boundary(c, a, m)
    ensures TerminatedEnd(c, a, b) == TerminatedEnd(c, m, b)
    decreases b
  {
    if m < b {
      TerminatedEndSplit(c, a, m, b - 1);
    }
  }

  lemma NoLinesLeft(c: seq<byte>, a: nat, b: nat)
    requires a <= b <= |c| && Lines(c, a, b) == []
    ensures TerminatedEnd(c, a, b) == a
  {
    var t := TerminatedEnd(c, a, b);
    if a < t {
      LineEndOfPrefix(c, a, t, b);
    }
  }

  /** Once a file stops growing, as many reads as it has lines left hand out
      all of them: together they equal the one-shot split. */
  lemma {:induction false} ReadsCatchUp(c: seq<byte>, pos: nat, calls: seq<Call>)
    requires pos <= |c| && (calls != [] ==> pos <= |calls[0].content|) && Growing(calls)
    requires forall call :: call in calls ==> EachLineFits(c, pos, call)
    requires |calls| >= |Lines(c, pos, |c|)|
    ensures Successive(pos, calls) == (Lines(c, pos, |c|), TerminatedEnd(c, pos, |c|))
    decreases |calls|
  {
    if calls == [] {
      NoLinesLeft(c, pos, |c|);
    } else {
      var call := calls[0];
      assert call in calls;
      var at := After(pos, call);
      CallSplits(c, pos, call);
      if Lines(c, pos, |c|) != [] {
        FittingCallAdvances(c, pos, call);
      }
      forall other | other in calls[1..] ensures EachLineFits(c, at, other) {
        assert other in calls;
        FitsFurtherOn(c, pos, at, HandedOut(pos, call), other);
      }
      ReadsCatchUp(c, at, calls[1..]);
    }
  }

  lemma FitsFurtherOn(c: seq<byte>, pos: nat, at: nat, taken: seq<seq<byte>>, call: Call)
    requires pos <= at <= |c| && EachLineFits(c, pos, call)
    requires Lines(c, pos, |c|) == taken + Lines(c, at, |c|)
    ensures EachLineFits(c, at, call)
  {
    forall line | line in Lines(c, at, |c|) ensures |line| + 1 <= call.maxBytes {
      assert line in Lines(c, pos, |c|);
    }
  }

  /** A read at the end of the file takes nothing, in either mode. */
  lemma ReadAtEndIsEmpty(c: seq<byte>, maxRecords: nat, maxBytes: nat)
    ensures ReadFrom(c, |c|, maxRecords, maxBytes) == Taken([], |c|)
    ensures ReadWhole(c, |c|, maxBytes) == Taken([], |c|)
  {
    assert c[|c|..] == [];
  }

  // ---------------------------------------------------------------- whole-file reads

  /** The records without framing: what a verbatim read archives. */
  function Joined(records: seq<seq<byte>>): seq<byte> {
    if records == [] then [] else records[0] + Joined(records[1..])
  }

  /** A whole-file read is refused exactly when what remains exceeds the budget; else it takes all of it as
      one record, and none if nothing remains. */
  lemma WholeReadIsAllOrNothing(c: seq<byte>, start: nat, maxBytes: nat)
    requires start <= |c|
    ensures var r := ReadWhole(c, start, maxBytes);
            && (r.TooLong? <==> |c| - start > maxBytes)
            && (r.Taken? ==> r.end == |c| && Joined(r.records) == c[start..]
                             && |r.records| == (if start == |c| then 0 else 1))
  {
    if start < |c| {
      assert [c[start..]][1..] == [];
      assert Joined([c[start..]]) == c[start..] + [];
    }
  }

  function WholeAfter(pos: nat, call: Call): (at: nat)
    requires pos <= |call.content|
    ensures pos <= at <= |call.content|
  {
    var r := ReadWhole(call.content, pos, call.maxBytes);
    if r.Taken? then r.end else pos
  }

  function WholeTaken(pos: nat, call: Call): seq<byte>
    requires pos <= |call.content|
  {
    var r := ReadWhole(call.content, pos, call.maxBytes);
    if r.Taken? then Joined(r.records) else []
  }

  /** The bytes, and the final position, of whole-file reads that each resume where the last one ended. */
  ghost function WholeSuccessive(pos: nat, calls: seq<Call>): (seq<byte>, nat)
    requires calls != [] ==> pos <= |calls[0].content|
    requires Growing(calls)
    decreases |calls|
  {
    if calls == [] then ([], pos)
    else
      var (rest, end) := WholeSuccessive(WholeAfter(pos, calls[0]), calls[1..]);
      (WholeTaken(pos, calls[0]) + rest, end)
  }

  /** Whatever the budgets and however the file grows, whole-file reads archive the file's own bytes, in order,
      none twice; and all of them once the last read fits what it finds. */
  lemma {:induction false} WholeReadsAreTheFile(pos: nat, calls: seq<Call>)
    requires calls != [] && pos <= |calls[0].content| && Growing(calls)
    ensures var (bytes, end) := WholeSuccessive(pos, calls);
            var last := calls[|calls| - 1];
            && pos <= end <= |last.content| && bytes == last.content[pos..end]
            && (|last.content| - pos <= last.maxBytes ==> end == |last.content|)
    decreases |calls|
  {
    var c, last := calls[0].content, calls[|calls| - 1].content;
    var at := WholeAfter(pos, calls[0]);
    WholeReadIsAllOrNothing(c, pos, calls[0].maxBytes);
    assert WholeTaken(pos, calls[0]) == c[pos..at];
    if |calls| > 1 {
      assert calls[1..][|calls| - 2] == calls[|calls| - 1];
      WholeReadsAreTheFile(at, calls[1..]);
      assert c <= last && c[pos..at] == last[pos..at];
    }
  }
}
