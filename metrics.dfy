/// `calculate_metrics`: one row of turnaround, waiting and response time per
/// completed record, in input order, and an average row dividing each
/// column's total by the number of all records.
module Metrics {
  import opened Processes

  /** A row of the metrics table. The averages are Python true divisions,
      kept exact as reals. */
  datatype Row =
    | ProcessRow(name: string, turnaround: int, waiting: int, response: int)
    | AverageRow(avgTurnaround: real, avgWaiting: real, avgResponse: real)

  datatype Column = Turnaround | Waiting | Response

  /** The row of one completed record: turnaround is completion minus
      arrival, waiting is turnaround minus burst, response is first response
      minus arrival (0 when it never responded). */
  function RowOf(p: Process): Row
    requires p.completion.Some?
  {
    var turnaround := p.completion.value - p.arrival;
    ProcessRow(p.name, turnaround, turnaround - p.burst,
               if p.firstResponse.Some? then p.firstResponse.value - p.arrival else 0)
  }

  function Value(r: Row, c: Column): int {
    match r
    case AverageRow(_, _, _) => 0
    case ProcessRow(_, t, w, s) => match c case Turnaround => t case Waiting => w case Response => s
  }

  function AverageOf(r: Row, c: Column): real
    requires r.AverageRow?
  {
    match c case Turnaround => r.avgTurnaround case Waiting => r.avgWaiting case Response => r.avgResponse
  }

  /** The running total of one column over the process rows. */
  function ColumnSum(rows: seq<Row>, c: Column): int {
    if rows == [] then 0 else ColumnSum(rows[..|rows| - 1], c) + Value(rows[|rows| - 1], c)
  }

  /** The process rows, in input order, skipping records never completed. */
  function ProcessRows(ps: seq<Process>): seq<Row> {
    if ps == [] then []
    else
      var p := ps[|ps| - 1];
      ProcessRows(ps[..|ps| - 1]) + (if p.completion.Some? then [RowOf(p)] else [])
  }

  /** `total / n`, a Python true division: the real whose `n`-fold is the total. */
  function Mean(total: int, n: nat): (r: real)
    requires n > 0
    ensures r * n as real == total as real
    ensures total >= 0 ==> r >= 0.0
  {
    total as real / n as real
  }

  /** `calculate_metrics(processes)` as a list of rows. */
  function Metrics(ps: seq<Process>): seq<Row> {
    var rows := ProcessRows(ps);
    rows + (if |ps| > 0
            then [AverageRow(Mean(ColumnSum(rows, Turnaround), |ps|), Mean(ColumnSum(rows, Waiting), |ps|),
                             Mean(ColumnSum(rows, Response), |ps|))]
            else [])
  }

  /** The indices of the completed records, in input order. */
  function CompletedIndices(ps: seq<Process>): (r: seq<nat>)
    ensures ValidIndices(r, |ps|) && Increasing(r)
    ensures forall i :: i in r <==> 0 <= i < |ps| && ps[i].completion.Some?
  {
    if ps == [] then []
    else
      var n := |ps| - 1;
      var rest := CompletedIndices(ps[..n]);
      assert forall k :: 0 <= k < |rest| ==> rest[k] in rest;
      if ps[n].completion.Some? then rest + [n] else rest
  }

  /** There is one process row per completed record, in input order, and
      nothing else before the average row. */
  lemma {:induction false} ProcessRowsOfCompleted(ps: seq<Process>)
    ensures var rows, idx := ProcessRows(ps), CompletedIndices(ps);
      |rows| == |idx| &&
      forall k :: 0 <= k < |rows| ==> ps[idx[k]].completion.Some? && rows[k] == RowOf(ps[idx[k]])
  {
    if ps != [] {
      var n := |ps| - 1;
      ProcessRowsOfCompleted(ps[..n]);
      var rows, idx := ProcessRows(ps), CompletedIndices(ps);
      var rows', idx' := ProcessRows(ps[..n]), CompletedIndices(ps[..n]);
      forall k | 0 <= k < |rows'|
        ensures ps[idx'[k]] == ps[..n][idx'[k]]
      {
        assert idx'[k] < n;
      }
    }
  }

  /** The table has the rows of the completed records, in input order, then
      an average row exactly when the record list is not empty, dividing
      each column's total by the number of all records. */
  lemma MetricsShape(ps: seq<Process>)
    ensures var m, idx := Metrics(ps), CompletedIndices(ps);
      |m| == |idx| + (if |ps| > 0 then 1 else 0) && m[..|idx|] == ProcessRows(ps) &&
      (forall k :: 0 <= k < |idx| ==> ps[idx[k]].completion.Some? && m[k] == RowOf(ps[idx[k]])) &&
      (|ps| > 0 ==>
         m[|idx|].AverageRow? &&
         forall c :: AverageOf(m[|idx|], c) == Mean(ColumnSum(m[..|idx|], c), |ps|))
  {
    ProcessRowsOfCompleted(ps);
    var rows, m := ProcessRows(ps), Metrics(ps);
    assert m[..|rows|] == rows;
    if |ps| > 0 {
      forall c
        ensures AverageOf(m[|rows|], c) == Mean(ColumnSum(rows, c), |ps|)
      {
      }
    }
  }

  /** After any policy run, every record has a row, in input order, with
      its own name, a turnaround of its burst plus its waiting time, and
      no negative waiting or response time. */
  lemma RowsAfterRun(ps0: seq<Process>, ps: seq<Process>)
    requires AllCompleted(ps0, ps)
    ensures var rows := ProcessRows(ps);
      |rows| == |ps| &&
      forall i :: 0 <= i < |ps| ==>
        rows[i].ProcessRow? && rows[i].name == ps0[i].name &&
        rows[i].turnaround == rows[i].waiting + ps0[i].burst &&
        rows[i].waiting >= 0 && rows[i].response >= 0
  {
    ProcessRowsOfCompleted(ps);
    var idx := CompletedIndices(ps);
    AllCompletedIndices(ps0, ps);
  }

  /** When every record completed, the completed indices are all of them. */
  lemma {:induction false} AllCompletedIndices(ps0: seq<Process>, ps: seq<Process>)
    requires AllCompleted(ps0, ps)
    ensures var idx := CompletedIndices(ps); |idx| == |ps| && forall k :: 0 <= k < |ps| ==> idx[k] == k
  {
    if ps != [] {
      var n := |ps| - 1;
      assert AllCompleted(ps0[..n], ps[..n]);
      AllCompletedIndices(ps0[..n], ps[..n]);
    }
  }

  /** A sum of non-negative column values is non-negative. */
  lemma {:induction false} ColumnSumNonnegative(rows: seq<Row>, c: Column)
    requires forall k :: 0 <= k < |rows| ==> Value(rows[k], c) >= 0
    ensures ColumnSum(rows, c) >= 0
  {
    if rows != [] {
      ColumnSumNonnegative(rows[..|rows| - 1], c);
    }
  }

  /** After any policy run on a non-empty list, the average row is the
      exact mean over all records, and the average waiting and response
      times are not negative. */
  lemma AverageAfterRun(ps0: seq<Process>, ps: seq<Process>)
    requires AllCompleted(ps0, ps) && |ps| > 0
    ensures var m := Metrics(ps);
      |m| == |ps| + 1 && m[|ps|].AverageRow? &&
      m[|ps|].avgWaiting >= 0.0 && m[|ps|].avgResponse >= 0.0 &&
      forall c :: AverageOf(m[|ps|], c) == Mean(ColumnSum(m[..|ps|], c), |ps|)
  {
    MetricsShape(ps);
    AllCompletedIndices(ps0, ps);
    RowsAfterRun(ps0, ps);
    var rows := ProcessRows(ps);
    ColumnSumNonnegative(rows, Waiting);
    ColumnSumNonnegative(rows, Response);
  }

  /** One more record adds its row, if it completed, after the rows before it. */
  lemma ProcessRowsSnoc(ps: seq<Process>, i: nat)
    requires i < |ps|
    ensures ProcessRows(ps[..i + 1])
         == ProcessRows(ps[..i]) + (if ps[i].completion.Some? then [RowOf(ps[i])] else [])
  {
    assert ps[..i + 1][..i] == ps[..i];
  }

  /** One more row adds its value to each column's total. */
  lemma ColumnSumSnoc(rows: seq<Row>, r: Row)
    ensures forall c :: ColumnSum(rows + [r], c) == ColumnSum(rows, c) + Value(r, c)
  {
    assert (rows + [r])[..|rows|] == rows;
  }

  /** `calculate_metrics` on the array of records, with its running totals;
      the records are only read. */
  method CalculateMetrics(a: array<Process>) returns (metrics: seq<Row>)
    ensures metrics == Metrics(a[..])
  {
    metrics := [];
    var totalTurnaround, totalWaiting, totalResponse := 0, 0, 0;
    for i := 0 to a.Length
      invariant metrics == ProcessRows(a[..i])
      invariant totalTurnaround == ColumnSum(metrics, Turnaround)
      invariant totalWaiting == ColumnSum(metrics, Waiting)
      invariant totalResponse == ColumnSum(metrics, Response)
    {
      ProcessRowsSnoc(a[..], i);
      assert a[..][..i] == a[..i] && a[..][..i + 1] == a[..i + 1];
      var p := a[i];
      if p.completion.Some? {
        var turnaround := p.completion.value - p.arrival;
        var waiting := turnaround - p.burst;
        var response := if p.firstResponse.Some? then p.firstResponse.value - p.arrival else 0;
        totalTurnaround := totalTurnaround + turnaround;
        totalWaiting := totalWaiting + waiting;
        totalResponse := totalResponse + response;
        ColumnSumSnoc(metrics, RowOf(p));
        metrics := metrics + [ProcessRow(p.name, turnaround, waiting, response)];
      }
    }
    assert a[..a.Length] == a[..];
    var n := a.Length;
    if n > 0 {
      metrics := metrics + [AverageRow(totalTurnaround as real / n as real, totalWaiting as real / n as real,
                                       totalResponse as real / n as real)];
    }
  }
}
