/** The aggregator: the loop of `GroundGopher.Run` that drains the run channel into a `Report`
    (groundgopher.go), and the integer part of `Report.Summary`. The runs arrive in whatever order
    the workers finish; the counters are shown not to depend on that order. */
module Aggregation {
  import opened Records

  /** A run the aggregator counts as a failure: it failed and the combination as a whole was not
      expected to fail. Every other run counts as a success. */
  predicate CountsAsFail(run: Run) {
    run.failed && !run.wantFail
  }

  function FailWeight(run: Run): int {
    if CountsAsFail(run) then 1 else 0
  }

  function DurationOf(run: Run): int {
    run.duration
  }

  /** The sum of `weight` over the runs. */
  function SumOf(runs: seq<Run>, weight: Run -> int): int {
    if runs == [] then 0 else SumOf(runs[..|runs| - 1], weight) + weight(runs[|runs| - 1])
  }

  function CountFails(runs: seq<Run>): int {
    SumOf(runs, FailWeight)
  }

  function TotalTime(runs: seq<Run>): int {
    SumOf(runs, DurationOf)
  }

  /** `report` is what draining `runs` leaves: every run kept in arrival order, one increment of
      `Amount` per run, one of `Fails` or `Successes` per run, the durations summed, and `Failed`
      set exactly when some run counted as a failure. */
  predicate Tallies(report: Report, runs: seq<Run>) {
    && report.runs == runs
    && report.amount == |runs|
    && report.fails == CountFails(runs)
    && report.successes == |runs| - CountFails(runs)
    && report.totalTime == TotalTime(runs)
    && (report.failed <==> report.fails > 0)
  }

  /** The drain loop `for run := range runCh`, over the runs in the order they arrive. */
  method Drain(runs: seq<Run>) returns (report: Report)
    ensures Tallies(report, runs)
    ensures report.fails + report.successes == report.amount
  {
    report := Report(0, [], 0, 0, false, 0);
    var i := 0;
    while i < |runs|
      invariant 0 <= i <= |runs|
      invariant Tallies(report, runs[..i])
    {
      var run := runs[i];
      assert runs[..i + 1][..i] == runs[..i];
      CountFailsBounds(runs[..i]);
      if run.failed && !run.wantFail {
        report := report.(failed := true, fails := report.fails + 1);
      } else {
        report := report.(successes := report.successes + 1);
      }
      report := report.(runs := report.runs + [run], amount := report.amount + 1,
                        totalTime := report.totalTime + run.duration);
      i := i + 1;
    }
    assert runs[..i] == runs;
    CountFailsBounds(runs);
  }

  // ---------------------------------------------------------------------------------------------
  // The counters

  lemma {:induction false} CountFailsBounds(runs: seq<Run>)
    ensures 0 <= CountFails(runs) <= |runs|
    ensures CountFails(runs) > 0 <==> exists i :: 0 <= i < |runs| && CountsAsFail(runs[i])
  {
    if runs != [] {
      var init := runs[..|runs| - 1];
      CountFailsBounds(init);
      if exists i :: 0 <= i < |init| && CountsAsFail(init[i]) {
        var i :| 0 <= i < |init| && CountsAsFail(init[i]);
        assert runs[i] == init[i];
      }
      if exists i :: 0 <= i < |runs| && CountsAsFail(runs[i]) {
        var i :| 0 <= i < |runs| && CountsAsFail(runs[i]);
        if i < |init| {
          assert init[i] == runs[i];
        }
      }
    }
  }

  lemma {:induction false} SumOfConcat(a: seq<Run>, b: seq<Run>, weight: Run -> int)
    ensures SumOf(a + b, weight) == SumOf(a, weight) + SumOf(b, weight)
    decreases |b|
  {
    if b == [] {
      assert a + b == a;
    } else {
      var b' := b[..|b| - 1];
      assert (a + b)[..|a + b| - 1] == a + b';
      SumOfConcat(a, b', weight);
    }
  }

  lemma {:induction false} SumOfPermutation(a: seq<Run>, b: seq<Run>, weight: Run -> int)
    requires multiset(a) == multiset(b)
    ensures SumOf(a, weight) == SumOf(b, weight)
    decreases |a|
  {
    if a != [] {
      var x := a[|a| - 1];
      var a' := a[..|a| - 1];
      assert a == a' + [x];
      assert x in multiset(b);
      var k :| 0 <= k < |b| && b[k] == x;
      var b' := b[..k] + b[k + 1..];
      assert b == b[..k] + [x] + b[k + 1..];
      assert multiset(b') == multiset(b) - multiset{x};
      SumOfPermutation(a', b', weight);
      SumOfConcat(b[..k], [x], weight);
      SumOfConcat(b[..k] + [x], b[k + 1..], weight);
      SumOfConcat(b[..k], b[k + 1..], weight);
      assert SumOf([x], weight) == weight(x) by {
        assert [x][..0] == [];
      }
    }
  }

  /** The workers race, so the runs reach the aggregator in no fixed order; any two arrival orders
      of the same runs give the same counters, whatever the pool size. */
  lemma ReportIndependentOfArrivalOrder(r1: Report, runs1: seq<Run>, r2: Report, runs2: seq<Run>)
    requires Tallies(r1, runs1) && Tallies(r2, runs2)
    requires multiset(runs1) == multiset(runs2)
    ensures r1.amount == r2.amount && r1.fails == r2.fails && r1.successes == r2.successes
    ensures r1.totalTime == r2.totalTime && r1.failed == r2.failed
  {
    SumOfPermutation(runs1, runs2, FailWeight);
    SumOfPermutation(runs1, runs2, DurationOf);
    assert |runs1| == |multiset(runs1)| == |multiset(runs2)| == |runs2|;
  }

  /** A run whose combination holds a case that wants to fail never counts as a failure, even
      when another of its cases failed unexpectedly. */
  lemma ExpectedFailureMasksFailures(report: Report, runs: seq<Run>)
    requires Tallies(report, runs)
    requires forall i :: 0 <= i < |runs| ==> runs[i].wantFail
    ensures report.fails == 0 && report.successes == report.amount && !report.failed
  {
    CountFailsBounds(runs);
  }

  /** A report marked failed has at least one run. */
  lemma FailedReportHasRuns(report: Report, runs: seq<Run>)
    requires Tallies(report, runs)
    ensures report.failed ==> report.amount > 0
  {
    CountFailsBounds(runs);
  }

  // ---------------------------------------------------------------------------------------------
  // Summary

  /** The numbers `Summary` prints. `Duration.String` and the `fmt` wording are not modelled. */
  datatype Digest =
    | Completed(amount: int, totalTime: int, average: int)
    | CompletedWithFailures(amount: int, fails: int, totalTime: int)
    | NoData

  /** What calling `Summary` as written does: print a digest, or panic on the division. */
  datatype SummaryOutcome = Printed(digest: Digest) | DivideByZeroPanic

  /** Go's `/` on integers: the quotient truncated toward zero. */
  function GoDiv(a: int, b: int): (q: int)
    requires b != 0
    ensures b > 0 && a >= 0 ==> q * b <= a < (q + 1) * b
    ensures b > 0 && a < 0 ==> (q - 1) * b < a <= q * b
    ensures b < 0 && a >= 0 ==> q * b <= a < (q - 1) * b
    ensures b < 0 && a < 0 ==> (q + 1) * b < a <= q * b
    decreases if b < 0 then 1 else 0
  {
    if b < 0 then -GoDiv(a, -b)
    else if a >= 0 then a / b
    else -((-a) / b)
  }

  /** `Summary` as written: a report that is not failed is averaged even when it has no runs, and
      Go panics on an integer division by zero. */
  function SummaryAsWritten(r: Report): (outcome: SummaryOutcome)
    ensures outcome.DivideByZeroPanic? <==> !r.failed && r.amount == 0
  {
    if !r.failed then
      if r.amount == 0 then DivideByZeroPanic
      else Printed(Completed(r.amount, r.totalTime, GoDiv(r.totalTime, r.amount)))
    else
      Printed(CompletedWithFailures(r.amount, r.fails, r.totalTime))
  }

  /** The summary with the division guarded: a report without runs gets a "no data" digest. */
  function Summary(r: Report): (d: Digest)
    ensures d.NoData? <==> !r.failed && r.amount == 0
    ensures SummaryAsWritten(r).Printed? ==> d == SummaryAsWritten(r).digest
  {
    if !r.failed && r.amount == 0 then NoData else SummaryAsWritten(r).digest
  }

  /** As written, the summary of a drained report panics exactly when no run arrived, which
      happens whenever a variable has no cases or every combination was skipped or dropped. */
  lemma SummaryAsWrittenPanicsIffNoRuns(report: Report, runs: seq<Run>)
    requires Tallies(report, runs)
    ensures SummaryAsWritten(report) == DivideByZeroPanic <==> runs == []
  {
    CountFailsBounds(runs);
  }

  /** The guarded summary of a drained report: an unfailed report with runs carries the truncated
      mean duration; a failed one carries the failure count; one without runs says so. */
  lemma SummaryOfDrainedReport(report: Report, runs: seq<Run>)
    requires Tallies(report, runs)
    ensures runs == [] ==> Summary(report) == NoData
    ensures runs != [] && !report.failed ==>
      Summary(report) == Completed(|runs|, TotalTime(runs), GoDiv(TotalTime(runs), |runs|))
    ensures report.failed ==>
      runs != [] && Summary(report) == CompletedWithFailures(|runs|, CountFails(runs), TotalTime(runs))
    ensures runs != [] && !report.failed && TotalTime(runs) >= 0 ==>
      Summary(report).average * |runs| <= TotalTime(runs) < (Summary(report).average + 1) * |runs|
  {
    CountFailsBounds(runs);
  }
}
