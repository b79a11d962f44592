/** What one worker does with one combination (the body of `requestWorker`, groundgopher.go):
    skip the combination if a case is disabled, otherwise run every setup, send one request, and
    validate the response case by case, stopping at the first expected failure.

    The HTTP exchange and the caller's closures are outside the model. The transport outcome is an
    `Option<Response>` (None: `Client.Do` or reading the body failed), and what the validator of the
    case at position `i` reports is `verdict(i)`. */
module Worker {
  import opened Wrappers
  import opened Records
  import opened Identifiers

  /** The part of a validator's `Result` that survives: the worker overwrites `Name` and
      `WantedFail` with the case's own. */
  datatype Verdict = Verdict(failed: bool, reason: string)

  /** The response snapshot a run records: status, body and time taken. */
  datatype Response = Response(statusCode: int, body: string, duration: int)

  predicate HasDisabled(cases: seq<Case>) {
    exists i :: 0 <= i < |cases| && cases[i].disabled
  }

  /** The position of the first disabled case, or `|cases|` when there is none: the setup loop
      runs the cases before it and breaks there. */
  function FirstDisabled(cases: seq<Case>): (k: nat)
    ensures k <= |cases|
    ensures forall j :: 0 <= j < k ==> !cases[j].disabled
    ensures k < |cases| ==> cases[k].disabled
  {
    if cases == [] then 0
    else if cases[0].disabled then 0
    else 1 + FirstDisabled(cases[1..])
  }

  function Names(cases: seq<Case>): seq<string> {
    seq(|cases|, i requires 0 <= i < |cases| => cases[i].name)
  }

  predicate AnyWantFail(cases: seq<Case>) {
    exists i :: 0 <= i < |cases| && cases[i].wantFail
  }

  /** A failed result of a case that wanted to fail: evaluation stops right after it. */
  predicate StopsEvaluation(res: Result) {
    res.failed && res.wantedFail
  }

  /** A failed result of a case that did not want to fail: it marks the run failed. */
  predicate FailedUnexpectedly(res: Result) {
    res.failed && !res.wantedFail
  }

  predicate AnyFailedUnexpectedly(results: seq<Result>) {
    exists k :: 0 <= k < |results| && FailedUnexpectedly(results[k])
  }

  /** The result the worker records for the case at position `i`. */
  function ResultAt(cases: seq<Case>, verdict: nat -> Verdict, i: nat): Result
    requires i < |cases|
  {
    Result(cases[i].name, verdict(i).failed, cases[i].wantFail, verdict(i).reason)
  }

  /** The validation loop from position `from` on: record each case's result and stop after one
      that failed while the case wanted it to. */
  function Validate(cases: seq<Case>, verdict: nat -> Verdict, from: nat): seq<Result>
    decreases |cases| - from
  {
    if from >= |cases| then []
    else
      var res := ResultAt(cases, verdict, from);
      if StopsEvaluation(res) then [res] else [res] + Validate(cases, verdict, from + 1)
  }

  /** The run a combination produces, or None when it is skipped (a disabled case) or dropped (a
      transport error). */
  function RunOf(cases: seq<Case>, transport: Option<Response>, verdict: nat -> Verdict): (run: Option<Run>)
    ensures run.Some? <==> !HasDisabled(cases) && transport.Some?
  {
    if HasDisabled(cases) || transport.None? then None
    else
      var results := Validate(cases, verdict, 0);
      Some(Run(Names(cases), results, transport.value.body, transport.value.statusCode,
               transport.value.duration, AnyWantFail(cases), AnyFailedUnexpectedly(results)))
  }

  // ---------------------------------------------------------------------------------------------
  // The validation loop

  /** Results line up with the cases: there are at most as many results as cases, and result `k`
      carries the name and the `WantFail` flag of case `from + k` and what its validator said. */
  lemma {:induction false} ValidateAligned(cases: seq<Case>, verdict: nat -> Verdict, from: nat)
    requires from <= |cases|
    ensures |Validate(cases, verdict, from)| <= |cases| - from
    ensures forall k :: 0 <= k < |Validate(cases, verdict, from)| ==>
      Validate(cases, verdict, from)[k] == ResultAt(cases, verdict, from + k)
    decreases |cases| - from
  {
    if from < |cases| {
      var results := Validate(cases, verdict, from);
      var res := ResultAt(cases, verdict, from);
      if StopsEvaluation(res) {
        assert results == [res];
      } else {
        ValidateAligned(cases, verdict, from + 1);
        var tail := Validate(cases, verdict, from + 1);
        assert results == [res] + tail;
        forall k | 0 < k < |results|
          ensures results[k] == ResultAt(cases, verdict, from + k)
        {
          assert results[k] == tail[k - 1];
        }
      }
    }
  }

  /** Short circuit: no result but the last one stops evaluation, and the results fall short of
      the cases only when the last one does. */
  lemma {:induction false} ValidateShortCircuit(cases: seq<Case>, verdict: nat -> Verdict, from: nat)
    requires from <= |cases|
    ensures var results := Validate(cases, verdict, from);
      forall k :: 0 <= k < |results| - 1 ==> !StopsEvaluation(results[k])
    ensures var results := Validate(cases, verdict, from);
      |results| < |cases| - from ==> |results| > 0 && StopsEvaluation(results[|results| - 1])
    decreases |cases| - from
  {
    var results := Validate(cases, verdict, from);
    if from < |cases| && !StopsEvaluation(ResultAt(cases, verdict, from)) {
      ValidateShortCircuit(cases, verdict, from + 1);
      var tail := Validate(cases, verdict, from + 1);
      assert results == [ResultAt(cases, verdict, from)] + tail;
      forall k | 0 <= k < |results| - 1 ensures !StopsEvaluation(results[k]) {
        if k > 0 {
          assert results[k] == tail[k - 1];
        }
      }
    }
  }

  /** Without an expected failure among the cases, every case is validated. */
  lemma ValidateComplete(cases: seq<Case>, verdict: nat -> Verdict)
    requires forall i :: 0 <= i < |cases| ==> !(verdict(i).failed && cases[i].wantFail)
    ensures |Validate(cases, verdict, 0)| == |cases|
  {
    var results := Validate(cases, verdict, 0);
    ValidateAligned(cases, verdict, 0);
    ValidateShortCircuit(cases, verdict, 0);
  }

  /** A failure the case did not want does not stop evaluation: when cases remain, the next one is
      validated too. */
  lemma ValidateContinuesAfterUnexpectedFailure(cases: seq<Case>, verdict: nat -> Verdict, k: nat)
    requires k < |Validate(cases, verdict, 0)| && FailedUnexpectedly(Validate(cases, verdict, 0)[k])
    requires k + 1 < |cases|
    ensures k + 1 < |Validate(cases, verdict, 0)|
  {
    var results := Validate(cases, verdict, 0);
    ValidateShortCircuit(cases, verdict, 0);
    ValidateAligned(cases, verdict, 0);
  }

  lemma AnyFailedUnexpectedlyAppend(results: seq<Result>, res: Result)
    ensures AnyFailedUnexpectedly(results + [res]) <==>
      AnyFailedUnexpectedly(results) || FailedUnexpectedly(res)
  {
    var all := results + [res];
    if AnyFailedUnexpectedly(results) {
      var k :| 0 <= k < |results| && FailedUnexpectedly(results[k]);
      assert all[k] == results[k];
    }
    if FailedUnexpectedly(res) {
      assert all[|results|] == res;
    }
    if AnyFailedUnexpectedly(all) {
      var k :| 0 <= k < |all| && FailedUnexpectedly(all[k]);
      if k < |results| {
        assert all[k] == results[k];
      }
    }
  }

  // ---------------------------------------------------------------------------------------------
  // The worker

  /** The setup loop: for each case in order, stop at a disabled one; otherwise call its `Setup`,
      record its name and note whether it wants to fail. */
  method SetupCases(cases: seq<Case>) returns (names: seq<string>, wantFail: bool, disabled: bool)
    ensures disabled <==> HasDisabled(cases)
    ensures names == Names(cases[..FirstDisabled(cases)])
    ensures !disabled ==> names == Names(cases)
    ensures wantFail <==> exists j :: 0 <= j < FirstDisabled(cases) && cases[j].wantFail
    ensures !disabled ==> (wantFail <==> AnyWantFail(cases))
  {
    names := [];
    wantFail := false;
    disabled := false;
    var i := 0;
    while i < |cases|
      invariant 0 <= i <= FirstDisabled(cases)
      invariant names == Names(cases[..i])
      invariant wantFail <==> exists j :: 0 <= j < i && cases[j].wantFail
      invariant !disabled
    {
      if cases[i].disabled {
        disabled := true;
        break;
      }
      // the case's Setup closure runs here; it is not modelled
      assert Names(cases[..i + 1]) == names + [cases[i].name];
      names := names + [cases[i].name];
      if cases[i].wantFail {
        wantFail := true;
      }
      i := i + 1;
    }
    if !disabled {
      assert cases[..i] == cases;
    }
  }

  /** The validation loop: validate each case in order, record the result under the case's name
      and flag, stop after a failure the case wanted, and mark the run failed on one it did not. */
  method ValidateCases(cases: seq<Case>, verdict: nat -> Verdict)
    returns (results: seq<Result>, failed: bool)
    ensures results == Validate(cases, verdict, 0)
    ensures failed <==> AnyFailedUnexpectedly(results)
  {
    results := [];
    failed := false;
    var i := 0;
    while i < |cases|
      invariant 0 <= i <= |cases|
      invariant results + Validate(cases, verdict, i) == Validate(cases, verdict, 0)
      invariant failed <==> AnyFailedUnexpectedly(results)
    {
      var v := verdict(i);
      var res := Result(cases[i].name, v.failed, cases[i].wantFail, v.reason);
      assert res == ResultAt(cases, verdict, i);
      ghost var rest := Validate(cases, verdict, i);
      if StopsEvaluation(res) {
        assert rest == [res];
      } else {
        assert rest == [res] + Validate(cases, verdict, i + 1);
      }
      assert (results + [res]) + rest[1..] == results + rest;
      AnyFailedUnexpectedlyAppend(results, res);
      results := results + [res];
      if res.failed && cases[i].wantFail {
        break;
      }
      if res.failed && !cases[i].wantFail {
        failed := true;
      }
      i := i + 1;
    }
  }

  /** One iteration of `requestWorker`'s loop. Beside the run it returns the names of the cases
      whose `Setup` was called (the setup loop calls it on every case before the first disabled
      one, even when the combination is then skipped) and the user agent of the request it sent,
      if it sent one. */
  method ProcessCombination(
    cases: seq<Case>,
    transport: Option<Response>,
    verdict: nat -> Verdict,
    draw: nat -> CharIndex)
    returns (setups: seq<string>, userAgent: Option<string>, run: Option<Run>)
    ensures setups == Names(cases[..FirstDisabled(cases)])
    ensures userAgent.Some? <==> !HasDisabled(cases)
    ensures userAgent.Some? ==>
      |userAgent.value| == |UserAgentPrefix| + IdLength &&
      userAgent.value[..|UserAgentPrefix|] == UserAgentPrefix &&
      SpelledBy(userAgent.value[|UserAgentPrefix|..], draw)
    ensures run.Some? <==> !HasDisabled(cases) && transport.Some?
    ensures run.Some? ==>
      && run.value.cases == Names(cases)
      && (run.value.wantFail <==> AnyWantFail(cases))
      && run.value.results == Validate(cases, verdict, 0)
      && (run.value.failed <==> AnyFailedUnexpectedly(run.value.results))
      && run.value.duration == transport.value.duration
      && run.value.statusCode == transport.value.statusCode
      && run.value.body == transport.value.body
    ensures run == RunOf(cases, transport, verdict)
  {
    var names, wantFail, disabled := SetupCases(cases);
    setups := names;
    if disabled {
      return setups, None, None;
    }

    var id := RandID(draw);
    userAgent := Some(UserAgent(id));

    if transport.None? {
      return setups, userAgent, None;
    }
    var response := transport.value;

    var results, failed := ValidateCases(cases, verdict);
    run := Some(Run(names, results, response.body, response.statusCode, response.duration,
                    wantFail, failed));
  }
}
