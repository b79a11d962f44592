/** The plain records of the test runner (groundgopher.go: `Case`, `Variable`, `Result`, `Run`,
    `Report`). Durations are whole nanoseconds, as `time.Duration` counts them. */
module Records {

  /** One test case of a variable. The caller-supplied `Setup` and `Validator` closures are not
      values here: what a validator reports is given to the worker as an oracle instead. */
  datatype Case = Case(name: string, disabled: bool, wantFail: bool)

  /** One dimension of the cartesian product: a named, ordered list of mutually exclusive cases. */
  datatype Variable = Variable(name: string, cases: seq<Case>)

  /** The outcome of one case's validator within one combination. */
  datatype Result = Result(name: string, failed: bool, wantedFail: bool, reason: string)

  /** The outcome of one combination that was not skipped. */
  datatype Run = Run(
    cases: seq<string>,
    results: seq<Result>,
    body: string,
    statusCode: int,
    duration: int,
    wantFail: bool,
    failed: bool)

  /** The aggregate of all runs. */
  datatype Report = Report(
    amount: int,
    runs: seq<Run>,
    successes: int,
    fails: int,
    failed: bool,
    totalTime: int)
}
