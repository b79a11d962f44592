# groundgopher in Dafny

groundgopher is a small Go test runner for HTTP APIs. The caller declares **variables**. Each variable is an ordered list of **cases**, and each case has a name, a `Disabled` flag, a `WantFail` flag, a `Setup` closure and a `Validator` closure. A **combination** picks one case per variable. The runner skips every combination that holds a disabled case and sends one request for each of the others. Before the request it calls the setups; after it, it validates the response case by case, and in the end it folds the resulting **runs** into a **report**.

This project models the logic between "declared variables" and "final report":

- **cartesian.dfy**: `Cartesian` models the combination generator `Iter`/`iterate` as a recursive product over case indices. One `Combo` holds one case index per variable. The recursion also counts the `wg.Add(1)` and `wg.Done()` calls in a `Trace`.
- **worker.dfy**: `Worker` models the body of `requestWorker`. The setup loop and the validation loop are methods with loop invariants. Each is proved against a specification function: `FirstDisabled`, `Names` and `AnyWantFail` for the setup loop, and `Validate` for the validation loop. `ProcessCombination`, the whole body, is proved against `RunOf`.
- **aggregation.dfy**: `Aggregation` models the drain loop of `GroundGopher.Run`, which becomes `Drain`, specified by `Tallies`. It also models the integer part of `Report.Summary`, using Go's truncating division.
- **identifiers.dfy**: `Identifiers` models `randID` and the user agent header built from it.
- **runcontext.dfy**: `RunContext` models `Ctx` and its `Set`/`Get`, over a Go string map whose missing keys read as `""`.
- **groundgopher.dfy**: `GroundGopher` models the object itself: the functional options, `New`, `Add`, the object's `Set`/`Get` and `Run`. `Run` sends each consumed combination through the worker, then drains the runs.
- **records.dfy** and **wrappers.dfy** hold the plain records and `Option`.

Everything outside the runner is a parameter of the model:

- `transport: Option<Response>`: the outcome of the HTTP exchange. `None` means `Client.Do` or reading the body failed.
- `verdict(i)`: what the validator of the case at position `i` reports.
- `draw(j)`: the index that the `j`-th `rand.Intn(36)` call returns.
- `parses(h)`: whether `url.Parse` accepts `h`.

At the level of `Run`, these oracles are indexed by combination.

The generator runs its branches one after another. The order of its output is therefore one possible delivery order. Every property that holds whatever the order is stated over multisets: exactly-once, and the report counters under any schedule.

## Model

| member | source | states |
|---|---|---|
| Cartesian.Iterate | cartesian.go:21-41 | one call of `iterate`: a leaf sends its prefix, otherwise one branch per case of the first variable; what it emits is stated by `IterateCount`, `IterateMultiplicity`, `IteratePrefix` and `IterateWaitGroup` |
| Cartesian.Spawn | cartesian.go:33-40 | the loop of `iterate` from iteration `i` on; stated by `SpawnCount`, `SpawnMultiplicity` and `SpawnWaitGroup` |
| Cartesian.Iter | cartesian.go:6-18 | the generator with the root call run like every other branch; stated by `IterCount`, `IterExactlyOnce`, `IterShape`, `IterNoVariables` and `IterWaitGroupBalanced` |
| Cartesian.Select | cartesian.go:37-39 | the cases of a combination are in variable order; position `j` holds case `c[j]` of variable `j` (what is proved about the selected combinations is in `IterShape` and `Combinations`) |
| Cartesian.Combinations | cartesian.go:6-41 | the channel delivers as many combinations as the product of the case counts; each has one entry per variable, and entry `j` is a case of variable `j` |
| Cartesian.IterateCount | cartesian.go:21-41 | a call of `iterate` emits the product of the remaining case counts |
| Cartesian.SpawnCount | cartesian.go:33-40 | loop iterations `i..n-1` emit `(n - i)` times the product of the remaining case counts |
| Cartesian.IterCount | cartesian.go:6-41 | `Iter` emits exactly the product of the variables' case counts |
| Cartesian.ProductZero | cartesian.go:33-40 | the product is zero if and only if some variable has no cases |
| Cartesian.IterEmptyVariable | cartesian.go:31-40 | a variable without cases makes the generator emit nothing at all |
| Cartesian.IterNoVariables | cartesian.go:25-28 | with no variables exactly one combination is emitted, the empty one, and one `Add` matches one `Done` |
| Cartesian.ExtendsStep | cartesian.go:31-39 | extending a prefix by a choice for all remaining variables is the same as picking an index of the first one and extending by the rest |
| Cartesian.ExtendsFromStep | cartesian.go:33-39 | the loop's iteration `i` and the iterations after it reach disjoint sets of combinations |
| Cartesian.IterateMultiplicity | cartesian.go:21-41 | `iterate` emits every extension of its prefix exactly once and nothing else |
| Cartesian.SpawnMultiplicity | cartesian.go:33-40 | iterations `i..n-1` emit exactly once every extension whose next index lies in `[i, n)` |
| Cartesian.IterExactlyOnce | cartesian.go:6-41 | every valid choice of one case index per variable is emitted exactly once; nothing else is emitted |
| Cartesian.IterShape | cartesian.go:31-39 | an emitted combination has one entry per variable, and entry `j` indexes a case of variable `j` |
| Cartesian.IterChoices | cartesian.go:6-41 | every emitted combination is a valid choice |
| Cartesian.IteratePrefix | cartesian.go:36-39 | everything a branch emits starts with exactly the choices on its own path; siblings do not share prefixes |
| Cartesian.IterateWaitGroup | cartesian.go:21-41 | one `Done` per call; a call's `Done`s exceed its `Add`s by one; the number of calls is `Calls(sizes)` |
| Cartesian.SpawnWaitGroup | cartesian.go:33-40 | each spawned branch's `Add(1)` is matched by the `Done`s of its calls |
| Cartesian.IterWaitGroupBalanced | cartesian.go:10-23 | the root `Add(1)` plus the per-branch `Add(1)`s equal the number of `iterate` calls, each of which does one `Done`, so the counter returns to zero |
| Cartesian.IterAsWritten | cartesian.go:12-28 | the generator with the root call made synchronously: when it returns the channel, the channel carries the intended product |
| Cartesian.IterAsWrittenDeadlocksWithoutVariables | cartesian.go:13-27 | as written, the generator never returns when there are no variables; with at least one variable it delivers the intended product |
| Identifiers.RandID | groundgopher.go:310-319 | the identifier is ten runes; rune `j` is the `charSet` rune at the `j`-th drawn index, so every rune is in `charSet` |
| Identifiers.UserAgent | groundgopher.go:135 | the user agent is `groundgopher-` followed by the identifier, unchanged |
| Identifiers.UserAgentOfRandID | groundgopher.go:19 | a user agent built from a drawn identifier is 23 runes long, and every rune after the prefix is in `charSet` |
| RunContext.Lookup | groundgopher.go:89-91 | reading a stored key gives its value; reading a missing key gives `""` (read-after-write is `LookupAfterStore` and the `Set` contracts) |
| RunContext.LookupAfterStore | groundgopher.go:85-91 | after a store, the key reads back the stored value and every other key reads as before |
| RunContext.Ctx.constructor | groundgopher.go:104-106 | a new context has an empty cache |
| RunContext.Ctx.Set | groundgopher.go:85-87 | the key now reads back `v`; every other key is unchanged |
| RunContext.Ctx.Get | groundgopher.go:89-91 | the stored value, or `""` when the key is missing |
| Worker.FirstDisabled | groundgopher.go:119-123 | the cases before the returned position are enabled, and the case at it, if any, is disabled |
| Worker.SetupCases | groundgopher.go:118-129 | the skip flag is set if and only if some case is disabled; the names recorded are those of the cases before the first disabled one (all of them when none is); `WantFail` is set if and only if some case before the first disabled one wants to fail, which is some case at all when none is disabled |
| Worker.ValidateCases | groundgopher.go:163-174 | the results are the short-circuiting validation, and the run is marked failed if and only if some recorded result failed unexpectedly |
| Worker.Validate | groundgopher.go:163-174 | the short-circuiting validation from a position on; stated by `ValidateAligned`, `ValidateShortCircuit`, `ValidateComplete` and `ValidateContinuesAfterUnexpectedFailure`, and computed by `ValidateCases` |
| Worker.RunOf | groundgopher.go:96-176 | a combination yields a run if and only if no case is disabled and the transport succeeded; `ProcessCombination` computes it |
| Worker.ValidateAligned | groundgopher.go:163-167 | there are at most as many results as cases, and result `k` carries the name and `WantFail` of case `k` and its validator's verdict |
| Worker.ValidateShortCircuit | groundgopher.go:168-170 | no result but the last one is an expected failure; the results fall short of the cases only when the last one is |
| Worker.ValidateComplete | groundgopher.go:163-174 | with no expected failure among the verdicts, every case is validated |
| Worker.ValidateContinuesAfterUnexpectedFailure | groundgopher.go:171-173 | an unexpected failure does not stop evaluation; a following case is validated too |
| Worker.AnyFailedUnexpectedlyAppend | groundgopher.go:171-173 | appending a result marks the run failed exactly when the result failed unexpectedly or the run already was failed |
| Worker.ProcessCombination | groundgopher.go:96-176 | setups run on the cases before the first disabled one; a request is sent, with the user agent `groundgopher-` plus the drawn identifier, if and only if no case is disabled; a run is emitted if and only if additionally the transport succeeded; the run carries the case names, `WantFail`, the validation results, the failed flag and the response data |
| Aggregation.Drain | groundgopher.go:200-211 | the report keeps every run in arrival order: `Amount` is the number of runs, `Fails` counts runs that failed without wanting to, `Successes` the rest, `TotalTime` the sum of durations, and `Failed` is set if and only if `Fails > 0` |
| Aggregation.CountFailsBounds | groundgopher.go:202-207 | the failure count is between zero and the number of runs, and positive if and only if some run failed unexpectedly |
| Aggregation.SumOfConcat | groundgopher.go:208-210 | a counter over two batches of runs is the sum of the counters over each |
| Aggregation.SumOfPermutation | groundgopher.go:200-211 | a counter does not depend on the order of the runs |
| Aggregation.ReportIndependentOfArrivalOrder | groundgopher.go:200-211 | two reports drained from the same runs in different orders have equal counters, total time and failed flag |
| Aggregation.ExpectedFailureMasksFailures | groundgopher.go:202-207 | when every run wants to fail, the report has no failures and is not failed |
| Aggregation.FailedReportHasRuns | groundgopher.go:202-209 | a failed report has at least one run |
| Aggregation.GoDiv | groundgopher.go:303 | Go's integer division truncates toward zero: for each sign of dividend and divisor, the product of quotient and divisor lies between the dividend and zero, and is within one divisor of the dividend |
| Aggregation.SummaryAsWritten | groundgopher.go:301-308 | `Summary` as written panics if and only if the report is not failed and has no runs; otherwise it prints the mean or the failure count |
| Aggregation.Summary | groundgopher.go:301-308 | the guarded summary reports "no data" exactly for an unfailed report without runs, and otherwise agrees with the summary as written |
| Aggregation.SummaryAsWrittenPanicsIffNoRuns | groundgopher.go:302-303 | as written, the summary of a drained report panics if and only if no run arrived |
| Aggregation.SummaryOfDrainedReport | groundgopher.go:301-308 | a report without runs has no data; an unfailed one with runs carries the truncated mean duration; a failed one carries the failure count |
| GroundGopher.GroundGopher.constructor | groundgopher.go:56-59 | ten workers, no host, not verbose, no variables, empty cache |
| GroundGopher.GroundGopher.Apply | groundgopher.go:24-42 | each option sets its one field and nothing else |
| GroundGopher.GroundGopher.Add | groundgopher.go:216-220 | the variable is appended; the error is always nil; nothing else changes |
| GroundGopher.GroundGopher.Set | groundgopher.go:77-79 | the key now reads back `v`; every other key and field is unchanged |
| GroundGopher.GroundGopher.Get | groundgopher.go:81-83 | the stored value, or `""` when the key is missing |
| GroundGopher.GroundGopher.Run | groundgopher.go:180-214 | the report tallies the runs that the worker emits for the consumed combinations of the corrected generator: every combination when at least one worker starts, none otherwise; it requires the parsed URL that `New` sets whenever a combination is consumed, since each worker dereferences `apiURL` for every combination it receives (line 114) |
| GroundGopher.New | groundgopher.go:55-71 | the options apply to the defaults in order; no object is returned if and only if the resulting host does not parse; otherwise the object has that configuration, no variables and an empty cache |
| GroundGopher.ApplySetting | groundgopher.go:24-42 | each option sets its one field; `Apply` performs it on the object |
| GroundGopher.Configure | groundgopher.go:61-63 | the options applied to the defaults in the order given; stated by `GophersDefault`, `GophersFromLastWithWorkers`, `HostDefault` and `HostFromLastWithHost`, and computed by `New` |
| GroundGopher.Produced | groundgopher.go:96-176 | the runs a worker emits for a sequence of combinations, in order; stated by `ProducedConcat`, `ProducedSkips`, `ProducedDelivers`, `ProducedLength` and `ProducedPermutation`, and computed by `Run` |
| GroundGopher.Consumed | groundgopher.go:186-191 | the combinations the pool takes from the generator: none when `gophers <= 0`, so no worker starts, and otherwise every generated combination; `Run` consumes exactly these |
| GroundGopher.GophersDefault | groundgopher.go:56-63 | without `WithWorkers`, the pool has ten workers |
| GroundGopher.GophersFromLastWithWorkers | groundgopher.go:61-63 | the last `WithWorkers` option decides the pool size |
| GroundGopher.HostFromLastWithHost | groundgopher.go:61-64 | the last `WithHost` option decides the host that is parsed |
| GroundGopher.HostDefault | groundgopher.go:56-64 | without `WithHost`, the host parsed is empty |
| GroundGopher.ProducedConcat | groundgopher.go:96-176 | the runs for two batches of combinations are the runs for the first batch followed by those for the second |
| GroundGopher.ProducedSkips | groundgopher.go:130-150 | a combination with a disabled case, or whose request failed, contributes no run |
| GroundGopher.ProducedDelivers | groundgopher.go:163-176 | any other combination contributes exactly its own run, in its place |
| GroundGopher.ProducedLength | groundgopher.go:96-176 | at most one run per combination |
| GroundGopher.ProducedWithout | groundgopher.go:96-176 | the runs, as a multiset, of a batch are those of the batch without one combination plus those of that combination |
| GroundGopher.ChoicesPermuted | groundgopher.go:186-190 | any order of valid combinations consists of valid combinations |
| GroundGopher.ProducedPermutation | groundgopher.go:188-191 | whatever order the workers take the combinations in, the same runs are emitted, up to order |
| GroundGopher.ReportIndependentOfSchedule | groundgopher.go:185-211 | with each combination's outcome and duration fixed, a report drained under any schedule has the same counters, total time and failed flag as the report for the generator's own order |
| GroundGopher.AmountAtMostProduct | groundgopher.go:186-211 | a report never counts more runs than the product of the case counts |
| GroundGopher.ProducedAllDelivered | groundgopher.go:118-176 | no loss: when no combination has a disabled case and every request is answered, there is one run per combination |
| GroundGopher.AmountIsProductWhenAllDelivered | groundgopher.go:186-211 | once a worker starts, with no disabled case and every request answered, the report counts exactly the product of the case counts |
| GroundGopher.ProducedAllSkipped | groundgopher.go:118-132 | when every combination has a disabled case, no run is emitted |
| GroundGopher.DisabledVariableSkipsEverything | groundgopher.go:118-132 | a variable whose cases are all disabled leaves the report empty |
| GroundGopher.AuthCombinations | cartesian.go:6-41 | for a two-case and a one-case variable, the combinations are `[0,0]` and `[1,0]` |
| GroundGopher.AuthScenario | groundgopher.go:163-211 | in that example, with every request answered, the expected failure of one case is not a failure of the report: two runs, two successes, not failed |

## Left out

- GroundGopher.New: only the library options `WithHost`, `WithWorkers` and `WithVerbose` are modelled; the source's `Option` is an open function type (groundgopher.go:21), and a caller-defined option closure, which may set any field or call `Add` or `Set`, is not. The ensures that the new object has no variables and an empty cache, and the lemmas `GophersDefault` and `HostDefault`, cover only those three options.
- Goroutines, channels, the `sync.WaitGroup` waits and the worker pool (cartesian.go:15, 39; groundgopher.go:93-94, 185-198) are left out because concurrency is out of scope. One sequential worker takes the combinations in the generator's order. `ProducedPermutation` and `ReportIndependentOfSchedule` cover every other order.
- GroundGopher.GroundGopher.Run: the pool size only decides whether any worker starts. The model does not capture how `gophers` concurrent workers interleave, only that the result does not depend on the interleaving.
- GroundGopher.GroundGopher.Run: it is built on the corrected generator `Iter`. On a runner with no variables it returns a report with one run for the empty combination (none when no worker starts). The source's `Run` never returns there, because `Iter` blocks at cartesian.go:13 and 27 (see Findings).
- GroundGopher.ReportIndependentOfSchedule: it takes each combination's transport outcome, validator verdicts and duration to be fixed functions of the combination. In the source the durations come from the clock and the outcomes from the network, so they can differ between two schedules.
- The HTTP exchange (the request built from `apiURL`, `Client.Do`, `ioutil.ReadAll`, `Body.Close`) is I/O. It becomes the `transport` parameter.
- `url.Parse` is a foreign call. It becomes the `parses` parameter, and `apiURL` keeps the host text in place of a `*url.URL`.
- The caller's `Setup` and `Validator` closures, the request they may mutate, and the `Ctx` and `Out` passed to them are opaque user code. A validator's outcome becomes the `verdict` parameter. `Ctx` is modelled on its own but not threaded through the worker. `ProcessCombination` reports which setups would run but does not run them.
- `JSONPathLookup` and `JSONPathLookupString` are thin wrappers over `encoding/json` and a JSON-path library, so they are left out.
- `time.Now`, `time.Since`, `Duration.String` and the `fmt` wording of `Summary` are clocks and string rendering. Durations are integers, and `Summary` yields the numbers it prints.
- `rand.Seed` and `rand.Intn` are randomness. They become the `draw` parameter.
- The `fmt.Printf` logging, the `verbose` output it controls, and the unused `testing.T` parameter of `Run` do not affect any computed value.
- Aggregation.Drain: `Amount`, `Fails`, `Successes` and `TotalTime` are unbounded integers. The model does not capture the wrap-around of Go's `int` and of `int64` nanoseconds, which would take more than 292 years of accumulated request time.

## Findings

| source | as written | input that shows it | evidently intended | confidence | as-written member | corrected member |
|---|---|---|---|---|---|---|
| cartesian.go:13 | the root `iterate` is called on the caller's goroutine; with no parameters it is a leaf and sends on the unbuffered channel before `Iter` has returned that channel to any receiver | `Iter()` with no variables, i.e. `Run` on a runner to which nothing was `Add`ed | the root call runs as a goroutine like every other branch, and the single empty combination is delivered | not executed | Cartesian.IterAsWritten (exhibited by Cartesian.IterAsWrittenDeadlocksWithoutVariables) | Cartesian.Iter (Cartesian.IterNoVariables) |
| groundgopher.go:303 | an unfailed report is averaged by `int64(r.TotalTime) / int64(r.Amount)` even when `Amount` is 0, and Go panics on integer division by zero | a report with no runs: a variable with no cases, every combination disabled, every request failing, or `WithWorkers(0)` | a report without runs is summarised without dividing | not executed | Aggregation.SummaryAsWritten (exhibited by Aggregation.SummaryAsWrittenPanicsIffNoRuns) | Aggregation.Summary (Aggregation.SummaryOfDrainedReport) |
