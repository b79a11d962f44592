/** The test runner object (`GroundGopher`, groundgopher.go): construction from functional
    options, variable registration, its own key/value cache, and `Run`, which feeds every
    combination the generator emits through a worker and drains the runs into a report.

    `Run` is modelled with a single worker that takes the combinations in the order the
    sequential generator emits them. The oracles are indexed by combination: `transport(c)` is
    the outcome of the request for combination `c`, `verdict(c)(i)` what the validator of its
    `i`-th case says, and `draw(c)(j)` the `j`-th index `rand.Intn` returns while its identifier is
    drawn. */
module GroundGopher {
  import opened Wrappers
  import opened Records
  import opened Cartesian
  import opened Identifiers
  import opened RunContext
  import opened Worker
  import opened Aggregation

  /** The three library options `WithHost`, `WithWorkers` and `WithVerbose`. The source's `Option`
      is any function on the object; options defined by callers are not modelled. */
  datatype Setting = WithHost(host: string) | WithWorkers(workers: int) | WithVerbose(verbose: bool)

  /** The fields the options set. */
  datatype Config = Config(host: string, gophers: int, verbose: bool)

  /** The struct literal in `New`: ten workers, no host, not verbose. */
  const Defaults: Config := Config("", 10, false)

  /** What calling one option on the object does. */
  function ApplySetting(config: Config, setting: Setting): Config {
    match setting
    case WithHost(h) => config.(host := h)
    case WithWorkers(n) => config.(gophers := n)
    case WithVerbose(b) => config.(verbose := b)
  }

  /** The options applied to the defaults one after the other, in the order given. */
  function Configure(settings: seq<Setting>): Config {
    if settings == [] then Defaults
    else ApplySetting(Configure(settings[..|settings| - 1]), settings[|settings| - 1])
  }

  /** The combinations the workers take from the channel: all of them, unless no worker is
      started at all. */
  function Consumed(variables: seq<Variable>, gophers: int): seq<Combo> {
    if gophers <= 0 then [] else Iter(variables).emitted
  }

  /** The runs the worker emits for `combos`, in that order. */
  function Produced(
    variables: seq<Variable>,
    combos: seq<Combo>,
    transport: Combo -> Option<Response>,
    verdict: Combo -> (nat -> Verdict)): seq<Run>
    requires forall c :: c in combos ==> IsChoice(c, Sizes(variables))
  {
    if combos == [] then []
    else
      var c := combos[|combos| - 1];
      var init := Produced(variables, combos[..|combos| - 1], transport, verdict);
      var run := RunOf(Select(variables, c), transport(c), verdict(c));
      if run.Some? then init + [run.value] else init
  }

  class GroundGopher {
    var apiUrl: Option<string>
    var host: string
    var variables: seq<Variable>
    var gophers: int
    var verbose: bool
    var cache: map<string, string>

    function CurrentConfig(): Config
      reads this
    {
      Config(host, gophers, verbose)
    }

    /** The struct literal `GroundGopher{cache: make(map[string]string), gophers: 10}`. */
    constructor ()
      ensures CurrentConfig() == Defaults
      ensures variables == [] && cache == map[] && apiUrl == None
    {
      apiUrl := None;
      host := "";
      variables := [];
      gophers := 10;
      verbose := false;
      cache := map[];
    }

    /** `opt(&gg)`: one option sets its one field. */
    method Apply(setting: Setting)
      modifies this
      ensures CurrentConfig() == ApplySetting(old(CurrentConfig()), setting)
      ensures variables == old(variables) && cache == old(cache) && apiUrl == old(apiUrl)
    {
      match setting
      case WithHost(h) => host := h;
      case WithWorkers(n) => gophers := n;
      case WithVerbose(b) => verbose := b;
    }

    /** `Add`: append a variable; no check is made, and the returned error is always nil. */
    method Add(v: Variable) returns (err: Option<string>)
      modifies this
      ensures variables == old(variables) + [v]
      ensures err == None
      ensures CurrentConfig() == old(CurrentConfig()) && cache == old(cache) && apiUrl == old(apiUrl)
    {
      variables := variables + [v];
      err := None;
    }

    /** `GroundGopher.Set`: store `v` under `k` in the object's cache. */
    method Set(k: string, v: string)
      modifies this
      ensures cache == old(cache)[k := v]
      ensures Get(k) == v
      ensures forall other :: other != k ==> Get(other) == old(Get(other))
      ensures CurrentConfig() == old(CurrentConfig()) && variables == old(variables)
      ensures apiUrl == old(apiUrl)
    {
      cache := cache[k := v];
    }

    /** `GroundGopher.Get`: the value under `k`, or `""`. */
    function Get(k: string): (v: string)
      reads this
      ensures k in cache ==> v == cache[k]
      ensures k !in cache ==> v == ""
    {
      Lookup(cache, k)
    }

    /** `Run`: every combination the workers consume goes through `ProcessCombination`, and the
        runs it emits are drained into the report. */
    method Run(
      transport: Combo -> Option<Response>,
      verdict: Combo -> (nat -> Verdict),
      draw: Combo -> (nat -> CharIndex))
      returns (report: Report)
      requires apiUrl.Some? || Consumed(variables, gophers) == []
      ensures forall c :: c in Consumed(variables, gophers) ==> IsChoice(c, Sizes(variables))
      ensures Tallies(report, Produced(variables, Consumed(variables, gophers), transport, verdict))
    {
      var combos := Consumed(variables, gophers);
      IterChoices(variables);
      var runs: seq<Run> := [];
      var i := 0;
      while i < |combos|
        invariant 0 <= i <= |combos|
        invariant runs == Produced(variables, combos[..i], transport, verdict)
      {
        var c := combos[i];
        assert combos[..i + 1][..i] == combos[..i];
        var cases := Select(variables, c);
        var setups, userAgent, run := ProcessCombination(cases, transport(c), verdict(c), draw(c));
        if run.Some? {
          runs := runs + [run.value];
        }
        i := i + 1;
      }
      assert combos[..i] == combos;
      report := Drain(runs);
    }
  }

  /** `New`: apply the options in order to the defaults, then parse the host; `parses(h)` is
      whether `url.Parse` accepts `h`. On a parse error no object is returned. */
  method New(settings: seq<Setting>, parses: string -> bool) returns (gg: GroundGopher?)
    ensures gg == null <==> !parses(Configure(settings).host)
    ensures gg != null ==> fresh(gg) && gg.CurrentConfig() == Configure(settings)
    ensures gg != null ==> gg.variables == [] && gg.cache == map[]
    ensures gg != null ==> gg.apiUrl == Some(Configure(settings).host)
  {
    var g := new GroundGopher();
    var i := 0;
    while i < |settings|
      invariant 0 <= i <= |settings|
      invariant g.CurrentConfig() == Configure(settings[..i])
      invariant g.variables == [] && g.cache == map[] && g.apiUrl == None
    {
      assert settings[..i + 1][..i] == settings[..i];
      g.Apply(settings[i]);
      i := i + 1;
    }
    assert settings[..i] == settings;
    if !parses(g.host) {
      return null;
    }
    g.apiUrl := Some(g.host);
    return g;
  }

  // ---------------------------------------------------------------------------------------------
  // Options

  /** Without a `WithWorkers` option the pool has ten workers. */
  lemma {:induction false} GophersDefault(settings: seq<Setting>)
    requires forall i :: 0 <= i < |settings| ==> !settings[i].WithWorkers?
    ensures Configure(settings).gophers == 10
  {
    if settings != [] {
      GophersDefault(settings[..|settings| - 1]);
    }
  }

  /** Options apply in order, so the last `WithWorkers` decides the pool size. */
  lemma {:induction false} GophersFromLastWithWorkers(settings: seq<Setting>, k: nat)
    requires k < |settings| && settings[k].WithWorkers?
    requires forall j :: k < j < |settings| ==> !settings[j].WithWorkers?
    ensures Configure(settings).gophers == settings[k].workers
  {
    if k < |settings| - 1 {
      GophersFromLastWithWorkers(settings[..|settings| - 1], k);
    } else {
      assert settings[k] == settings[|settings| - 1];
    }
  }

  /** Options apply in order, so the last `WithHost` decides the host that is parsed. */
  lemma {:induction false} HostFromLastWithHost(settings: seq<Setting>, k: nat)
    requires k < |settings| && settings[k].WithHost?
    requires forall j :: k < j < |settings| ==> !settings[j].WithHost?
    ensures Configure(settings).host == settings[k].host
  {
    if k < |settings| - 1 {
      HostFromLastWithHost(settings[..|settings| - 1], k);
    }
  }

  /** Without a `WithHost` option the host is empty. */
  lemma {:induction false} HostDefault(settings: seq<Setting>)
    requires forall i :: 0 <= i < |settings| ==> !settings[i].WithHost?
    ensures Configure(settings).host == ""
  {
    if settings != [] {
      HostDefault(settings[..|settings| - 1]);
    }
  }

  // ---------------------------------------------------------------------------------------------
  // The pipeline

  lemma {:induction false} ProducedConcat(
    variables: seq<Variable>,
    a: seq<Combo>,
    b: seq<Combo>,
    transport: Combo -> Option<Response>,
    verdict: Combo -> (nat -> Verdict))
    requires forall c :: c in a + b ==> IsChoice(c, Sizes(variables))
    ensures Produced(variables, a + b, transport, verdict) ==
      Produced(variables, a, transport, verdict) + Produced(variables, b, transport, verdict)
    decreases |b|
  {
    if b == [] {
      assert a + b == a;
    } else {
      var b' := b[..|b| - 1];
      assert (a + b)[..|a + b| - 1] == a + b';
      ProducedConcat(variables, a, b', transport, verdict);
    }
  }

  /** A combination that has a disabled case, or whose request failed, contributes no run: the
      runs are those of the other combinations. */
  lemma ProducedSkips(
    variables: seq<Variable>,
    combos: seq<Combo>,
    k: nat,
    transport: Combo -> Option<Response>,
    verdict: Combo -> (nat -> Verdict))
    requires forall c :: c in combos ==> IsChoice(c, Sizes(variables))
    requires k < |combos|
    requires HasDisabled(Select(variables, combos[k])) || transport(combos[k]).None?
    ensures Produced(variables, combos, transport, verdict) ==
      Produced(variables, combos[..k] + combos[k + 1..], transport, verdict)
  {
    assert combos == combos[..k] + [combos[k]] + combos[k + 1..];
    ProducedConcat(variables, combos[..k] + [combos[k]], combos[k + 1..], transport, verdict);
    ProducedConcat(variables, combos[..k], [combos[k]], transport, verdict);
    ProducedConcat(variables, combos[..k], combos[k + 1..], transport, verdict);
  }

  /** Any other combination contributes exactly its own run, in its place. */
  lemma ProducedDelivers(
    variables: seq<Variable>,
    combos: seq<Combo>,
    k: nat,
    transport: Combo -> Option<Response>,
    verdict: Combo -> (nat -> Verdict))
    requires forall c :: c in combos ==> IsChoice(c, Sizes(variables))
    requires k < |combos|
    requires !HasDisabled(Select(variables, combos[k])) && transport(combos[k]).Some?
    ensures RunOf(Select(variables, combos[k]), transport(combos[k]), verdict(combos[k])).Some?
    ensures Produced(variables, combos, transport, verdict) ==
      Produced(variables, combos[..k], transport, verdict) +
      [RunOf(Select(variables, combos[k]), transport(combos[k]), verdict(combos[k])).value] +
      Produced(variables, combos[k + 1..], transport, verdict)
  {
    assert combos == combos[..k] + [combos[k]] + combos[k + 1..];
    ProducedConcat(variables, combos[..k] + [combos[k]], combos[k + 1..], transport, verdict);
    ProducedConcat(variables, combos[..k], [combos[k]], transport, verdict);
  }

  /** At most one run per combination. */
  lemma {:induction false} ProducedLength(
    variables: seq<Variable>,
    combos: seq<Combo>,
    transport: Combo -> Option<Response>,
    verdict: Combo -> (nat -> Verdict))
    requires forall c :: c in combos ==> IsChoice(c, Sizes(variables))
    ensures |Produced(variables, combos, transport, verdict)| <= |combos|
  {
    if combos != [] {
      ProducedLength(variables, combos[..|combos| - 1], transport, verdict);
    }
  }

  lemma ProducedWithout(
    variables: seq<Variable>,
    b: seq<Combo>,
    k: nat,
    transport: Combo -> Option<Response>,
    verdict: Combo -> (nat -> Verdict))
    requires forall c :: c in b ==> IsChoice(c, Sizes(variables))
    requires k < |b|
    ensures forall c :: c in b[..k] + b[k + 1..] ==> IsChoice(c, Sizes(variables))
    ensures multiset(Produced(variables, b, transport, verdict)) ==
      multiset(Produced(variables, b[..k] + b[k + 1..], transport, verdict)) +
      multiset(Produced(variables, [b[k]], transport, verdict))
  {
    assert b == b[..k] + [b[k]] + b[k + 1..];
    assert forall c :: c in b[..k] + b[k + 1..] ==> c in b;
    ProducedConcat(variables, b[..k] + [b[k]], b[k + 1..], transport, verdict);
    ProducedConcat(variables, b[..k], [b[k]], transport, verdict);
    ProducedConcat(variables, b[..k], b[k + 1..], transport, verdict);
  }

  lemma ChoicesPermuted(sizes: seq<nat>, a: seq<Combo>, b: seq<Combo>)
    requires forall c :: c in a ==> IsChoice(c, sizes)
    requires multiset(a) == multiset(b)
    ensures forall c :: c in b ==> IsChoice(c, sizes)
  {
    forall c | c in b
      ensures IsChoice(c, sizes)
    {
      assert c in multiset(b);
    }
  }

  /** The order in which the workers take the combinations does not change which runs are
      emitted, only their order. */
  lemma {:induction false} ProducedPermutation(
    variables: seq<Variable>,
    a: seq<Combo>,
    b: seq<Combo>,
    transport: Combo -> Option<Response>,
    verdict: Combo -> (nat -> Verdict))
    requires forall c :: c in a ==> IsChoice(c, Sizes(variables))
    requires multiset(a) == multiset(b)
    ensures forall c :: c in b ==> IsChoice(c, Sizes(variables))
    ensures multiset(Produced(variables, a, transport, verdict)) ==
      multiset(Produced(variables, b, transport, verdict))
    decreases |a|
  {
    ChoicesPermuted(Sizes(variables), a, b);
    if a != [] {
      var x := a[|a| - 1];
      var a' := a[..|a| - 1];
      var k := MatchLast(a, b);
      ProducedLast(variables, a, transport, verdict);
      ProducedWithout(variables, b, k, transport, verdict);
      ProducedPermutation(variables, a', b[..k] + b[k + 1..], transport, verdict);
    }
  }

  /** Where the last element of `a` sits in a permutation `b` of it, and what is left of both. */
  lemma MatchLast(a: seq<Combo>, b: seq<Combo>) returns (k: nat)
    requires a != [] && multiset(a) == multiset(b)
    ensures k < |b| && b[k] == a[|a| - 1]
    ensures multiset(a[..|a| - 1]) == multiset(b[..k] + b[k + 1..])
  {
    var x := a[|a| - 1];
    assert x in multiset(b);
    k :| 0 <= k < |b| && b[k] == x;
    assert b == b[..k] + [x] + b[k + 1..];
    assert multiset(b) == multiset(b[..k] + b[k + 1..]) + multiset{x};
    assert a == a[..|a| - 1] + [x];
    assert multiset(a) == multiset(a[..|a| - 1]) + multiset{x};
    assert multiset(a[..|a| - 1]) == multiset(a) - multiset{x};
    assert multiset(b[..k] + b[k + 1..]) == multiset(b) - multiset{x};
  }

  lemma ProducedLast(
    variables: seq<Variable>,
    a: seq<Combo>,
    transport: Combo -> Option<Response>,
    verdict: Combo -> (nat -> Verdict))
    requires forall c :: c in a ==> IsChoice(c, Sizes(variables))
    requires a != []
    ensures forall c :: c in a[..|a| - 1] ==> IsChoice(c, Sizes(variables))
    ensures multiset(Produced(variables, a, transport, verdict)) ==
      multiset(Produced(variables, a[..|a| - 1], transport, verdict)) +
      multiset(Produced(variables, [a[|a| - 1]], transport, verdict))
  {
    var a' := a[..|a| - 1];
    assert a == a' + [a[|a| - 1]];
    ProducedConcat(variables, a', [a[|a| - 1]], transport, verdict);
  }

  /** Once at least one worker has started, the pool size and the schedule do not matter: if the
      workers consume the combinations in any order `order` of the generator's output, the report
      has the same counters as the one for the generator's own order. This takes the outcome of
      each combination's request and validation, its duration included, to be the same whatever
      the order. */
  lemma ReportIndependentOfSchedule(
    variables: seq<Variable>,
    order: seq<Combo>,
    transport: Combo -> Option<Response>,
    verdict: Combo -> (nat -> Verdict),
    r1: Report,
    r2: Report)
    requires multiset(order) == multiset(Iter(variables).emitted)
    ensures forall c :: c in Iter(variables).emitted ==> IsChoice(c, Sizes(variables))
    ensures forall c :: c in order ==> IsChoice(c, Sizes(variables))
    ensures
      (Tallies(r1, Produced(variables, Iter(variables).emitted, transport, verdict)) &&
       Tallies(r2, Produced(variables, order, transport, verdict))) ==>
      (r1.amount == r2.amount && r1.fails == r2.fails && r1.successes == r2.successes &&
       r1.totalTime == r2.totalTime && r1.failed == r2.failed)
  {
    IterChoices(variables);
    var emitted := Iter(variables).emitted;
    ProducedPermutation(variables, emitted, order, transport, verdict);
    if Tallies(r1, Produced(variables, emitted, transport, verdict)) &&
       Tallies(r2, Produced(variables, order, transport, verdict)) {
      ReportIndependentOfArrivalOrder(r1, Produced(variables, emitted, transport, verdict),
                                      r2, Produced(variables, order, transport, verdict));
    }
  }

  /** A report never counts more runs than there are combinations. */
  lemma AmountAtMostProduct(
    variables: seq<Variable>,
    gophers: int,
    transport: Combo -> Option<Response>,
    verdict: Combo -> (nat -> Verdict),
    report: Report)
    ensures forall c :: c in Consumed(variables, gophers) ==> IsChoice(c, Sizes(variables))
    ensures Tallies(report, Produced(variables, Consumed(variables, gophers), transport, verdict)) ==>
      report.amount <= Product(Sizes(variables))
  {
    IterChoices(variables);
    IterCount(variables);
    ProducedLength(variables, Consumed(variables, gophers), transport, verdict);
  }

  /** No loss: when no combination has a disabled case and every request is answered, every
      combination contributes its run. */
  lemma {:induction false} ProducedAllDelivered(
    variables: seq<Variable>,
    combos: seq<Combo>,
    transport: Combo -> Option<Response>,
    verdict: Combo -> (nat -> Verdict))
    requires forall c :: c in combos ==> IsChoice(c, Sizes(variables))
    requires forall c :: c in combos ==> !HasDisabled(Select(variables, c)) && transport(c).Some?
    ensures |Produced(variables, combos, transport, verdict)| == |combos|
  {
    if combos != [] {
      var init := combos[..|combos| - 1];
      assert forall c :: c in init ==> c in combos;
      ProducedAllDelivered(variables, init, transport, verdict);
      var c := combos[|combos| - 1];
      assert c in combos;
      assert RunOf(Select(variables, c), transport(c), verdict(c)).Some?;
    }
  }

  /** Once a worker has started, with no disabled case and every request answered, the report
      counts exactly one run per combination: the product of the case counts. */
  lemma AmountIsProductWhenAllDelivered(
    variables: seq<Variable>,
    gophers: int,
    transport: Combo -> Option<Response>,
    verdict: Combo -> (nat -> Verdict),
    report: Report)
    requires gophers > 0
    requires forall j, i :: 0 <= j < |variables| && 0 <= i < |variables[j].cases| ==>
      !variables[j].cases[i].disabled
    requires forall c :: transport(c).Some?
    ensures forall c :: c in Consumed(variables, gophers) ==> IsChoice(c, Sizes(variables))
    ensures Tallies(report, Produced(variables, Consumed(variables, gophers), transport, verdict)) ==>
      report.amount == Product(Sizes(variables))
  {
    IterChoices(variables);
    IterCount(variables);
    var combos := Iter(variables).emitted;
    forall c | c in combos
      ensures !HasDisabled(Select(variables, c))
    {
      var cases := Select(variables, c);
      forall j | 0 <= j < |cases| ensures !cases[j].disabled {
        assert cases[j] == variables[j].cases[c[j]];
      }
    }
    ProducedAllDelivered(variables, combos, transport, verdict);
  }

  lemma {:induction false} ProducedAllSkipped(
    variables: seq<Variable>,
    combos: seq<Combo>,
    transport: Combo -> Option<Response>,
    verdict: Combo -> (nat -> Verdict))
    requires forall c :: c in combos ==> IsChoice(c, Sizes(variables))
    requires forall c :: c in combos ==> HasDisabled(Select(variables, c))
    ensures Produced(variables, combos, transport, verdict) == []
  {
    if combos != [] {
      var init := combos[..|combos| - 1];
      assert forall c :: c in init ==> c in combos;
      ProducedAllSkipped(variables, init, transport, verdict);
    }
  }

  /** A variable whose every case is disabled disables every combination: the report is empty. */
  lemma DisabledVariableSkipsEverything(
    variables: seq<Variable>,
    j: nat,
    transport: Combo -> Option<Response>,
    verdict: Combo -> (nat -> Verdict))
    requires j < |variables|
    requires forall i :: 0 <= i < |variables[j].cases| ==> variables[j].cases[i].disabled
    ensures forall c :: c in Iter(variables).emitted ==> IsChoice(c, Sizes(variables))
    ensures Produced(variables, Iter(variables).emitted, transport, verdict) == []
  {
    IterChoices(variables);
    forall c | c in Iter(variables).emitted ensures HasDisabled(Select(variables, c)) {
      assert Select(variables, c)[j] == variables[j].cases[c[j]];
    }
    ProducedAllSkipped(variables, Iter(variables).emitted, transport, verdict);
  }

  // ---------------------------------------------------------------------------------------------
  // A worked scenario

  /** Two variables, "auth" with a valid and a missing token (the latter expected to fail) and
      "method" with GET only. */
  const AuthVariables: seq<Variable> := [
    Variable("auth", [Case("valid-token", false, false), Case("missing-token", false, true)]),
    Variable("method", [Case("GET", false, false)])]

  /** The missing token's validator sees the expected 401 and reports a failure; every other
      validator passes. */
  function AuthVerdict(c: Combo): nat -> Verdict {
    (i: nat) => Verdict(c == [1, 0] && i == 0, "")
  }

  lemma AuthCombinations()
    ensures Iter(AuthVariables).emitted == [[0, 0], [1, 0]]
  {
    assert Sizes(AuthVariables) == [2, 1];
    assert [2, 1][1..] == [1] && [1][1..] == [];
    var z: Combo := [0];
    var o: Combo := [1];
    assert z + [0] == [0, 0] && o + [0] == [1, 0] && [] + [0] == z && [] + [1] == o;
    assert Iterate([0, 0], []).emitted == [[0, 0]];
    assert Iterate([1, 0], []).emitted == [[1, 0]];
    assert Spawn(z, 1, [], 0).emitted == [[0, 0]];
    assert Spawn(o, 1, [], 0).emitted == [[1, 0]];
    assert Iterate(z, [1]).emitted == [[0, 0]];
    assert Iterate(o, [1]).emitted == [[1, 0]];
    assert Spawn([], 2, [1], 1).emitted == [[1, 0]];
    assert Spawn([], 2, [1], 0).emitted == [[0, 0], [1, 0]];
  }

  /** With every request answered: two combinations, two runs, and the expected failure of the
      missing token is no failure of the report. */
  lemma AuthScenario(transport: Combo -> Option<Response>, report: Report)
    requires forall c :: transport(c).Some?
    ensures forall c :: c in Iter(AuthVariables).emitted ==> IsChoice(c, Sizes(AuthVariables))
    ensures Tallies(report, Produced(AuthVariables, Iter(AuthVariables).emitted, transport, AuthVerdict)) ==>
      report.amount == 2 && report.fails == 0 && report.successes == 2 && !report.failed
  {
    IterChoices(AuthVariables);
    AuthCombinations();
    var emitted := Iter(AuthVariables).emitted;
    var first := Select(AuthVariables, [0, 0]);
    var second := Select(AuthVariables, [1, 0]);
    assert first == [Case("valid-token", false, false), Case("GET", false, false)];
    assert second == [Case("missing-token", false, true), Case("GET", false, false)];
    assert !HasDisabled(first) && !HasDisabled(second);
    var run1 := RunOf(first, transport([0, 0]), AuthVerdict([0, 0]));
    var run2 := RunOf(second, transport([1, 0]), AuthVerdict([1, 0]));
    assert run1.Some? && FailWeight(run1.value) == 0 by {
      ValidateComplete(first, AuthVerdict([0, 0]));
      ValidateAligned(first, AuthVerdict([0, 0]), 0);
    }
    assert run2.Some? && FailWeight(run2.value) == 0 by {
      assert second[0].wantFail;
    }
    var runs := Produced(AuthVariables, emitted, transport, AuthVerdict);
    assert runs == [run1.value, run2.value] by {
      var init: seq<Combo> := emitted[..1];
      assert init == [[0, 0]];
      var none: seq<Combo> := init[..0];
      assert none == [];
      assert Produced(AuthVariables, none, transport, AuthVerdict) == [];
      assert Produced(AuthVariables, init, transport, AuthVerdict) == [run1.value];
      assert emitted[|emitted| - 1] == [1, 0];
    }
    assert CountFails(runs) == 0 by {
      var init: seq<Run> := runs[..1];
      assert init == [run1.value];
      assert init[..0] == [];
      assert SumOf(init, FailWeight) == 0;
    }
  }
}
