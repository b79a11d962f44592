/** The combination generator (cartesian.go). `iterate` expands an ordered list of variables into
    every combination that picks one case per variable. The source runs every branch as its own
    goroutine and sends each finished combination on a channel; here the branches run one after
    the other and the channel's contents are the `emitted` sequence, so the order of `emitted` is
    one possible delivery order and every lemma about it is stated over multisets or membership.
    A combination is written as the case indices it picks, one per variable. */
module Cartesian {
  import opened Records

  /** One case index per variable, in declaration order. */
  type Combo = seq<nat>

  /** What a run of the generator leaves behind: the combinations sent on the channel and the
      number of `wg.Add(1)` and `wg.Done()` calls it made. */
  datatype Trace = Trace(emitted: seq<Combo>, adds: nat, dones: nat)

  /** The case counts of the variables. */
  function Sizes(variables: seq<Variable>): (sizes: seq<nat>)
    ensures |sizes| == |variables|
    ensures forall j :: 0 <= j < |variables| ==> sizes[j] == |variables[j].cases|
  {
    seq(|variables|, j requires 0 <= j < |variables| => |variables[j].cases|)
  }

  /** `c` picks one valid case index for every variable, position by position. */
  predicate IsChoice(c: Combo, sizes: seq<nat>) {
    |c| == |sizes| && forall j :: 0 <= j < |c| ==> c[j] < sizes[j]
  }

  /** `c` starts with `prefix` and continues with a choice for `sizes`. */
  predicate Extends(c: Combo, prefix: Combo, sizes: seq<nat>) {
    |prefix| <= |c| && c[..|prefix|] == prefix && IsChoice(c[|prefix|..], sizes)
  }

  /** `c` is one of the combinations the loop of `iterate` reaches from its `i`-th iteration on:
      it extends `prefix` by an index in `[i, n)` and then by a choice for `rest`. */
  predicate ExtendsFrom(c: Combo, prefix: Combo, n: nat, rest: seq<nat>, i: nat) {
    |prefix| < |c| && i <= c[|prefix|] < n && Extends(c, prefix + [c[|prefix|]], rest)
  }

  function Product(sizes: seq<nat>): nat {
    if sizes == [] then 1 else sizes[0] * Product(sizes[1..])
  }

  /** The number of `iterate` calls a generation makes: one for the call itself and, for each case
      of the first variable, the calls of the branch that case starts. */
  function Calls(sizes: seq<nat>): nat {
    if sizes == [] then 1 else 1 + sizes[0] * Calls(sizes[1..])
  }

  /** `iterate(wg, channel, prefix, params...)` where `sizes` are the case counts of `params`:
      a leaf sends `prefix`; otherwise the first variable is shifted off and one branch is started
      per case. Either way the call ends with one `wg.Done()`. */
  function Iterate(prefix: Combo, sizes: seq<nat>): Trace
    decreases |sizes|, 1, 0
  {
    if |sizes| == 0 then
      Trace([prefix], 0, 1)
    else
      var branches := Spawn(prefix, sizes[0], sizes[1..], 0);
      Trace(branches.emitted, branches.adds, branches.dones + 1)
  }

  /** Iterations `i` to `n - 1` of the loop in `iterate`: each one does `wg.Add(1)` and starts a
      branch on its own copy of the prefix extended by case `i`. */
  function Spawn(prefix: Combo, n: nat, rest: seq<nat>, i: nat): Trace
    decreases |rest| + 1, 0, n - i
  {
    if i >= n then
      Trace([], 0, 0)
    else
      var child := Iterate(prefix + [i], rest);
      var more := Spawn(prefix, n, rest, i + 1);
      Trace(child.emitted + more.emitted, 1 + child.adds + more.adds, child.dones + more.dones)
  }

  /** `Iter(params...)`: one `wg.Add(1)` for the root call, then the root call on an empty prefix.
      This is the generator with the root call behaving like every other branch; see
      `IterAsWritten` for what the source's synchronous root call does. */
  function Iter(variables: seq<Variable>): Trace {
    var root := Iterate([], Sizes(variables));
    Trace(root.emitted, root.adds + 1, root.dones)
  }

  /** The cases a combination picks, in variable order. */
  function Select(variables: seq<Variable>, c: Combo): (cases: seq<Case>)
    requires IsChoice(c, Sizes(variables))
    ensures |cases| == |variables|
    ensures forall j :: 0 <= j < |cases| ==> cases[j] == variables[j].cases[c[j]]
  {
    seq(|c|, j requires 0 <= j < |c| => variables[j].cases[c[j]])
  }

  /** What the channel returned by `Iter` delivers: the combinations as lists of cases. */
  function Combinations(variables: seq<Variable>): (combinations: seq<seq<Case>>)
    ensures |combinations| == Product(Sizes(variables))
    ensures forall k :: 0 <= k < |combinations| ==> |combinations[k]| == |variables|
    ensures forall k, j :: 0 <= k < |combinations| && 0 <= j < |variables| ==>
      combinations[k][j] in variables[j].cases
  {
    var emitted := Iter(variables).emitted;
    IterCount(variables);
    IterChoices(variables);
    assert forall k :: 0 <= k < |emitted| ==> emitted[k] in emitted;
    seq(|emitted|, k requires 0 <= k < |emitted| => Select(variables, emitted[k]))
  }

  // ---------------------------------------------------------------------------------------------
  // Count

  lemma {:induction false} IterateCount(prefix: Combo, sizes: seq<nat>)
    ensures |Iterate(prefix, sizes).emitted| == Product(sizes)
    decreases |sizes|, 1, 0
  {
    if |sizes| > 0 {
      SpawnCount(prefix, sizes[0], sizes[1..], 0);
    }
  }

  lemma {:induction false} SpawnCount(prefix: Combo, n: nat, rest: seq<nat>, i: nat)
    requires i <= n
    ensures |Spawn(prefix, n, rest, i).emitted| == (n - i) * Product(rest)
    decreases |rest| + 1, 0, n - i
  {
    if i < n {
      IterateCount(prefix + [i], rest);
      SpawnCount(prefix, n, rest, i + 1);
      assert (n - i) * Product(rest) == Product(rest) + (n - (i + 1)) * Product(rest);
    }
  }

  /** The generator emits exactly the product of the case counts. */
  lemma IterCount(variables: seq<Variable>)
    ensures |Iter(variables).emitted| == Product(Sizes(variables))
  {
    IterateCount([], Sizes(variables));
  }

  lemma {:induction false} ProductZero(sizes: seq<nat>)
    ensures Product(sizes) == 0 <==> exists j :: 0 <= j < |sizes| && sizes[j] == 0
  {
    if sizes != [] {
      ProductZero(sizes[1..]);
      if Product(sizes[1..]) == 0 {
        var j :| 0 <= j < |sizes[1..]| && sizes[1..][j] == 0;
        assert sizes[j + 1] == 0;
      }
      if exists j :: 0 <= j < |sizes| && sizes[j] == 0 {
        var j :| 0 <= j < |sizes| && sizes[j] == 0;
        if j > 0 {
          assert sizes[1..][j - 1] == 0;
        }
      }
    }
  }

  /** A variable without cases leaves nothing to combine: no combination at all is emitted. */
  lemma IterEmptyVariable(variables: seq<Variable>, j: nat)
    requires j < |variables| && |variables[j].cases| == 0
    ensures Iter(variables).emitted == []
  {
    IterCount(variables);
    ProductZero(Sizes(variables));
  }

  /** Without variables the generator emits exactly one combination, the empty one. */
  lemma IterNoVariables()
    ensures Iter([]).emitted == [[]]
    ensures Iter([]).adds == Iter([]).dones == 1
  {
  }

  // ---------------------------------------------------------------------------------------------
  // Exactly once

  lemma ExtendsStep(c: Combo, prefix: Combo, sizes: seq<nat>)
    requires |sizes| > 0
    ensures Extends(c, prefix, sizes) <==> ExtendsFrom(c, prefix, sizes[0], sizes[1..], 0)
  {
    var p := |prefix|;
    if Extends(c, prefix, sizes) {
      assert c[p..][0] == c[p];
      assert c[p + 1..] == c[p..][1..];
      assert c[..p + 1] == c[..p] + [c[p]];
      forall j | 0 <= j < |c[p + 1..]| ensures c[p + 1..][j] < sizes[1..][j] {
        assert c[p + 1..][j] == c[p..][j + 1];
      }
    }
    if ExtendsFrom(c, prefix, sizes[0], sizes[1..], 0) {
      assert c[..p + 1] == prefix + [c[p]];
      assert c[..p] == c[..p + 1][..p];
      forall j | 0 <= j < |c[p..]| ensures c[p..][j] < sizes[j] {
        if j > 0 {
          assert c[p..][j] == c[p + 1..][j - 1];
        }
      }
    }
  }

  lemma ExtendsFromStep(c: Combo, prefix: Combo, n: nat, rest: seq<nat>, i: nat)
    requires i < n
    ensures ExtendsFrom(c, prefix, n, rest, i) <==>
      Extends(c, prefix + [i], rest) || ExtendsFrom(c, prefix, n, rest, i + 1)
    ensures !(Extends(c, prefix + [i], rest) && ExtendsFrom(c, prefix, n, rest, i + 1))
  {
    var p := |prefix|;
    if Extends(c, prefix + [i], rest) {
      assert c[..p + 1][p] == c[p];
      assert c[p] == i;
    }
  }

  lemma {:induction false} IterateMultiplicity(prefix: Combo, sizes: seq<nat>, c: Combo)
    ensures multiset(Iterate(prefix, sizes).emitted)[c] == if Extends(c, prefix, sizes) then 1 else 0
    decreases |sizes|, 1, 0
  {
    if |sizes| == 0 {
      if c == prefix {
        assert c[..|prefix|] == prefix;
      }
    } else {
      SpawnMultiplicity(prefix, sizes[0], sizes[1..], 0, c);
      ExtendsStep(c, prefix, sizes);
    }
  }

  lemma {:induction false} SpawnMultiplicity(prefix: Combo, n: nat, rest: seq<nat>, i: nat, c: Combo)
    ensures multiset(Spawn(prefix, n, rest, i).emitted)[c] ==
      if ExtendsFrom(c, prefix, n, rest, i) then 1 else 0
    decreases |rest| + 1, 0, n - i
  {
    if i < n {
      IterateMultiplicity(prefix + [i], rest, c);
      SpawnMultiplicity(prefix, n, rest, i + 1, c);
      ExtendsFromStep(c, prefix, n, rest, i);
    }
  }

  /** Exactly once: every choice of one case index per variable is emitted exactly once, and
      nothing else is emitted. */
  lemma IterExactlyOnce(variables: seq<Variable>, c: Combo)
    ensures multiset(Iter(variables).emitted)[c] == if IsChoice(c, Sizes(variables)) then 1 else 0
  {
    IterateMultiplicity([], Sizes(variables), c);
    assert c[0..] == c;
  }

  /** Shape: an emitted combination has one index per variable, and position `j` holds a case
      index of variable `j`. */
  lemma IterShape(variables: seq<Variable>, c: Combo)
    requires c in Iter(variables).emitted
    ensures |c| == |variables|
    ensures forall j :: 0 <= j < |c| ==> c[j] < |variables[j].cases|
  {
    IterExactlyOnce(variables, c);
  }

  /** Every emitted combination is a valid choice: what `Select` needs. */
  lemma IterChoices(variables: seq<Variable>)
    ensures forall c :: c in Iter(variables).emitted ==> IsChoice(c, Sizes(variables))
  {
    forall c | c in Iter(variables).emitted ensures IsChoice(c, Sizes(variables)) {
      IterExactlyOnce(variables, c);
    }
  }

  /** No aliasing between branches: everything a branch emits starts with exactly the choices made
      on the path to it, whatever its siblings append to their own copies. */
  lemma IteratePrefix(prefix: Combo, sizes: seq<nat>, c: Combo)
    requires c in Iterate(prefix, sizes).emitted
    ensures |c| == |prefix| + |sizes|
    ensures c[..|prefix|] == prefix
  {
    IterateMultiplicity(prefix, sizes, c);
  }

  // ---------------------------------------------------------------------------------------------
  // WaitGroup bookkeeping

  lemma {:induction false} IterateWaitGroup(prefix: Combo, sizes: seq<nat>)
    ensures Iterate(prefix, sizes).dones == Iterate(prefix, sizes).adds + 1
    ensures Iterate(prefix, sizes).dones == Calls(sizes)
    decreases |sizes|, 1, 0
  {
    if |sizes| > 0 {
      SpawnWaitGroup(prefix, sizes[0], sizes[1..], 0);
    }
  }

  lemma {:induction false} SpawnWaitGroup(prefix: Combo, n: nat, rest: seq<nat>, i: nat)
    requires i <= n
    ensures Spawn(prefix, n, rest, i).dones == Spawn(prefix, n, rest, i).adds
    ensures Spawn(prefix, n, rest, i).dones == (n - i) * Calls(rest)
    decreases |rest| + 1, 0, n - i
  {
    if i < n {
      IterateWaitGroup(prefix + [i], rest);
      SpawnWaitGroup(prefix, n, rest, i + 1);
      assert (n - i) * Calls(rest) == Calls(rest) + (n - (i + 1)) * Calls(rest);
    }
  }

  /** The initial `Add(1)` plus one `Add(1)` per started branch equals the number of `iterate`
      calls, and each call does one `Done()`: the counter is back at zero once every branch has
      finished, so the closing goroutine closes the channel. */
  lemma IterWaitGroupBalanced(variables: seq<Variable>)
    ensures Iter(variables).adds == Iter(variables).dones
    ensures Iter(variables).dones == Calls(Sizes(variables))
  {
    IterateWaitGroup([], Sizes(variables));
  }

  // ---------------------------------------------------------------------------------------------
  // The source's synchronous root call

  /** Whether `Iter` hands its channel back to the caller. */
  datatype Delivery = Delivered(trace: Trace) | Deadlock

  /** `Iter` as written: the root `iterate` runs on the caller's goroutine, not as a goroutine of
      its own. A root that has a variable to shift only starts goroutines and returns; a root with
      no variables left is a leaf and sends on the unbuffered channel before `Iter` has returned
      that channel to anyone who could receive from it, so `Iter` never returns. */
  function IterAsWritten(variables: seq<Variable>): (d: Delivery)
    ensures d.Delivered? ==> d.trace.emitted == Iter(variables).emitted
  {
    if |variables| == 0 then Deadlock else Delivered(Iter(variables))
  }

  /** The generator as written blocks on the one input whose cartesian product is the single empty
      combination, and delivers the intended product everywhere else. */
  lemma IterAsWrittenDeadlocksWithoutVariables(variables: seq<Variable>)
    ensures IterAsWritten([]) == Deadlock && Iter([]).emitted == [[]]
    ensures |variables| > 0 ==> IterAsWritten(variables) == Delivered(Iter(variables))
  {
  }
}
