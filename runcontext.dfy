/** The per-combination scratch space (`Ctx`, groundgopher.go) through which a case's setup hands
    values to its validator. The `GroundGopher` object has the same two operations on its own
    cache (see groundgopher.dfy). */
module RunContext {

  /** Reading a Go `map[string]string`: a missing key reads as the empty string. */
  function Lookup(cache: map<string, string>, k: string): (v: string)
    ensures k in cache ==> v == cache[k]
    ensures k !in cache ==> v == ""
  {
    if k in cache then cache[k] else ""
  }

  /** After storing `v` under `k`, `k` reads back `v` and every other key reads as before. */
  lemma LookupAfterStore(cache: map<string, string>, k: string, v: string, other: string)
    ensures Lookup(cache[k := v], k) == v
    ensures other != k ==> Lookup(cache[k := v], other) == Lookup(cache, other)
  {
  }

  class Ctx {
    var cache: map<string, string>

    /** `Ctx{cache: make(map[string]string)}`: a fresh, empty scratch space. */
    constructor ()
      ensures cache == map[]
    {
      cache := map[];
    }

    /** `Ctx.Set`: store `v` under `k`, overwriting an earlier value. */
    method Set(k: string, v: string)
      modifies this
      ensures cache == old(cache)[k := v]
      ensures Get(k) == v
      ensures forall other :: other != k ==> Get(other) == old(Get(other))
    {
      cache := cache[k := v];
    }

    /** `Ctx.Get`: the value stored under `k`, or `""` when nothing was stored. */
    function Get(k: string): (v: string)
      reads this
      ensures k in cache ==> v == cache[k]
      ensures k !in cache ==> v == ""
    {
      Lookup(cache, k)
    }
  }
}
