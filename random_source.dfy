/**
 * The global generator behind `np.random.randint`, made explicit. The
 * values it returns come from an oracle `draws`; any sequence of results
 * `randint` may give is produced by some oracle.
 */
module RandomSource {
  import opened Wrappers

  class RandomState {
    /** The oracle: the raw value behind the `k`-th successful draw. */
    const draws: nat -> nat
    /** How many successful draws have been taken so far. */
    var calls: nat

    constructor (draws: nat -> nat)
      ensures this.draws == draws && calls == 0
    {
      this.draws := draws;
      calls := 0;
    }

    /**
     * `np.random.randint(low, high)`: a value in the half-open range
     * `[low, high)`, or None where numpy raises `ValueError` because the
     * range is empty. A failed call consumes no draw.
     */
    method RandInt(low: int, high: int) returns (r: Option<int>)
      modifies this
      ensures r.Some? <==> low < high
      ensures r.Some? ==> low <= r.value < high
      ensures r.Some? ==> r.value == low + draws(old(calls)) % (high - low) && calls == old(calls) + 1
      ensures r.None? ==> calls == old(calls)
    {
      if low >= high {
        return None;
      }
      r := Some(low + draws(calls) % (high - low));
      calls := calls + 1;
    }
  }
}
