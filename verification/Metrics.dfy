/** The per-code failure counter. */
module Metrics {
  type Counts = map<string, nat>

  function CountOf(m: Counts, code: string): nat {
    if code in m then m[code] else 0
  }

  function Incremented(m: Counts, code: string): Counts {
    m[code := CountOf(m, code) + 1]
  }

  /** Total for one code over a list of tick snapshots. */
  function SumOf(snapshots: seq<Counts>, code: string): nat {
    if snapshots == [] then 0
    else SumOf(snapshots[..|snapshots| - 1], code) + CountOf(snapshots[|snapshots| - 1], code)
  }

  class ErrorRateCounter {
    var counts: Counts
    /** History: every increment, every snapshot handed out, every count thrown away by Reset. */
    ghost var increments: multiset<string>
    ghost var snapshots: seq<Counts>
    ghost var discarded: seq<Counts>

    ghost predicate Valid()
      reads this
    {
      forall c :: CountOf(counts, c) + SumOf(snapshots, c) + SumOf(discarded, c) == increments[c]
    }

    constructor ()
      ensures Valid() && counts == map[] && increments == multiset{} && snapshots == [] && discarded == []
    {
      counts, increments, snapshots, discarded := map[], multiset{}, [], [];
    }

    method Increment(code: string)
      requires Valid()
      modifies this
      ensures Valid() && counts == Incremented(old(counts), code)
      ensures increments == old(increments) + multiset{code}
      ensures snapshots == old(snapshots) && discarded == old(discarded)
    {
      counts := counts[code := (if code in counts then counts[code] else 0) + 1];
      increments := increments + multiset{code};
    }

    method Tick() returns (snapshot: Counts)
      requires Valid()
      modifies this
      ensures Valid() && snapshot == old(counts) && counts == map[]
      ensures increments == old(increments)
      ensures snapshots == old(snapshots) + [snapshot] && discarded == old(discarded)
    {
      snapshot := counts;
      counts := map[];
      snapshots := snapshots + [snapshot];
    }

    method Reset()
      requires Valid()
      modifies this
      ensures Valid() && counts == map[]
      ensures increments == old(increments)
      ensures snapshots == old(snapshots) && discarded == old(discarded) + [old(counts)]
    {
      discarded := discarded + [counts];
      counts := map[];
    }
  }
}
