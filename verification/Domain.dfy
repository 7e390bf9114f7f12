/** Types and constants shared by every part of the dispatch and settlement kernel. */
module Domain {

  datatype Option<+T> = None | Some(value: T)

  /** User ids are opaque; only equality matters. */
  type Driver = nat

  /** The two driver queues. */
  datatype Mode = RIDE | FOOD_ERRAND

  /** The queue a driver is in; RIDE until they choose. */
  function ModeIn(modes: map<Driver, Mode>, d: Driver): (m: Mode) {
    if d in modes then modes[d] else RIDE
  }

  /** Milliseconds. */
  type Time = nat

  const OFFER_TIMEOUT_MS: nat := 15_000
  const EXCLUDED_TTL_MS: nat := 60 * 60 * 1000

  /** The ascending radii of the widening search, in kilometres. */
  const SEARCH_RADII_KM: seq<real> := [1.0, 3.0, 5.0, 8.0]

  function SetOf<T>(s: seq<T>): (r: set<T>) {
    set x | x in s
  }

  /** `s.slice(0, n)` */
  function AtMost<T>(s: seq<T>, n: nat): (r: seq<T>) {
    if |s| <= n then s else s[..n]
  }

  ghost predicate Distinct<T>(s: seq<T>) {
    forall i, j | 0 <= i < j < |s| :: s[i] != s[j]
  }

  /** A sequence without repetition drawn from a finite set is no longer than the set. */
  lemma {:induction false} DistinctFits<T>(s: seq<T>, universe: set<T>)
    requires Distinct(s) && SetOf(s) <= universe
    ensures |s| <= |universe|
  {
    if s != [] {
      var n := |s| - 1;
      var last := s[n];
      assert forall i | 0 <= i < n :: s[i] in SetOf(s);
      assert last in SetOf(s);
      DistinctFits(s[..n], universe - {last});
    }
  }
}
