/** The per-job set of drivers who were already shown the job, kept in Redis with a time to live. */
module Exclusion {
  import opened Domain

  /** What one Redis set key holds: its members, and when the key expires. */
  datatype ExclusionSet = ExclusionSet(members: set<Driver>, expireAt: Time) {
    /** What SMEMBERS answers at `now`: an expired key reads as empty. */
    function Live(now: Time): (r: set<Driver>) {
      if now < expireAt then members else {}
    }

    /** SADD followed by EXPIRE, which restarts the hour for the whole set. */
    function Add(now: Time, driver: Driver): (r: ExclusionSet) {
      ExclusionSet(Live(now) + {driver}, now + EXCLUDED_TTL_MS)
    }

    function AddAll(now: Time, drivers: seq<Driver>): (r: ExclusionSet)
      decreases |drivers|
    {
      if drivers == [] then this
      else AddAll(now, drivers[..|drivers| - 1]).Add(now, drivers[|drivers| - 1])
    }
  }

  const NO_EXCLUSIONS := ExclusionSet({}, 0)

  /** Adding drivers one at a time is one addition of them all, good for a full hour. */
  lemma {:induction false} AddAllMembers(x: ExclusionSet, now: Time, drivers: seq<Driver>)
    requires drivers != []
    ensures x.AddAll(now, drivers) == ExclusionSet(x.Live(now) + SetOf(drivers), now + 3_600_000)
    decreases |drivers|
  {
    var n := |drivers| - 1;
    assert drivers == drivers[..n] + [drivers[n]];
    if n > 0 {
      AddAllMembers(x, now, drivers[..n]);
    }
  }

  datatype Scope = TripScope | DeliveryScope | FoodOrderScope | ErrandScope

  type Key = (Scope, nat)

  class ExcludedDriversStore {
    var members: map<Key, set<Driver>>
    var expireAt: map<Key, Time>

    ghost predicate Valid()
      reads this
    {
      members.Keys == expireAt.Keys
    }

    constructor ()
      ensures Valid() && members.Keys == {}
    {
      members, expireAt := map[], map[];
    }

    function Of(scope: Scope, id: nat): (r: ExclusionSet)
      reads this
      requires Valid()
    {
      if (scope, id) in members
      then ExclusionSet(members[(scope, id)], expireAt[(scope, id)])
      else NO_EXCLUSIONS
    }

    method Add(scope: Scope, id: nat, driver: Driver, now: Time)
      requires Valid()
      modifies this
      ensures Valid()
      ensures Of(scope, id) == old(Of(scope, id)).Add(now, driver)
      ensures forall s: Scope, i: nat | (s, i) != (scope, id) :: Of(s, i) == old(Of(s, i))
    {
      var key := (scope, id);
      // SADD: an expired key is gone, so the set starts again from nothing.
      var present := if key in members && now < expireAt[key] then members[key] else {};
      members := members[key := present + {driver}];
      // EXPIRE: refreshed on every add.
      expireAt := expireAt[key := now + EXCLUDED_TTL_MS];
    }

    method GetAll(scope: Scope, id: nat, now: Time) returns (drivers: set<Driver>)
      requires Valid()
      ensures drivers == Of(scope, id).Live(now)
    {
      var key := (scope, id);
      drivers := if key in members && now < expireAt[key] then members[key] else {};
    }

    method Clear(scope: Scope, id: nat)
      requires Valid()
      modifies this
      ensures Valid()
      ensures Of(scope, id) == NO_EXCLUSIONS
      ensures forall s: Scope, i: nat | (s, i) != (scope, id) :: Of(s, i) == old(Of(s, i))
    {
      members := members - {(scope, id)};
      expireAt := expireAt - {(scope, id)};
    }
  }
}
