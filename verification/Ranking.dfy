/** rankCandidates: the full ranking for the broadcast, and the single best by the same loop. */
module Ranking {
  import opened Domain
  import opened Scoring

  datatype Candidate = Candidate(driver: Driver, distanceKm: real)

  datatype Scored = Scored(driver: Driver, score: real)

  /** The reputation counters and the ratings of the drivers who have any. */
  type Profiles = map<Driver, Counters>
  type Ratings = map<Driver, Option<real>>

  ghost predicate Descending(s: seq<Scored>) {
    forall i, j | 0 <= i < j < |s| :: s[i].score >= s[j].score
  }

  /** The entries with one score, in their order. */
  function WithScore(s: seq<Scored>, v: real): (r: seq<Scored>) {
    if s == [] then []
    else if s[0].score == v then [s[0]] + WithScore(s[1..], v)
    else WithScore(s[1..], v)
  }

  /** `r` is `s` rearranged so that scores fall and equals keep their order: what a stable sort returns. */
  ghost predicate StablyRanks(s: seq<Scored>, r: seq<Scored>) {
    Descending(r) && forall v :: WithScore(r, v) == WithScore(s, v)
  }

  /** Put `x` after every entry that scores at least as much. */
  function Insert(x: Scored, s: seq<Scored>): (r: seq<Scored>) {
    if s != [] && s[0].score >= x.score then [s[0]] + Insert(x, s[1..]) else [x] + s
  }

  /** `scored.sort((a, b) => b.score - a.score)`; the language guarantees a stable sort. */
  function SortDesc(s: seq<Scored>): (r: seq<Scored>)
    decreases |s|
  {
    if s == [] then [] else Insert(s[|s| - 1], SortDesc(s[..|s| - 1]))
  }

  lemma {:induction false} WithScoreConcat(a: seq<Scored>, b: seq<Scored>, v: real)
    ensures WithScore(a + b, v) == WithScore(a, v) + WithScore(b, v)
  {
    if a == [] {
      assert a + b == b;
    } else {
      assert (a + b)[1..] == a[1..] + b;
      WithScoreConcat(a[1..], b, v);
    }
  }

  lemma {:induction false} InsertDescends(x: Scored, s: seq<Scored>)
    requires Descending(s)
    ensures Descending(Insert(x, s))
    ensures |Insert(x, s)| == |s| + 1
    ensures forall y | y in Insert(x, s) :: y == x || y in s
  {
    if s != [] && s[0].score >= x.score {
      InsertDescends(x, s[1..]);
      var t := Insert(x, s[1..]);
      forall i | 0 <= i < |t| ensures t[i].score <= s[0].score {
        assert t[i] in t;
      }
      assert Insert(x, s) == [s[0]] + t;
    }
  }

  lemma {:induction false} InsertKeepsScores(x: Scored, s: seq<Scored>, v: real)
    requires Descending(s)
    ensures WithScore(Insert(x, s), v) == WithScore(s, v) + WithScore([x], v)
  {
    if s != [] && s[0].score >= x.score {
      InsertKeepsScores(x, s[1..], v);
      assert Insert(x, s)[1..] == Insert(x, s[1..]);
    } else {
      WithScoreConcat([x], s, v);
      if x.score == v { NoneScores(s, v); }
    }
  }

  lemma {:induction false} NoneScores(s: seq<Scored>, v: real)
    requires forall i | 0 <= i < |s| :: s[i].score < v
    ensures WithScore(s, v) == []
  {
    if s != [] {
      NoneScores(s[1..], v);
    }
  }

  lemma {:induction false} SortRanks(s: seq<Scored>)
    ensures StablyRanks(s, SortDesc(s))
    ensures |SortDesc(s)| == |s|
    decreases |s|
  {
    if s != [] {
      var n := |s| - 1;
      SortRanks(s[..n]);
      InsertDescends(s[n], SortDesc(s[..n]));
      assert s == s[..n] + [s[n]];
      forall v ensures WithScore(SortDesc(s), v) == WithScore(s, v) {
        InsertKeepsScores(s[n], SortDesc(s[..n]), v);
        WithScoreConcat(s[..n], [s[n]], v);
      }
    }
  }

  lemma {:induction false} ScoreOccurs(s: seq<Scored>, i: nat)
    requires i < |s|
    ensures WithScore(s, s[i].score) != []
    decreases i
  {
    if i > 0 {
      ScoreOccurs(s[1..], i - 1);
    }
  }

  lemma {:induction false} WithScoreIsFrom(s: seq<Scored>, v: real)
    ensures forall x | x in WithScore(s, v) :: x in s && x.score == v
  {
    if s != [] {
      WithScoreIsFrom(s[1..], v);
    }
  }

  /** A stable falling order of a list is unique, so StablyRanks pins the ranking down completely. */
  lemma {:induction false} RankingIsUnique(s: seq<Scored>, a: seq<Scored>, b: seq<Scored>)
    requires StablyRanks(s, a) && StablyRanks(s, b)
    ensures a == b
    decreases |a|
  {
    assert forall v :: WithScore(a, v) == WithScore(b, v);
    if a == [] {
      if b != [] { ScoreOccurs(b, 0); }
    } else {
      ScoreOccurs(a, 0);
      WithScoreIsFrom(b, a[0].score);
      var x := WithScore(b, a[0].score)[0];
      assert x in b && x.score == a[0].score;
      assert b[0].score >= a[0].score;
      ScoreOccurs(b, 0);
      WithScoreIsFrom(a, b[0].score);
      var y := WithScore(a, b[0].score)[0];
      assert y in a && a[0].score >= b[0].score;
      assert WithScore(a, a[0].score)[0] == a[0] && WithScore(b, a[0].score)[0] == b[0];
      forall v ensures WithScore(a[1..], v) == WithScore(b[1..], v) {
        assert WithScore(a, v) == WithScore(b, v);
        if a[0].score == v {
          assert WithScore(a, v) == [a[0]] + WithScore(a[1..], v);
          assert WithScore(b, v) == [b[0]] + WithScore(b[1..], v);
          assert WithScore(a[1..], v) == WithScore(a, v)[1..];
        }
      }
      RankingIsUnique(a[1..], a[1..], b[1..]);
    }
  }

  /** The single-best loop: a later candidate must score strictly more to replace an earlier one. */
  function Best(s: seq<Scored>): (r: Option<Scored>)
    decreases |s|
  {
    if s == [] then None
    else
      var before := Best(s[..|s| - 1]);
      if before.None? || s[|s| - 1].score > before.value.score then Some(s[|s| - 1]) else before
  }

  /** The head of the full ranking is what the single-best loop returns, ties going to the earliest. */
  lemma {:induction false} BestLeads(s: seq<Scored>)
    requires s != []
    ensures SortDesc(s) != [] && Best(s) == Some(SortDesc(s)[0])
    decreases |s|
  {
    var n := |s| - 1;
    SortRanks(s[..n]);
    if n > 0 {
      BestLeads(s[..n]);
    } else {
      assert SortDesc(s[..0]) == [];
    }
  }

  /** Every candidate appears in the ranking, and nobody else. */
  lemma {:induction false} RankingMembers(s: seq<Scored>, r: seq<Scored>)
    requires StablyRanks(s, r)
    ensures forall x :: x in s <==> x in r
  {
    forall x ensures x in s <==> x in r {
      Occurs(s, x);
      Occurs(r, x);
    }
  }

  lemma {:induction false} Occurs(s: seq<Scored>, x: Scored)
    ensures x in s <==> x in WithScore(s, x.score)
  {
    if s != [] {
      Occurs(s[1..], x);
      assert x in s <==> x == s[0] || x in s[1..];
    }
  }

  // ---- rankCandidates ----

  function ScoreOf(c: Candidate, profiles: Profiles, ratings: Ratings, now: Time): (r: real) {
    var rates := if c.driver in profiles then RatesFromCounters(profiles[c.driver]) else (None, None);
    var last := if c.driver in profiles then profiles[c.driver].lastCompletedAt else None;
    var rating := if c.driver in ratings then ratings[c.driver] else None;
    ScoreDriver(c.distanceKm, Reputation(rates.0, rates.1, rating, IdleMinutesSince(last, now)))
  }

  function ScoreAll(
    cs: seq<Candidate>, profiles: Profiles, ratings: Ratings, now: Time): (r: seq<Scored>)
  {
    seq(|cs|, i requires 0 <= i < |cs| => Scored(cs[i].driver, ScoreOf(cs[i], profiles, ratings, now)))
  }

  function Ids(s: seq<Scored>): (r: seq<Driver>) {
    seq(|s|, i requires 0 <= i < |s| => s[i].driver)
  }

  // ---- What reputation cannot buy in a list ----

  predicate Unknown(d: Driver, profiles: Profiles, ratings: Ratings) {
    d !in profiles && (d in ratings ==> ratings[d].None?)
  }

  /** `far` is so much farther than `near` that no reputation makes up for it: 15/7 km, or 1 km against a newcomer. */
  predicate Outdistanced(
    far: Candidate, near: Candidate, profiles: Profiles, ratings: Ratings)
  {
    || Capped(far.distanceKm) - Capped(near.distanceKm) > 15.0 / 7.0
    || (Unknown(near.driver, profiles, ratings) && Capped(far.distanceKm) - Capped(near.distanceKm) > 1.0)
  }

  /** In the list of ids, nobody stands before a candidate who outdistances them, or without that candidate. */
  ghost predicate CloserFirst(
    cs: seq<Candidate>, profiles: Profiles, ratings: Ratings, ids: seq<Driver>)
  {
    forall far, near, i | far in cs && near in cs && Outdistanced(far, near, profiles, ratings)
                          && 0 <= i < |ids| && ids[i] == far.driver ::
      near.driver in ids[..i]
  }

  ghost predicate OneEach(cs: seq<Candidate>) {
    forall i, j | 0 <= i < j < |cs| :: cs[i].driver != cs[j].driver
  }

  lemma OutdistancedScoresLower(
    far: Candidate, near: Candidate, profiles: Profiles, ratings: Ratings, now: Time)
    requires Outdistanced(far, near, profiles, ratings)
    ensures ScoreOf(far, profiles, ratings, now) < ScoreOf(near, profiles, ratings, now)
  {
    DistanceDominates(far.distanceKm, near.distanceKm);
    NewcomerMargin(far.distanceKm, near.distanceKm);
  }

  lemma ScoredCandidate(
    cs: seq<Candidate>, profiles: Profiles, ratings: Ratings, now: Time, c: Candidate)
    requires c in cs
    ensures Scored(c.driver, ScoreOf(c, profiles, ratings, now)) in ScoreAll(cs, profiles, ratings, now)
  {
    var i :| 0 <= i < |cs| && cs[i] == c;
    assert ScoreAll(cs, profiles, ratings, now)[i] == Scored(c.driver, ScoreOf(c, profiles, ratings, now));
  }

  /** The margins of the score carry over to every ranking of a list. */
  lemma RankingKeepsCloserFirst(
    cs: seq<Candidate>, profiles: Profiles, ratings: Ratings, now: Time, r: seq<Scored>)
    requires OneEach(cs) && StablyRanks(ScoreAll(cs, profiles, ratings, now), r)
    ensures CloserFirst(cs, profiles, ratings, Ids(r))
  {
    var scored := ScoreAll(cs, profiles, ratings, now);
    RankingMembers(scored, r);
    forall far, near, i | far in cs && near in cs && Outdistanced(far, near, profiles, ratings)
                          && 0 <= i < |Ids(r)| && Ids(r)[i] == far.driver
      ensures near.driver in Ids(r)[..i]
    {
      OutdistancedScoresLower(far, near, profiles, ratings, now);
      ScoredCandidate(cs, profiles, ratings, now, near);
      var k :| 0 <= k < |r| && r[k] == Scored(near.driver, ScoreOf(near, profiles, ratings, now));
      assert r[i] in scored;
      var m :| 0 <= m < |scored| && scored[m] == r[i];
      assert cs[m] == far;
      assert k < i;
      assert Ids(r)[..i][k] == near.driver;
    }
  }

  // ---- What reputation decides in a list ----

  /** A candidate with the higher score stands before one with the lower, in every ranking. */
  lemma HigherScoreFirst(
    cs: seq<Candidate>, profiles: Profiles, ratings: Ratings, now: Time, r: seq<Scored>,
    first: Candidate, second: Candidate)
    requires OneEach(cs) && StablyRanks(ScoreAll(cs, profiles, ratings, now), r) && first in cs && second in cs
    requires ScoreOf(first, profiles, ratings, now) > ScoreOf(second, profiles, ratings, now)
    ensures forall i | 0 <= i < |r| && r[i].driver == second.driver :: first.driver in Ids(r)[..i]
  {
    var scored := ScoreAll(cs, profiles, ratings, now);
    RankingMembers(scored, r);
    ScoredCandidate(cs, profiles, ratings, now, first);
    var k :| 0 <= k < |r| && r[k] == Scored(first.driver, ScoreOf(first, profiles, ratings, now));
    forall i | 0 <= i < |r| && r[i].driver == second.driver ensures first.driver in Ids(r)[..i] {
      assert r[i] in scored;
      var m :| 0 <= m < |scored| && scored[m] == r[i];
      assert cs[m] == second;
      assert k < i;
      assert Ids(r)[..i][k] == first.driver;
    }
  }

  /** Two candidates at one distance with one and the same record: the better rated first, the unrated as 4.55 stars. */
  lemma BetterRatedFirst(
    cs: seq<Candidate>, profiles: Profiles, ratings: Ratings, now: Time, r: seq<Scored>,
    first: Candidate, second: Candidate)
    requires OneEach(cs) && StablyRanks(ScoreAll(cs, profiles, ratings, now), r) && first in cs && second in cs
    requires first.distanceKm == second.distanceKm && SameRecord(first.driver, second.driver, profiles)
    requires 3.5 <= Stars(second.driver, ratings) < Stars(first.driver, ratings) <= 5.0
    ensures forall i | 0 <= i < |r| && r[i].driver == second.driver :: first.driver in Ids(r)[..i]
  {
    RatingDecides(profiles, ratings, now, first, second);
    HigherScoreFirst(cs, profiles, ratings, now, r, first, second);
  }

  function Stars(d: Driver, ratings: Ratings): (r: real) {
    if d in ratings && ratings[d].Some? then ratings[d].value else 4.55
  }

  predicate SameRecord(d: Driver, e: Driver, profiles: Profiles) {
    (d in profiles <==> e in profiles) && (d in profiles && e in profiles ==> profiles[d] == profiles[e])
  }

  lemma RatingDecides(profiles: Profiles, ratings: Ratings, now: Time, first: Candidate, second: Candidate)
    requires first.distanceKm == second.distanceKm && SameRecord(first.driver, second.driver, profiles)
    requires 3.5 <= Stars(second.driver, ratings) < Stars(first.driver, ratings) <= 5.0
    ensures ScoreOf(first, profiles, ratings, now) > ScoreOf(second, profiles, ratings, now)
  {
    StarsCount(first, profiles, ratings, now);
    StarsCount(second, profiles, ratings, now);
    var more, fewer := Stars(first.driver, ratings), Stars(second.driver, ratings);
    EachSignal(first.distanceKm, RecordOf(first.driver, profiles, now), more, fewer);
  }

  /** The record of a driver, without the rating. */
  function RecordOf(d: Driver, profiles: Profiles, now: Time): (r: Reputation) {
    if d in profiles then
      var c := profiles[d];
      Reputation(RatesFromCounters(c).0, RatesFromCounters(c).1, None, IdleMinutesSince(c.lastCompletedAt, now))
    else NO_HISTORY
  }

  lemma StarsCount(c: Candidate, profiles: Profiles, ratings: Ratings, now: Time)
    ensures ScoreOf(c, profiles, ratings, now)
         == ScoreDriver(c.distanceKm, RecordOf(c.driver, profiles, now).(rating := Some(Stars(c.driver, ratings))))
  {
    EachUnknown(c.distanceKm, RecordOf(c.driver, profiles, now));
  }

  /** Two candidates at one distance with one rating: the one whose counters stand higher first. */
  lemma BetterRecordFirst(
    cs: seq<Candidate>, profiles: Profiles, ratings: Ratings, now: Time, r: seq<Scored>,
    first: Candidate, second: Candidate)
    requires OneEach(cs) && StablyRanks(ScoreAll(cs, profiles, ratings, now), r) && first in cs && second in cs
    requires first.distanceKm == second.distanceKm && Stars(first.driver, ratings) == Stars(second.driver, ratings)
    requires first.driver in profiles && second.driver in profiles
    requires StandingOf(profiles[second.driver], None, now) < StandingOf(profiles[first.driver], None, now)
    ensures forall i | 0 <= i < |r| && r[i].driver == second.driver :: first.driver in Ids(r)[..i]
  {
    RecordDecides(profiles, ratings, now, first, second);
    HigherScoreFirst(cs, profiles, ratings, now, r, first, second);
  }

  lemma RecordDecides(profiles: Profiles, ratings: Ratings, now: Time, first: Candidate, second: Candidate)
    requires first.distanceKm == second.distanceKm && Stars(first.driver, ratings) == Stars(second.driver, ratings)
    requires first.driver in profiles && second.driver in profiles
    requires StandingOf(profiles[second.driver], None, now) < StandingOf(profiles[first.driver], None, now)
    ensures ScoreOf(first, profiles, ratings, now) > ScoreOf(second, profiles, ratings, now)
  {
    StarsCount(first, profiles, ratings, now);
    StarsCount(second, profiles, ratings, now);
    var better, worse := RecordOf(first.driver, profiles, now), RecordOf(second.driver, profiles, now);
    RatingApart(better, worse, Stars(first.driver, ratings));
  }

  lemma RatingApart(r: Reputation, s: Reputation, stars: real)
    requires r.rating.None? && s.rating.None?
    ensures Standing(r.(rating := Some(stars))) - Standing(s.(rating := Some(stars))) == Standing(r) - Standing(s)
  {
  }

  // ---- The method ----

  /** The shortlist scored and sorted, as the loop and the sort do it; `best` is what the loop alone would return. */
  method RankCandidates(
    candidates: seq<Candidate>, profiles: Profiles, ratings: Ratings, now: Time)
    returns (ranked: seq<Driver>, best: Option<Driver>)
    ensures var scored := ScoreAll(candidates, profiles, ratings, now);
            exists r :: StablyRanks(scored, r) && ranked == Ids(r)
    ensures |ranked| == |candidates|
    ensures OneEach(candidates) ==> CloserFirst(candidates, profiles, ratings, ranked)
    ensures candidates == [] ==> best.None?
    ensures candidates != [] ==> best == Some(ranked[0])
  {
    ghost var all := ScoreAll(candidates, profiles, ratings, now);
    if |candidates| == 0 {
      assert StablyRanks(all, []);
      return [], None;
    }
    if |candidates| == 1 {
      SortRanks(all);
      assert SortDesc(all) == Insert(all[0], SortDesc(all[..0])) == all;
      if OneEach(candidates) { RankingKeepsCloserFirst(candidates, profiles, ratings, now, all); }
      assert Ids(all) == [candidates[0].driver];
      return [candidates[0].driver], Some(candidates[0].driver);
    }
    var scored: seq<Scored> := [];
    var bestId: Option<Driver>, bestScore := None, 0.0;
    for i := 0 to |candidates|
      invariant scored == all[..i]
      invariant if i == 0 then bestId.None? else bestId.Some? && Best(scored) == Some(Scored(bestId.value, bestScore))
    {
      var score := ScoreOf(candidates[i], profiles, ratings, now);
      var next := scored + [Scored(candidates[i].driver, score)];
      assert next[..i] == scored;
      scored := next;
      if bestId.None? || score > bestScore {
        bestScore, bestId := score, Some(candidates[i].driver);
      }
    }
    assert scored == all;
    SortRanks(scored);
    BestLeads(scored);
    best := bestId;
    ranked := Ids(SortDesc(scored));
    if OneEach(candidates) { RankingKeepsCloserFirst(candidates, profiles, ratings, now, SortDesc(scored)); }
  }
}
