/**
 * Candidate ranking for `getPotentialMatches`: the aggregation pipeline's
 * hard filters, the shared-interest score, the sort on (score descending,
 * distance ascending) and the limit of 20, over the profiles the geo stage
 * returns with their distance from the seeker in metres.
 */
module Ranking {
  import opened Wrappers
  import opened Seqs

  /** The stored preferences; an absent field reads as its schema default. */
  datatype Preferences = Preferences(
    ageMin: Option<int>,
    ageMax: Option<int>,
    distanceKm: Option<real>,
    genderPreference: Option<string>)
  {
    function AgeMin(): int { if ageMin.Some? then ageMin.value else 18 }
    function AgeMax(): int { if ageMax.Some? then ageMax.value else 99 }
    function DistanceKm(): real { if distanceKm.Some? then distanceKm.value else 50.0 }
  }

  /** A profile document; `age` and `gender` may be missing from it. */
  datatype Profile = Profile(
    user: UserId,
    age: Option<int>,
    gender: Option<string>,
    bio: string,
    photos: seq<string>,
    interests: seq<string>,
    preferences: Preferences)

  /** A document the geo stage returns, with its distance from the seeker in metres. */
  datatype Nearby = Nearby(profile: Profile, distance: real)

  /** A document after the score stage. */
  datatype Ranked = Ranked(profile: Profile, distance: real, commonInterests: nat)

  datatype RankError = ProfileNotFound
  {
    function HttpStatus(): int { 404 }
    function Message(): string { "User profile not found" }
  }

  const ResultLimit: nat := 20
  const AllGenders: set<string> := {"male", "female", "other"}

  /** The geo stage's cut-off: the preferred distance converted from kilometres to metres. */
  function MaxDistance(p: Preferences): real
  {
    p.DistanceKm() * 1000.0
  }

  /**
   * The gender stage: `'all'` accepts the three enumerated genders, any other
   * preference requires that gender. An unset preference is sent as null and
   * so only accepts a profile without a gender.
   */
  predicate GenderAccepted(pref: Option<string>, gender: Option<string>)
  {
    if pref == Some("all") then gender.Some? && gender.value in AllGenders
    else gender == pref
  }

  /** The hard filters of the geo and match stages. */
  predicate Eligible(seeker: Profile, c: Nearby)
  {
    && c.distance <= MaxDistance(seeker.preferences)
    && c.profile.user != seeker.user
    && c.profile.age.Some?
    && seeker.preferences.AgeMin() <= c.profile.age.value <= seeker.preferences.AgeMax()
    && GenderAccepted(seeker.preferences.genderPreference, c.profile.gender)
  }

  function EligibleFor(seeker: Profile): Nearby -> bool
  {
    c => Eligible(seeker, c)
  }

  function SetOf(s: seq<string>): set<string>
  {
    set x | x in s
  }

  /** `$size` of `$setIntersection`: the number of distinct interests both lists hold. */
  function CommonInterests(theirs: seq<string>, mine: seq<string>): (n: nat)
    ensures n <= |SetOf(theirs)| && n <= |SetOf(mine)|
    ensures n == |SetOf(theirs) * SetOf(mine)|
  {
    var both := SetOf(theirs) * SetOf(mine);
    assert both <= SetOf(theirs) && both <= SetOf(mine);
    SubsetCard(both, SetOf(theirs));
    SubsetCard(both, SetOf(mine));
    |both|
  }

  lemma {:induction false} SubsetCard(a: set<string>, b: set<string>)
    requires a <= b
    ensures |a| <= |b|
  {
    if a != {} {
      var x :| x in a;
      SubsetCard(a - {x}, b - {x});
    }
  }

  function Score(seeker: Profile, c: Nearby): Ranked
  {
    Ranked(c.profile, c.distance, CommonInterests(c.profile.interests, seeker.interests))
  }

  /** The sort stage's order: more shared interests first, then the nearer one. */
  predicate RanksBefore(x: Ranked, y: Ranked)
  {
    x.commonInterests > y.commonInterests
    || (x.commonInterests == y.commonInterests && x.distance <= y.distance)
  }

  /** The filtered and scored documents, in the order the geo stage returned them. */
  function Candidates(seeker: Profile, near: seq<Nearby>): (r: seq<Ranked>)
    ensures |r| <= |near|
  {
    var kept := Filter(near, EligibleFor(seeker));
    seq(|kept|, i requires 0 <= i < |kept| => Score(seeker, kept[i]))
  }

  /** Every scored document comes from a document of the geo stage that passed the hard filters. */
  lemma CandidatesSound(seeker: Profile, near: seq<Nearby>, x: Ranked)
    requires x in Candidates(seeker, near)
    ensures exists c :: c in near && Eligible(seeker, c) && x == Score(seeker, c)
  {
    var kept := Filter(near, EligibleFor(seeker));
    var r := Candidates(seeker, near);
    var i :| 0 <= i < |r| && r[i] == x;
    FilterMembers(near, EligibleFor(seeker));
    assert kept[i] in kept;
    assert kept[i] in near && Eligible(seeker, kept[i]);
  }

  /** Every document of the geo stage that passes the hard filters is scored. */
  lemma CandidatesComplete(seeker: Profile, near: seq<Nearby>, c: Nearby)
    requires c in near && Eligible(seeker, c)
    ensures Score(seeker, c) in Candidates(seeker, near)
  {
    var kept := Filter(near, EligibleFor(seeker));
    FilterMembers(near, EligibleFor(seeker));
    assert c in kept;
    var i :| 0 <= i < |kept| && kept[i] == c;
    assert Candidates(seeker, near)[i] == Score(seeker, c);
  }

  /** The sort and limit stages. */
  function Rank(seeker: Profile, near: seq<Nearby>): seq<Ranked>
  {
    var sorted := SortBy(Candidates(seeker, near), RanksBefore);
    sorted[..if |sorted| < ResultLimit then |sorted| else ResultLimit]
  }

  /** `getPotentialMatches` for the user `me`, over all profiles and what the geo stage returns. */
  function PotentialMatches(profiles: seq<Profile>, me: UserId, near: seq<Nearby>): (r: Result<seq<Ranked>, RankError>)
    ensures r.Err? <==> forall p :: p in profiles ==> p.user != me
    ensures r.Ok? ==> exists seeker :: seeker in profiles && seeker.user == me && r.value == Rank(seeker, near)
  {
    match First(profiles, (p: Profile) => p.user == me)
    case None => Err(ProfileNotFound)
    case Some(seeker) => Ok(Rank(seeker, near))
  }

  // ---------------------------------------------------------------------
  // Properties of the ranking
  // ---------------------------------------------------------------------

  lemma RanksBeforeIsTotalPreorder()
    ensures TotalPreorder(RanksBefore)
  {
  }

  lemma RankIsPrefixOfSorted(seeker: Profile, near: seq<Nearby>)
    ensures var sorted := SortBy(Candidates(seeker, near), RanksBefore);
      |Rank(seeker, near)| <= |sorted| && Rank(seeker, near) == sorted[..|Rank(seeker, near)|]
  {
  }

  /**
   * Every returned document passed the hard filters: within the distance
   * cut-off, not the seeker, age inside the preferred range, gender as the
   * preference asks; and its score is its shared-interest count.
   */
  lemma RankedAreEligible(seeker: Profile, near: seq<Nearby>, x: Ranked)
    requires x in Rank(seeker, near)
    ensures exists c :: c in near && x == Score(seeker, c)
    ensures x.distance <= seeker.preferences.DistanceKm() * 1000.0
    ensures x.profile.user != seeker.user
    ensures x.profile.age.Some?
    ensures seeker.preferences.AgeMin() <= x.profile.age.value <= seeker.preferences.AgeMax()
    ensures seeker.preferences.genderPreference == Some("all") ==>
      x.profile.gender.Some? && x.profile.gender.value in {"male", "female", "other"}
    ensures seeker.preferences.genderPreference != Some("all") ==>
      x.profile.gender == seeker.preferences.genderPreference
    ensures x.commonInterests == |SetOf(x.profile.interests) * SetOf(seeker.interests)|
  {
    RankInCandidates(seeker, near, x);
    CandidatesSound(seeker, near, x);
    var c :| c in near && Eligible(seeker, c) && x == Score(seeker, c);
    assert x.commonInterests == CommonInterests(c.profile.interests, seeker.interests);
  }

  lemma RankInCandidates(seeker: Profile, near: seq<Nearby>, x: Ranked)
    requires x in Rank(seeker, near)
    ensures x in Candidates(seeker, near)
  {
    var cands := Candidates(seeker, near);
    var sorted := SortBy(cands, RanksBefore);
    RankIsPrefixOfSorted(seeker, near);
    assert x in sorted;
    assert x in multiset(sorted);
    assert x in multiset(cands);
  }

  /** The output is ordered by shared interests descending, ties by distance ascending. */
  lemma RankSorted(seeker: Profile, near: seq<Nearby>)
    ensures SortedBy(Rank(seeker, near), RanksBefore)
    ensures forall i, j :: 0 <= i < j < |Rank(seeker, near)| ==>
      var (x, y) := (Rank(seeker, near)[i], Rank(seeker, near)[j]);
      x.commonInterests >= y.commonInterests
      && (x.commonInterests == y.commonInterests ==> x.distance <= y.distance)
  {
    RanksBeforeIsTotalPreorder();
    var sorted := SortBy(Candidates(seeker, near), RanksBefore);
    SortBySorted(Candidates(seeker, near), RanksBefore);
    RankIsPrefixOfSorted(seeker, near);
    var r := Rank(seeker, near);
    forall i, j | 0 <= i < j < |r| ensures RanksBefore(r[i], r[j]) {
      assert r[i] == sorted[i] && r[j] == sorted[j];
    }
  }

  /**
   * At most 20 documents, each drawn from the filtered ones and none more
   * often than it occurs there; the full filtered set when it has at most 20.
   */
  lemma RankBounded(seeker: Profile, near: seq<Nearby>)
    ensures |Rank(seeker, near)| <= 20
    ensures multiset(Rank(seeker, near)) <= multiset(Candidates(seeker, near))
    ensures |Candidates(seeker, near)| <= 20 ==> multiset(Rank(seeker, near)) == multiset(Candidates(seeker, near))
    ensures |Candidates(seeker, near)| >= 20 ==> |Rank(seeker, near)| == 20
  {
    var cands := Candidates(seeker, near);
    var sorted := SortBy(cands, RanksBefore);
    var r := Rank(seeker, near);
    assert sorted == r + sorted[|r|..];
    assert multiset(cands) == multiset(sorted) == multiset(r) + multiset(sorted[|r|..]);
    if |cands| <= 20 {
      assert r == sorted;
    }
  }

  /** A filtered document that is left out ranks no better than any returned one. */
  lemma LeftOutRankNoBetter(seeker: Profile, near: seq<Nearby>, x: Ranked)
    requires x in multiset(Candidates(seeker, near)) - multiset(Rank(seeker, near))
    ensures forall y :: y in Rank(seeker, near) ==> RanksBefore(y, x)
  {
    var sorted := SortBy(Candidates(seeker, near), RanksBefore);
    RanksBeforeIsTotalPreorder();
    SortBySorted(Candidates(seeker, near), RanksBefore);
    PrefixComesFirst(sorted, |Rank(seeker, near)|, x, RanksBefore);
  }

  /** A user without a profile gets a 404 and no list. */
  lemma NoProfileNoList(profiles: seq<Profile>, me: UserId, near: seq<Nearby>)
    requires forall p :: p in profiles ==> p.user != me
    ensures PotentialMatches(profiles, me, near) == Err(ProfileNotFound)
    ensures PotentialMatches(profiles, me, near).error.HttpStatus() == 404
  {
  }

  /**
   * The worked example: a seeker into hiking and jazz, ages 25 to 35 within
   * 50 km, any gender. P3 is too old; P1 shares two interests and comes
   * before the nearer P2, which shares one.
   */
  const ExampleSeeker := Profile("S", Some(28), Some("male"), "", [], ["hiking", "jazz"],
                                 Preferences(Some(25), Some(35), Some(50.0), Some("all")))
  const ExampleP1 := Profile("P1", Some(30), Some("female"), "", [], ["hiking", "jazz", "cooking"],
                             Preferences(None, None, None, None))
  const ExampleP2 := Profile("P2", Some(30), Some("female"), "", [], ["jazz"], Preferences(None, None, None, None))
  const ExampleP3 := Profile("P3", Some(40), Some("female"), "", [], ["hiking", "jazz"], Preferences(None, None, None, None))
  const ExampleNear := [Nearby(ExampleP3, 1000.0), Nearby(ExampleP2, 5000.0), Nearby(ExampleP1, 10000.0)]

  lemma ExampleScores()
    ensures CommonInterests(ExampleP1.interests, ExampleSeeker.interests) == 2
    ensures CommonInterests(ExampleP2.interests, ExampleSeeker.interests) == 1
  {
    assert SetOf(ExampleSeeker.interests) == {"hiking", "jazz"};
    assert SetOf(ExampleP1.interests) == {"hiking", "jazz", "cooking"};
    assert SetOf(ExampleP2.interests) == {"jazz"};
    assert SetOf(ExampleP1.interests) * SetOf(ExampleSeeker.interests) == {"hiking", "jazz"};
    assert SetOf(ExampleP2.interests) * SetOf(ExampleSeeker.interests) == {"jazz"};
  }

  lemma ExampleEligibility()
    ensures !Eligible(ExampleSeeker, ExampleNear[0])
    ensures Eligible(ExampleSeeker, ExampleNear[1]) && Eligible(ExampleSeeker, ExampleNear[2])
  {
  }

  lemma ExampleFilter()
    ensures Filter(ExampleNear, EligibleFor(ExampleSeeker)) == [ExampleNear[1], ExampleNear[2]]
  {
    var near := ExampleNear;
    var p := EligibleFor(ExampleSeeker);
    ExampleEligibility();
    assert near == [near[0]] + ([near[1]] + ([near[2]] + []));
    FilterCons(near[2], [], p);
    FilterCons(near[1], [near[2]], p);
    FilterCons(near[0], [near[1], near[2]], p);
  }

  lemma ExampleCandidates()
    ensures Candidates(ExampleSeeker, ExampleNear)
         == [Ranked(ExampleP2, 5000.0, 1), Ranked(ExampleP1, 10000.0, 2)]
  {
    ExampleScores();
    ExampleFilter();
  }

  lemma ExampleSort()
    ensures SortBy([Ranked(ExampleP2, 5000.0, 1), Ranked(ExampleP1, 10000.0, 2)], RanksBefore)
         == [Ranked(ExampleP1, 10000.0, 2), Ranked(ExampleP2, 5000.0, 1)]
  {
    var r1 := Ranked(ExampleP1, 10000.0, 2);
    var r2 := Ranked(ExampleP2, 5000.0, 1);
    assert [r2, r1][1..] == [r1];
    assert [r1][1..] == [];
    assert SortBy([r1], RanksBefore) == [r1];
    assert !RanksBefore(r2, r1);
    assert Insert(r2, [], RanksBefore) == [r2];
    assert [r1][1..] == [];
  }

  lemma WorkedExample()
    ensures Rank(ExampleSeeker, ExampleNear)
         == [Ranked(ExampleP1, 10000.0, 2), Ranked(ExampleP2, 5000.0, 1)]
  {
    ExampleCandidates();
    ExampleSort();
  }
}
