/** The recommendation debugging route (`GET /api/debug-recommendations`): every catalog course
    the user has not viewed is scored against the subjects and levels of the viewed courses,
    the scores are ranked, and the top of the ranking is split by the subject of the most
    recently viewed course.

    `Math.random()` is not a function: the draws `Math.random() * 2` are an input, the i-th
    draw going to the i-th candidate in catalog order. */
module DebugRecommendations {
  import opened Basics
  import opened Seqs
  import opened Sorting
  import opened Catalog
  import opened ViewHistory

  const SubjectWeight: real := 200.0
  const LevelWeight: real := 50.0
  const PopularityWeight: real := 5.0
  const RandomnessWeight: real := 2.0

  /** Number of scored candidates the route keeps. */
  const ScoredLimit: int := 20
  const TopScoredLimit: int := 10
  const SplitLimit: int := 5
  const SubjectSummaryLimit: int := 12

  datatype Scored = Scored(course: Course, score: real)

  /** Every draw is a value of `Math.random() * 2`. */
  ghost predicate DrawsInRange(draws: seq<real>) {
    forall i :: 0 <= i < |draws| ==> 0.0 <= draws[i] < RandomnessWeight
  }

  /** `Math.min(subscribers / 10000, 5)` with `subscribers = parseInt(..) || 0`. */
  function Popularity(c: Course): (p: real)
    ensures p <= PopularityWeight
    ensures Subs(c) >= 0 ==> p >= 0.0
  {
    MinReal(Subs(c) as real / 10000.0, PopularityWeight)
  }

  /** The part of a candidate's score that does not depend on the random draw. */
  function BaseScore(c: Course, userSubjects: seq<string>, userLevels: seq<string>): real {
    (if c.subject in userSubjects then SubjectWeight else 0.0)
    + (if c.level in userLevels then LevelWeight else 0.0)
    + Popularity(c)
  }

  /** `records.filter(c => !viewedCourseIds.includes(c.course_id))`. */
  function Candidates(catalog: seq<Course>, viewedIds: seq<string>): (r: seq<Course>)
    ensures Subseq(r, catalog)
    ensures forall i :: 0 <= i < |r| ==> r[i] in catalog && r[i].id !in viewedIds
    ensures forall i :: 0 <= i < |catalog| && catalog[i].id !in viewedIds ==> catalog[i] in r
    ensures multiset(r) <= multiset(catalog)
  {
    FilterIsSubseq(catalog, (c: Course) => c.id !in viewedIds);
    Filter(catalog, (c: Course) => c.id !in viewedIds)
  }

  /** The `.map` step: each candidate paired with its score, in candidate order. */
  function ScoreAll(cands: seq<Course>, userSubjects: seq<string>, userLevels: seq<string>,
                    draws: seq<real>): (r: seq<Scored>)
    requires |draws| >= |cands|
    ensures |r| == |cands|
    ensures forall i :: 0 <= i < |r| ==> r[i].course == cands[i]
    ensures forall i :: 0 <= i < |r| ==>
              r[i].score == BaseScore(cands[i], userSubjects, userLevels) + draws[i]
    ensures DrawsInRange(draws) ==> forall i :: 0 <= i < |r| ==>
              BaseScore(cands[i], userSubjects, userLevels) <= r[i].score
                < BaseScore(cands[i], userSubjects, userLevels) + RandomnessWeight
    decreases |cands|
  {
    if cands == [] then []
    else
      [Scored(cands[0], BaseScore(cands[0], userSubjects, userLevels) + draws[0])]
      + ScoreAll(cands[1..], userSubjects, userLevels, draws[1..])
  }

  /** A score lies within the random bonus above its base score. */
  ghost predicate NearBase(x: Scored, userSubjects: seq<string>, userLevels: seq<string>) {
    BaseScore(x.course, userSubjects, userLevels) <= x.score < BaseScore(x.course, userSubjects, userLevels) + RandomnessWeight
  }

  /** The comparator `(a, b) => b.score - a.score`. */
  function HigherScore(a: Scored, b: Scored): bool {
    a.score >= b.score
  }

  lemma HigherScoreIsPreorder()
    ensures TotalPreorder(HigherScore)
  {
  }

  /** `scoredCourses`: the candidates scored, sorted by non-increasing score and cut to 20. */
  function ScoredCourses(catalog: seq<Course>, viewedIds: seq<string>, draws: seq<real>): (r: seq<Scored>)
    requires |draws| >= |catalog|
    ensures |r| == Min(ScoredLimit, |Candidates(catalog, viewedIds)|)
    ensures forall i :: 0 <= i < |r| ==> r[i].course in catalog && r[i].course.id !in viewedIds
    ensures forall i, j :: 0 <= i < j < |r| ==> r[i].score >= r[j].score
    ensures DrawsInRange(draws) ==> forall i :: 0 <= i < |r| ==>
              NearBase(r[i], UserSubjects(catalog, viewedIds), UserLevels(catalog, viewedIds))
  {
    var us, ul := UserSubjects(catalog, viewedIds), UserLevels(catalog, viewedIds);
    var cands := Candidates(catalog, viewedIds);
    var r := Head(SortBy(ScoreAll(cands, us, ul, draws), HigherScore), ScoredLimit);
    ScoredFacts(catalog, viewedIds, cands, us, ul, draws, r);
    r
  }

  /** Scoring, sorting and cutting a list of unviewed catalog courses gives unviewed catalog
      courses in non-increasing score, each score within its base bound. */
  lemma ScoredFacts(catalog: seq<Course>, viewedIds: seq<string>, cands: seq<Course>,
                    userSubjects: seq<string>, userLevels: seq<string>, draws: seq<real>, r: seq<Scored>)
    requires |draws| >= |cands|
    requires forall i :: 0 <= i < |cands| ==> cands[i] in catalog && cands[i].id !in viewedIds
    requires r == Head(SortBy(ScoreAll(cands, userSubjects, userLevels, draws), HigherScore), ScoredLimit)
    ensures |r| == Min(ScoredLimit, |cands|)
    ensures forall i :: 0 <= i < |r| ==> r[i].course in catalog && r[i].course.id !in viewedIds
    ensures forall i, j :: 0 <= i < j < |r| ==> r[i].score >= r[j].score
    ensures multiset(r) <= multiset(ScoreAll(cands, userSubjects, userLevels, draws))
    ensures DrawsInRange(draws) ==> forall i :: 0 <= i < |r| ==>
              NearBase(r[i], userSubjects, userLevels)
  {
    var all := ScoreAll(cands, userSubjects, userLevels, draws);
    TopScored(all, ScoredLimit);
    AllWellScored(catalog, viewedIds, cands, userSubjects, userLevels, draws);
    assert forall i :: 0 <= i < |r| ==> WellScored(r[i], catalog, viewedIds, userSubjects, userLevels, draws);
  }

  /** Sorting scored entries by score and cutting the list gives entries of the list, none more
      often than in it, in non-increasing score. */
  lemma TopScored(all: seq<Scored>, n: int)
    ensures var r := Head(SortBy(all, HigherScore), n);
            && (forall i, j :: 0 <= i < j < |r| ==> r[i].score >= r[j].score)
            && multiset(r) <= multiset(all)
            && (forall i :: 0 <= i < |r| ==> r[i] in all)
  {
    var sorted := SortBy(all, HigherScore);
    var r := Head(sorted, n);
    HigherScoreIsPreorder();
    SortByIsSorted(all, HigherScore);
    SortByElements(all, HigherScore);
    PrefixMultiset(sorted, |r|);
    assert forall i :: 0 <= i < |r| ==> r[i] == sorted[i];
  }

  /** A scored entry is for a catalog course the user has not viewed, and with draws in range
      its score lies within two points above its base score. */
  ghost predicate WellScored(x: Scored, catalog: seq<Course>, viewedIds: seq<string>,
                             userSubjects: seq<string>, userLevels: seq<string>, draws: seq<real>) {
    && x.course in catalog && x.course.id !in viewedIds
    && (DrawsInRange(draws) ==> NearBase(x, userSubjects, userLevels))
  }

  lemma AllWellScored(catalog: seq<Course>, viewedIds: seq<string>, cands: seq<Course>,
                      userSubjects: seq<string>, userLevels: seq<string>, draws: seq<real>)
    requires |draws| >= |cands|
    requires forall i :: 0 <= i < |cands| ==> cands[i] in catalog && cands[i].id !in viewedIds
    ensures forall x :: x in ScoreAll(cands, userSubjects, userLevels, draws) ==>
              WellScored(x, catalog, viewedIds, userSubjects, userLevels, draws)
  {
    var all := ScoreAll(cands, userSubjects, userLevels, draws);
    forall x | x in all ensures WellScored(x, catalog, viewedIds, userSubjects, userLevels, draws) {
      var i :| 0 <= i < |all| && all[i] == x;
    }
  }

  /** `scoredCourses` holds scored candidates only, none more often than it was scored. */
  lemma ScoredTakenFromCandidates(catalog: seq<Course>, viewedIds: seq<string>, draws: seq<real>)
    requires |draws| >= |catalog|
    ensures multiset(ScoredCourses(catalog, viewedIds, draws))
            <= multiset(ScoreAll(Candidates(catalog, viewedIds), UserSubjects(catalog, viewedIds),
                                 UserLevels(catalog, viewedIds), draws))
  {
    TopScored(ScoreAll(Candidates(catalog, viewedIds), UserSubjects(catalog, viewedIds),
                       UserLevels(catalog, viewedIds), draws), ScoredLimit);
  }

  /** The cut to twenty keeps the best: a scored candidate left out of `scoredCourses` scores
      no higher than any kept one. */
  lemma ScoredKeepsBest(catalog: seq<Course>, viewedIds: seq<string>, draws: seq<real>, x: Scored, y: Scored)
    requires |draws| >= |catalog|
    requires x in ScoreAll(Candidates(catalog, viewedIds), UserSubjects(catalog, viewedIds),
                           UserLevels(catalog, viewedIds), draws)
    requires x !in ScoredCourses(catalog, viewedIds, draws)
    requires y in ScoredCourses(catalog, viewedIds, draws)
    ensures y.score >= x.score
  {
    var all := ScoreAll(Candidates(catalog, viewedIds), UserSubjects(catalog, viewedIds),
                        UserLevels(catalog, viewedIds), draws);
    var sorted := SortBy(all, HigherScore);
    var r := ScoredCourses(catalog, viewedIds, draws);
    assert r == Head(sorted, ScoredLimit);
    HigherScoreIsPreorder();
    SortByIsSorted(all, HigherScore);
    assert multiset(sorted)[x] > 0;
    TopOfSorted(sorted, HigherScore, |r|, x, y);
  }

  /** With a catalog that lists each course once, `scoredCourses` names each course once. */
  lemma ScoredDistinct(catalog: seq<Course>, viewedIds: seq<string>, draws: seq<real>)
    requires |draws| >= |catalog| && NoDup(catalog)
    ensures var r := ScoredCourses(catalog, viewedIds, draws);
            forall i, j :: 0 <= i < j < |r| ==> r[i].course != r[j].course
  {
    var cands := Candidates(catalog, viewedIds);
    var all := ScoreAll(cands, UserSubjects(catalog, viewedIds), UserLevels(catalog, viewedIds), draws);
    SubMultisetNoDup(cands, catalog);
    ScoredTakenFromCandidates(catalog, viewedIds, draws);
    assert forall a, b :: 0 <= a < b < |all| ==> all[a].course != all[b].course by {
      assert forall a :: 0 <= a < |all| ==> all[a].course == cands[a];
    }
    DistinctCourses(ScoredCourses(catalog, viewedIds, draws), all);
  }

  /** Entries taken from a list that names each course once name each course once. */
  lemma DistinctCourses(r: seq<Scored>, all: seq<Scored>)
    requires multiset(r) <= multiset(all)
    requires forall a, b :: 0 <= a < b < |all| ==> all[a].course != all[b].course
    ensures forall i, j :: 0 <= i < j < |r| ==> r[i].course != r[j].course
  {
    assert NoDup(all);
    SubMultisetNoDup(r, all);
    forall i, j | 0 <= i < j < |r| ensures r[i].course != r[j].course {
      assert r[i] in multiset(all) && r[j] in multiset(all);
      var a :| 0 <= a < |all| && all[a] == r[i];
      var b :| 0 <= b < |all| && all[b] == r[j];
      assert a != b;
    }
  }

  /** With draws in range, a candidate whose subject the user has viewed (and whose subscriber
      count is not negative) outranks every candidate whose subject the user has not viewed:
      its score is at least 200, the other's below 50 + 5 + 2. */
  lemma SubjectMatchOutranks(catalog: seq<Course>, viewedIds: seq<string>, draws: seq<real>, i: nat, j: nat)
    requires |draws| >= |catalog| && DrawsInRange(draws)
    requires i < j < |ScoredCourses(catalog, viewedIds, draws)|
    requires ScoredCourses(catalog, viewedIds, draws)[j].course.subject in UserSubjects(catalog, viewedIds)
    requires Subs(ScoredCourses(catalog, viewedIds, draws)[j].course) >= 0
    ensures ScoredCourses(catalog, viewedIds, draws)[i].course.subject in UserSubjects(catalog, viewedIds)
  {
    var r := ScoredCourses(catalog, viewedIds, draws);
    var us, ul := UserSubjects(catalog, viewedIds), UserLevels(catalog, viewedIds);
    assert NearBase(r[i], us, ul) && NearBase(r[j], us, ul);
    assert r[i].score >= r[j].score;
    if r[i].course.subject !in us {
      assert false;
    }
  }

  /** `records.find(c => c.course_id === recentViews[0]?.courseId)`. */
  function MostRecentCourse(catalog: seq<Course>, viewedIds: seq<string>): (r: Option<Course>)
    ensures viewedIds == [] ==> r.None?
    ensures r.Some? ==> r.value in catalog && r.value.id == viewedIds[0]
    ensures viewedIds != [] && r.None? ==> forall i :: 0 <= i < |catalog| ==> catalog[i].id != viewedIds[0]
  {
    if viewedIds == [] then None else FindById(catalog, viewedIds[0])
  }

  /** `c => c.subject === mostRecentCourse?.subject`: a subject is a string and never equals
      `undefined`, so nothing matches when the most recent view did not resolve. */
  function SameAs(mostRecent: Option<Course>): Scored -> bool {
    (s: Scored) => mostRecent.Some? && s.course.subject == mostRecent.value.subject
  }

  /** `c => c.subject !== mostRecentCourse?.subject`: every subject differs from `undefined`. */
  function OtherThan(mostRecent: Option<Course>): Scored -> bool {
    (s: Scored) => mostRecent.None? || s.course.subject != mostRecent.value.subject
  }

  /** `scoredCourses.filter(c => c.subject === mostRecentCourse?.subject).slice(0, 5)`: the first
      five entries of the most recent course's subject, none skipped on the way. */
  function SameSubject(scored: seq<Scored>, mostRecent: Option<Course>): (r: seq<Scored>)
    ensures |r| == Min(SplitLimit, |Filter(scored, SameAs(mostRecent))|)
    ensures exists k :: 0 <= k <= |scored| && r == Filter(scored[..k], SameAs(mostRecent))
    ensures Subseq(r, scored)
    ensures mostRecent.None? ==> r == []
    ensures forall i :: 0 <= i < |r| ==>
              r[i] in scored && mostRecent.Some? && r[i].course.subject == mostRecent.value.subject
    ensures |r| < SplitLimit ==> forall i :: 0 <= i < |scored| ==>
              (mostRecent.Some? && scored[i].course.subject == mostRecent.value.subject) ==> scored[i] in r
  {
    HeadOfFilter(scored, SameAs(mostRecent), SplitLimit);
    Head(Filter(scored, SameAs(mostRecent)), SplitLimit)
  }

  /** `scoredCourses.filter(c => c.subject !== mostRecentCourse?.subject).slice(0, 5)`: the first
      five entries of other subjects, none skipped on the way; without a resolved most recent
      course this is the top five of the ranking. */
  function OtherSubject(scored: seq<Scored>, mostRecent: Option<Course>): (r: seq<Scored>)
    ensures |r| == Min(SplitLimit, |Filter(scored, OtherThan(mostRecent))|)
    ensures exists k :: 0 <= k <= |scored| && r == Filter(scored[..k], OtherThan(mostRecent))
    ensures Subseq(r, scored)
    ensures mostRecent.None? ==> r == Head(scored, SplitLimit)
    ensures forall i :: 0 <= i < |r| ==>
              r[i] in scored && (mostRecent.None? || r[i].course.subject != mostRecent.value.subject)
    ensures |r| < SplitLimit ==> forall i :: 0 <= i < |scored| ==>
              (mostRecent.None? || scored[i].course.subject != mostRecent.value.subject) ==> scored[i] in r
  {
    HeadOfFilter(scored, OtherThan(mostRecent), SplitLimit);
    if mostRecent.None? then FilterAll(scored, OtherThan(mostRecent)); Head(Filter(scored, OtherThan(mostRecent)), SplitLimit)
    else Head(Filter(scored, OtherThan(mostRecent)), SplitLimit)
  }

  /** On a ranking in non-increasing score, the same-subject split keeps the best: an entry of
      that subject it leaves out scores no higher than any entry it keeps. */
  lemma SameSubjectKeepsBest(scored: seq<Scored>, mostRecent: Option<Course>, x: Scored, y: Scored)
    requires forall i, j :: 0 <= i < j < |scored| ==> scored[i].score >= scored[j].score
    requires x in scored && mostRecent.Some? && x.course.subject == mostRecent.value.subject
    requires x !in SameSubject(scored, mostRecent)
    requires y in SameSubject(scored, mostRecent)
    ensures y.score >= x.score
  {
    assert SortedBy(scored, HigherScore);
    assert SameAs(mostRecent)(x);
    assert multiset(scored)[x] > 0;
    FilterHeadIsTop(scored, SameAs(mostRecent), HigherScore, SplitLimit, x, y);
  }

  /** The other-subject split keeps the best in the same way. */
  lemma OtherSubjectKeepsBest(scored: seq<Scored>, mostRecent: Option<Course>, x: Scored, y: Scored)
    requires forall i, j :: 0 <= i < j < |scored| ==> scored[i].score >= scored[j].score
    requires x in scored && (mostRecent.None? || x.course.subject != mostRecent.value.subject)
    requires x !in OtherSubject(scored, mostRecent)
    requires y in OtherSubject(scored, mostRecent)
    ensures y.score >= x.score
  {
    assert SortedBy(scored, HigherScore);
    assert OtherThan(mostRecent)(x);
    assert multiset(scored)[x] > 0;
    FilterHeadIsTop(scored, OtherThan(mostRecent), HigherScore, SplitLimit, x, y);
  }

  datatype DebugReport = DebugReport(
    viewedCount: nat,
    userSubjects: seq<string>,
    userLevels: seq<string>,
    mostRecent: Option<Course>,
    topScored: seq<Scored>,
    sameSubject: seq<Scored>,
    otherSubject: seq<Scored>,
    topRecommendationSubjects: seq<string>,
    sameSubjectCount: nat,
    otherSubjectCount: nat)

  /** `[...new Set(scoredCourses.slice(0, 12).map(c => c.subject))]`. */
  function TopRecommendationSubjects(scored: seq<Scored>): (r: seq<string>)
    ensures NoDup(r)
    ensures forall s :: s in r <==>
              exists i :: 0 <= i < Min(SubjectSummaryLimit, |scored|) && scored[i].course.subject == s
  {
    var summary := Head(scored, SubjectSummaryLimit);
    var subjects := seq(|summary|, i requires 0 <= i < |summary| => summary[i].course.subject);
    var r := Dedup(subjects);
    assert forall i :: 0 <= i < |subjects| ==> subjects[i] == scored[i].course.subject;
    assert forall s :: s in r <==> s in subjects;
    r
  }

  /** The route's JSON body, without the score rounding of the display. */
  function Debug(catalog: seq<Course>, viewedIds: seq<string>, draws: seq<real>): (r: DebugReport)
    requires |draws| >= |catalog|
    ensures r.viewedCount == |viewedIds|
    ensures r.userSubjects == UserSubjects(catalog, viewedIds) && r.userLevels == UserLevels(catalog, viewedIds)
    ensures r.mostRecent == MostRecentCourse(catalog, viewedIds)
    ensures r.topScored == Head(ScoredCourses(catalog, viewedIds, draws), TopScoredLimit)
    ensures r.sameSubject == SameSubject(ScoredCourses(catalog, viewedIds, draws), r.mostRecent)
    ensures r.otherSubject == OtherSubject(ScoredCourses(catalog, viewedIds, draws), r.mostRecent)
    ensures r.topRecommendationSubjects == TopRecommendationSubjects(ScoredCourses(catalog, viewedIds, draws))
    ensures r.sameSubjectCount == |r.sameSubject| && r.otherSubjectCount == |r.otherSubject|
    ensures |r.topScored| <= TopScoredLimit && |r.sameSubject| <= SplitLimit && |r.otherSubject| <= SplitLimit
  {
    var scored := ScoredCourses(catalog, viewedIds, draws);
    var mostRecent := MostRecentCourse(catalog, viewedIds);
    Report(|viewedIds|, UserSubjects(catalog, viewedIds), UserLevels(catalog, viewedIds), mostRecent, scored)
  }

  /** The report assembled from the route's intermediate values. */
  function Report(viewedCount: nat, userSubjects: seq<string>, userLevels: seq<string>,
                  mostRecent: Option<Course>, scored: seq<Scored>): (r: DebugReport)
    ensures r.viewedCount == viewedCount
    ensures r.userSubjects == userSubjects && r.userLevels == userLevels && r.mostRecent == mostRecent
    ensures |r.topScored| == Min(TopScoredLimit, |scored|) && r.topScored == scored[..|r.topScored|]
    ensures r.sameSubject == SameSubject(scored, mostRecent) && r.otherSubject == OtherSubject(scored, mostRecent)
    ensures r.topRecommendationSubjects == TopRecommendationSubjects(scored)
    ensures r.sameSubjectCount == |r.sameSubject| && r.otherSubjectCount == |r.otherSubject|
  {
    var same := SameSubject(scored, mostRecent);
    var other := OtherSubject(scored, mostRecent);
    DebugReport(viewedCount, userSubjects, userLevels, mostRecent, Head(scored, TopScoredLimit),
                same, other, TopRecommendationSubjects(scored), |same|, |other|)
  }
}
