/** The Flask recommender (`SimpleCourseRecommenderAPI.recommend_courses_to_user`): an unknown
    user gets the most subscribed courses; a known user gets the courses of the subjects they
    interacted with, most subscribed first, padded with the other subjects' courses when there
    are fewer than `top_k` of them.

    `sort_values('num_subscribers', ascending=False)` puts missing counts last. It is a
    quicksort, so the relative order of courses with equal counts is not specified; the model
    keeps catalog order for them. */
module SimpleRecommender {
  import opened Basics
  import opened Seqs
  import opened Sorting
  import opened Catalog

  /** One row of the simulated ratings table: who took which course, and its subject. */
  datatype Interaction = Interaction(userId: string, courseId: string, subject: string)

  function UserIdsOf(interactions: seq<Interaction>): (r: seq<string>)
    ensures |r| == |interactions| && forall i :: 0 <= i < |r| ==> r[i] == interactions[i].userId
  {
    seq(|interactions|, i requires 0 <= i < |interactions| => interactions[i].userId)
  }

  /** `ratings['user_id'].unique()`. */
  function KnownUsers(interactions: seq<Interaction>): (r: seq<string>)
    ensures NoDup(r)
    ensures forall u :: u in r <==> exists i :: 0 <= i < |interactions| && interactions[i].userId == u
  {
    var r := Dedup(UserIdsOf(interactions));
    assert forall u :: u in r <==> u in UserIdsOf(interactions);
    r
  }

  /** The descending `num_subscribers` order of pandas: larger counts first, missing counts last. */
  function PyMoreSubscribers(a: Course, b: Course): bool {
    match (a.subscribers, b.subscribers)
    case (Some(x), Some(y)) => x >= y
    case (Some(_), None) => true
    case (None, Some(_)) => false
    case (None, None) => true
  }

  lemma PyMoreSubscribersIsPreorder()
    ensures TotalPreorder(PyMoreSubscribers)
  {
  }

  /** `df.sort_values('num_subscribers', ascending=False)`. */
  function ByCount(cs: seq<Course>): (r: seq<Course>)
    ensures multiset(r) == multiset(cs) && |r| == |cs|
    ensures SortedBy(r, PyMoreSubscribers)
  {
    PyMoreSubscribersIsPreorder();
    SortByIsSorted(cs, PyMoreSubscribers);
    SortBy(cs, PyMoreSubscribers)
  }

  /** The popularity answer: the whole catalog by count, then `head(top_k)`. */
  function Popular(catalog: seq<Course>, topK: int): (r: seq<Course>)
    ensures topK >= 0 ==> |r| == Min(topK, |catalog|)
    ensures SortedBy(r, PyMoreSubscribers)
    ensures multiset(r) <= multiset(catalog)
  {
    var sorted := ByCount(catalog);
    var r := Head(sorted, topK);
    PrefixMultiset(sorted, |r|);
    r
  }

  /** The popularity answer keeps the top of the catalog: a course it leaves out (or keeps
      fewer times than the catalog holds it) ranks no higher by count than any course in it. */
  lemma PopularIsTop(catalog: seq<Course>, topK: int, x: Course, y: Course)
    requires multiset(Popular(catalog, topK))[x] < multiset(catalog)[x]
    requires y in Popular(catalog, topK)
    ensures PyMoreSubscribers(y, x)
  {
    var sorted := ByCount(catalog);
    var r := Popular(catalog, topK);
    assert r == sorted[..|r|];
    TopOfSorted(sorted, PyMoreSubscribers, |r|, x, y);
  }

  /** `ratings[ratings['user_id'] == user_id]['subject'].unique()`. */
  function PreferredSubjects(interactions: seq<Interaction>, userId: string): (r: seq<string>)
    ensures forall s :: s in r <==>
              exists i :: 0 <= i < |interactions| && interactions[i].userId == userId && interactions[i].subject == s
  {
    var mine := Filter(interactions, (x: Interaction) => x.userId == userId);
    var subjects := seq(|mine|, i requires 0 <= i < |mine| => mine[i].subject);
    var r := Dedup(subjects);
    assert forall s :: s in r <==> s in subjects;
    forall i | 0 <= i < |interactions| && interactions[i].userId == userId
      ensures interactions[i].subject in subjects
    {
      var k :| 0 <= k < |mine| && mine[k] == interactions[i];
      assert subjects[k] == interactions[i].subject;
    }
    r
  }

  /** The courses whose subject is preferred, by count. */
  function PreferredBlock(catalog: seq<Course>, preferred: seq<string>): (r: seq<Course>)
    ensures forall i :: 0 <= i < |r| ==> r[i] in catalog && r[i].subject in preferred
    ensures forall i :: 0 <= i < |catalog| && catalog[i].subject in preferred ==> catalog[i] in r
    ensures SortedBy(r, PyMoreSubscribers)
    ensures multiset(r) == multiset(Filter(catalog, OfSubjects(preferred)))
  {
    var pool := Filter(catalog, OfSubjects(preferred));
    var r := ByCount(pool);
    SortByElements(pool, PyMoreSubscribers);
    r
  }

  /** The padding: the courses whose subject is not preferred, by count. */
  function OtherBlock(catalog: seq<Course>, preferred: seq<string>): (r: seq<Course>)
    ensures forall i :: 0 <= i < |r| ==> r[i] in catalog && r[i].subject !in preferred
    ensures forall i :: 0 <= i < |catalog| && catalog[i].subject !in preferred ==> catalog[i] in r
    ensures SortedBy(r, PyMoreSubscribers)
    ensures multiset(r) == multiset(Filter(catalog, NotOfSubjects(preferred)))
  {
    var pool := Filter(catalog, NotOfSubjects(preferred));
    var r := ByCount(pool);
    SortByElements(pool, PyMoreSubscribers);
    r
  }

  /** The two blocks split the catalog: each record is in exactly one of them, as often as in
      the catalog. */
  lemma BlocksPartition(catalog: seq<Course>, preferred: seq<string>)
    ensures multiset(PreferredBlock(catalog, preferred)) + multiset(OtherBlock(catalog, preferred))
            == multiset(catalog)
  {
    FilterPartition(catalog, OfSubjects(preferred), NotOfSubjects(preferred));
  }

  /** The preferred block, padded with the other block when it is shorter than `top_k`. */
  function Ranked(catalog: seq<Course>, preferred: seq<string>, topK: int): (r: seq<Course>)
    ensures |PreferredBlock(catalog, preferred)| >= topK ==> r == PreferredBlock(catalog, preferred)
    ensures |PreferredBlock(catalog, preferred)| < topK ==>
              r == PreferredBlock(catalog, preferred) + OtherBlock(catalog, preferred)
    ensures multiset(r) <= multiset(catalog)
    ensures |PreferredBlock(catalog, preferred)| < topK ==> |r| == |catalog|
  {
    var block := PreferredBlock(catalog, preferred);
    BlocksPartition(catalog, preferred);
    if |block| < topK then block + OtherBlock(catalog, preferred) else block
  }

  /** `recommend_courses_to_user(user_id, top_k)`. */
  function Recommend(catalog: seq<Course>, interactions: seq<Interaction>, userId: string, topK: int): (r: seq<Course>)
    ensures userId !in KnownUsers(interactions) ==> r == Popular(catalog, topK)
    ensures topK >= 0 ==> |r| == Min(topK, |catalog|)
    ensures multiset(r) <= multiset(catalog)
  {
    if userId !in KnownUsers(interactions) then Popular(catalog, topK)
    else
      var mine := Filter(interactions, (x: Interaction) => x.userId == userId);
      if |mine| == 0 then Popular(catalog, topK)
      else
        var ranked := Ranked(catalog, PreferredSubjects(interactions, userId), topK);
        var r := Head(ranked, topK);
        PrefixMultiset(ranked, |r|);
        r
  }

  /** A user id is known exactly when it has interactions, so the second popularity answer
      (a known user without interactions) is never given. */
  lemma KnownUserHasInteractions(interactions: seq<Interaction>, userId: string)
    requires userId in KnownUsers(interactions)
    ensures |Filter(interactions, (x: Interaction) => x.userId == userId)| > 0
  {
    var i :| 0 <= i < |interactions| && interactions[i].userId == userId;
    assert interactions[i] in Filter(interactions, (x: Interaction) => x.userId == userId);
  }

  /** For a known user, the answer is the first `top_k` of the padded ranking. */
  lemma KnownUserRanked(catalog: seq<Course>, interactions: seq<Interaction>, userId: string, topK: int)
    requires userId in KnownUsers(interactions)
    ensures Recommend(catalog, interactions, userId, topK)
            == Head(Ranked(catalog, PreferredSubjects(interactions, userId), topK), topK)
  {
    KnownUserHasInteractions(interactions, userId);
  }

  /** When the preferred block alone fills `top_k`, every answer has a preferred subject, and the
      answer is ordered by count. */
  lemma LongBlockAllPreferred(catalog: seq<Course>, interactions: seq<Interaction>, userId: string, topK: int)
    requires userId in KnownUsers(interactions)
    requires |PreferredBlock(catalog, PreferredSubjects(interactions, userId))| >= topK
    ensures forall i :: 0 <= i < |Recommend(catalog, interactions, userId, topK)| ==>
              Recommend(catalog, interactions, userId, topK)[i].subject in PreferredSubjects(interactions, userId)
    ensures SortedBy(Recommend(catalog, interactions, userId, topK), PyMoreSubscribers)
  {
    KnownUserRanked(catalog, interactions, userId, topK);
  }

  /** In the padded ranking no preferred course follows another one, and each block is ordered
      by count. */
  lemma RankedOrder(catalog: seq<Course>, preferred: seq<string>, topK: int, i: nat, j: nat)
    requires i < j < |Ranked(catalog, preferred, topK)|
    ensures var ranked := Ranked(catalog, preferred, topK);
            && (ranked[j].subject in preferred ==> ranked[i].subject in preferred)
            && ((ranked[i].subject in preferred) == (ranked[j].subject in preferred) ==>
                  PyMoreSubscribers(ranked[i], ranked[j]))
  {
    var block, other := PreferredBlock(catalog, preferred), OtherBlock(catalog, preferred);
    if |block| < topK {
      BlocksInOrder(block, other, preferred, i, j);
    }
  }

  /** A block of preferred courses followed by a block of others, each ordered by count. */
  lemma BlocksInOrder(block: seq<Course>, other: seq<Course>, preferred: seq<string>, i: nat, j: nat)
    requires forall k :: 0 <= k < |block| ==> block[k].subject in preferred
    requires forall k :: 0 <= k < |other| ==> other[k].subject !in preferred
    requires SortedBy(block, PyMoreSubscribers) && SortedBy(other, PyMoreSubscribers)
    requires i < j < |block + other|
    ensures var ranked := block + other;
            && (ranked[j].subject in preferred ==> ranked[i].subject in preferred)
            && ((ranked[i].subject in preferred) == (ranked[j].subject in preferred) ==>
                  PyMoreSubscribers(ranked[i], ranked[j]))
  {
    var ranked := block + other;
    if j < |block| {
      assert ranked[i] == block[i] && ranked[j] == block[j];
    } else if i >= |block| {
      assert ranked[i] == other[i - |block|] && ranked[j] == other[j - |block|];
    } else {
      assert ranked[i] == block[i] && ranked[j] == other[j - |block|];
    }
  }

  /** Preferred courses come first: no course of a preferred subject follows one of another
      subject, and within each block the order is by count. */
  lemma PreferredComeFirst(catalog: seq<Course>, interactions: seq<Interaction>, userId: string, topK: int,
                           i: nat, j: nat)
    requires userId in KnownUsers(interactions)
    requires i < j < |Recommend(catalog, interactions, userId, topK)|
    ensures var r := Recommend(catalog, interactions, userId, topK);
            var preferred := PreferredSubjects(interactions, userId);
            && (r[j].subject in preferred ==> r[i].subject in preferred)
            && ((r[i].subject in preferred) == (r[j].subject in preferred) ==> PyMoreSubscribers(r[i], r[j]))
  {
    KnownUserRanked(catalog, interactions, userId, topK);
    var preferred := PreferredSubjects(interactions, userId);
    var ranked := Ranked(catalog, preferred, topK);
    var r := Recommend(catalog, interactions, userId, topK);
    assert r[i] == ranked[i] && r[j] == ranked[j];
    RankedOrder(catalog, preferred, topK, i, j);
  }

  /** A catalog without repeated records gives an answer without repeated records. */
  lemma RecommendNoDuplicates(catalog: seq<Course>, interactions: seq<Interaction>, userId: string, topK: int)
    requires NoDup(catalog)
    ensures NoDup(Recommend(catalog, interactions, userId, topK))
  {
    SubMultisetNoDup(Recommend(catalog, interactions, userId, topK), catalog);
  }
}
