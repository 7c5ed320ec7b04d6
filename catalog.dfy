/** A course record of the CSV catalog, reduced to the fields the ranking and filtering code
    reads, and the lookups every route shares. */
module Catalog {
  import opened Basics
  import opened Seqs
  import opened Sorting

  /** `subscribers` and `reviews` hold the parsed text of the CSV cell; `None` means the cell
      does not parse as an integer (`parseInt` gives `NaN`, pandas a missing value). */
  datatype Course = Course(
    id: string,
    title: string,
    subject: string,
    level: string,
    price: string,
    subscribers: Option<int>,
    reviews: Option<int>)

  /** `parseInt(course.num_subscribers) || 0`: an unparseable count counts as zero. */
  function Subs(c: Course): int {
    match c.subscribers
    case Some(n) => n
    case None => 0
  }

  /** The comparator `(a, b) => Subs(b) - Subs(a)`: `a` may stay ahead of `b` unless `b` has
      strictly more subscribers. */
  function MoreSubscribers(a: Course, b: Course): bool {
    Subs(a) >= Subs(b)
  }

  lemma MoreSubscribersIsPreorder()
    ensures TotalPreorder(MoreSubscribers)
  {
  }

  /** The catalog sorted by non-increasing subscriber count, ties in catalog order. */
  function BySubscribers(cs: seq<Course>): (r: seq<Course>)
    ensures multiset(r) == multiset(cs) && |r| == |cs|
    ensures forall i, j :: 0 <= i < j < |r| ==> Subs(r[i]) >= Subs(r[j])
  {
    MoreSubscribersIsPreorder();
    SortByIsSorted(cs, MoreSubscribers);
    SortBy(cs, MoreSubscribers)
  }

  /** Keeping the first `k` of `BySubscribers(cs)` keeps the most subscribed courses: a course
      left out (or kept fewer times than it occurs) has no more subscribers than any kept one. */
  lemma TopBySubscribers(cs: seq<Course>, k: int, x: Course, y: Course)
    requires multiset(Head(BySubscribers(cs), k))[x] < multiset(cs)[x]
    requires y in Head(BySubscribers(cs), k)
    ensures Subs(y) >= Subs(x)
  {
    var s := BySubscribers(cs);
    MoreSubscribersIsPreorder();
    SortByIsSorted(cs, MoreSubscribers);
    TopOfSorted(s, MoreSubscribers, |Head(s, k)|, x, y);
  }

  function SubjectsOf(cs: seq<Course>): (r: seq<string>)
    ensures |r| == |cs| && forall i :: 0 <= i < |cs| ==> r[i] == cs[i].subject
  {
    seq(|cs|, i requires 0 <= i < |cs| => cs[i].subject)
  }

  function LevelsOf(cs: seq<Course>): (r: seq<string>)
    ensures |r| == |cs| && forall i :: 0 <= i < |cs| ==> r[i] == cs[i].level
  {
    seq(|cs|, i requires 0 <= i < |cs| => cs[i].level)
  }

  /** `records.find(c => c.course_id === id)` and `courses[courses.course_id == id].iloc[0]`:
      the first record carrying `id`, or `None` when there is none. */
  function FindById(cs: seq<Course>, id: string): (r: Option<Course>)
    ensures r.None? <==> forall i :: 0 <= i < |cs| ==> cs[i].id != id
    ensures r.Some? ==> exists i :: 0 <= i < |cs| && cs[i] == r.value && r.value.id == id
                          && forall k :: 0 <= k < i ==> cs[k].id != id
  {
    if cs == [] then None
    else if cs[0].id == id then Some(cs[0])
    else
      var r := FindById(cs[1..], id);
      assert forall i :: 1 <= i < |cs| ==> cs[i] == cs[1..][i - 1];
      r
  }

  /** The first `k` courses of `BySubscribers(pool)`: the `.sort(...).slice(0, k)` chain. */
  function MostSubscribed(pool: seq<Course>, k: nat): (r: seq<Course>)
    ensures |r| == Min(k, |pool|)
    ensures forall i, j :: 0 <= i < j < |r| ==> Subs(r[i]) >= Subs(r[j])
    ensures multiset(r) <= multiset(pool)
    ensures forall i :: 0 <= i < |r| ==> r[i] in pool
    ensures |r| < k ==> forall i :: 0 <= i < |pool| ==> pool[i] in r
  {
    var sorted := BySubscribers(pool);
    MostSubscribedFacts(pool, k);
    Head(sorted, k)
  }

  /** The filter `c => subjects.includes(c.subject)` (pandas: `isin(subjects)`). */
  function OfSubjects(subjects: seq<string>): Course -> bool {
    (c: Course) => c.subject in subjects
  }

  /** Its complement, `~isin(subjects)`. */
  function NotOfSubjects(subjects: seq<string>): Course -> bool {
    (c: Course) => c.subject !in subjects
  }

  /** Taking the most subscribed courses out of a filtered catalog keeps to that filter. */
  lemma MostSubscribedOfFilter(catalog: seq<Course>, p: Course -> bool, k: nat)
    ensures var r := MostSubscribed(Filter(catalog, p), k);
            && (forall i :: 0 <= i < |r| ==> r[i] in catalog && p(r[i]))
            && multiset(r) <= multiset(catalog)
            && (|r| < k ==> forall i :: 0 <= i < |catalog| && p(catalog[i]) ==> catalog[i] in r)
  {
    var pool := Filter(catalog, p);
    FilterIsSubseq(catalog, p);
    TakenFromPool(MostSubscribed(pool, k), pool, catalog, p);
    MostSubscribedOfFilterTakesAll(catalog, p, k);
  }

  /** Elements of a filtered pool are elements of the unfiltered sequence that pass the filter. */
  lemma TakenFromPool(r: seq<Course>, pool: seq<Course>, catalog: seq<Course>, p: Course -> bool)
    requires forall i :: 0 <= i < |r| ==> r[i] in pool
    requires forall i :: 0 <= i < |pool| ==> pool[i] in catalog && p(pool[i])
    ensures forall i :: 0 <= i < |r| ==> r[i] in catalog && p(r[i])
  {
    forall i | 0 <= i < |r| ensures r[i] in catalog && p(r[i]) {
      var j :| 0 <= j < |pool| && pool[j] == r[i];
    }
  }

  lemma MostSubscribedOfFilterTakesAll(catalog: seq<Course>, p: Course -> bool, k: nat)
    ensures var r := MostSubscribed(Filter(catalog, p), k);
            |r| < k ==> forall i :: 0 <= i < |catalog| && p(catalog[i]) ==> catalog[i] in r
  {
    var pool := Filter(catalog, p);
    var r := MostSubscribed(pool, k);
    if |r| < k {
      forall i | 0 <= i < |catalog| && p(catalog[i]) ensures catalog[i] in r {
        var j :| 0 <= j < |pool| && pool[j] == catalog[i];
      }
    }
  }

  /** The same through two successive filters. */
  lemma MostSubscribedOfFilters(catalog: seq<Course>, p: Course -> bool, q: Course -> bool, k: nat)
    ensures var r := MostSubscribed(Filter(Filter(catalog, p), q), k);
            && (forall i :: 0 <= i < |r| ==> r[i] in catalog && p(r[i]) && q(r[i]))
            && multiset(r) <= multiset(catalog)
  {
    var outer := Filter(catalog, p);
    var r := MostSubscribed(Filter(outer, q), k);
    MostSubscribedOfFilter(outer, q, k);
    FilterIsSubseq(catalog, p);
    forall i | 0 <= i < |r| ensures r[i] in catalog && p(r[i]) {
      var j :| 0 <= j < |outer| && outer[j] == r[i];
    }
  }

  /** Fewer than `k` results through two filters means every course passing both is one. */
  lemma MostSubscribedOfFiltersTakesAll(catalog: seq<Course>, p: Course -> bool, q: Course -> bool, k: nat)
    ensures var r := MostSubscribed(Filter(Filter(catalog, p), q), k);
            |r| < k ==> forall i :: 0 <= i < |catalog| && p(catalog[i]) && q(catalog[i]) ==> catalog[i] in r
  {
    var pool := Filter(Filter(catalog, p), q);
    var r := MostSubscribed(pool, k);
    if |r| < k {
      forall i | 0 <= i < |catalog| && p(catalog[i]) && q(catalog[i]) ensures catalog[i] in r {
        InBothFilters(catalog, p, q, catalog[i]);
        var j :| 0 <= j < |pool| && pool[j] == catalog[i];
      }
    }
  }

  lemma MostSubscribedFacts(pool: seq<Course>, k: nat)
    ensures multiset(Head(BySubscribers(pool), k)) <= multiset(pool)
    ensures forall i :: 0 <= i < |Head(BySubscribers(pool), k)| ==> Head(BySubscribers(pool), k)[i] in pool
    ensures |Head(BySubscribers(pool), k)| < k ==> forall i :: 0 <= i < |pool| ==> pool[i] in Head(BySubscribers(pool), k)
  {
    var sorted := BySubscribers(pool);
    var r := Head(sorted, k);
    PrefixMultiset(sorted, |r|);
    forall i | 0 <= i < |r| ensures r[i] in pool {
      assert r[i] in multiset(r);
    }
    if |r| < k {
      assert r == sorted;
      forall i | 0 <= i < |pool| ensures pool[i] in r {
        assert pool[i] in multiset(pool);
      }
    }
  }

  /** `MostSubscribed` keeps the most subscribed courses of its pool: a course it leaves out
      (or keeps fewer times than the pool holds it) has no more subscribers than any kept one. */
  lemma MostSubscribedIsTop(pool: seq<Course>, k: nat, x: Course, y: Course)
    requires multiset(MostSubscribed(pool, k))[x] < multiset(pool)[x]
    requires y in MostSubscribed(pool, k)
    ensures Subs(y) >= Subs(x)
  {
    TopBySubscribers(pool, k, x, y);
  }
}
