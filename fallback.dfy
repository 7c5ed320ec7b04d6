/** The recommendations route (`GET /api/recommendations`): read `userId` and `topK` from the
    query, ask the Python backend, and when the backend does not answer, fall back to the
    catalog sorted by subscriber count and cut to `topK`.

    The backend call is not a function: its outcome is an input, `Some(list)` when the backend
    answered with status 2xx and `None` when it failed or could not be reached. */
module PopularityFallback {
  import opened Basics
  import opened Seqs
  import opened Sorting
  import opened Text
  import opened Catalog

  const DefaultUserId: string := "user_0"
  const DefaultTopK: string := "10"

  /** `searchParams.get('userId') || 'user_0'`: an absent or empty parameter gives the default. */
  function UserIdParam(param: Option<string>): (r: string)
    ensures r != []
    ensures param.Some? && param.value != [] ==> r == param.value
    ensures param.None? || param.value == [] ==> r == DefaultUserId
  {
    match param
    case Some(v) => if v != [] then v else DefaultUserId
    case None => DefaultUserId
  }

  /** `parseInt(searchParams.get('topK') || '10')`; `None` stands for `NaN`. */
  function TopKParam(param: Option<string>): Option<int> {
    match param
    case Some(v) => ParseInt(if v != [] then v else DefaultTopK)
    case None => ParseInt(DefaultTopK)
  }

  /** Without a usable `topK` parameter the route asks for ten courses. */
  lemma TopKDefault(param: Option<string>)
    requires param.None? || param.value == []
    ensures TopKParam(param) == Some(10)
  {
    ParseIntDecimal(DefaultTopK);
  }

  /** A `topK` made of decimal digits is read as that number. */
  lemma TopKDecimal(ds: string)
    requires ds != [] && forall k :: 0 <= k < |ds| ==> IsDecimalDigit(ds[k])
    ensures TopKParam(Some(ds)) == Some(DigitsValue(ds, 10))
  {
    ParseIntDecimal(ds);
  }

  /** The comparator `(a, b) => parseInt(b.num_subscribers) - parseInt(a.num_subscribers)`. A
      `NaN` result counts as 0, so a course whose count does not parse ties with everything. */
  function ParsedFirst(a: Course, b: Course): bool {
    match (a.subscribers, b.subscribers)
    case (Some(x), Some(y)) => x >= y
    case _ => true
  }

  /** The fallback list: the sorted catalog cut by `slice(0, topK)`; `slice(0, NaN)` is empty. */
  function Fallback(catalog: seq<Course>, topK: Option<int>): (r: seq<Course>)
    ensures topK.None? ==> r == []
    ensures topK.Some? && topK.value >= 0 ==> |r| == Min(topK.value, |catalog|)
    ensures topK.Some? && topK.value < 0 ==> |r| == Max(0, |catalog| + topK.value)
    ensures multiset(r) <= multiset(catalog)
  {
    var sorted := SortBy(catalog, ParsedFirst);
    match topK
    case None => []
    case Some(k) =>
      var r := Head(sorted, k);
      PrefixMultiset(sorted, |r|);
      r
  }

  predicate AllCountsParse(catalog: seq<Course>) {
    forall i :: 0 <= i < |catalog| ==> catalog[i].subscribers.Some?
  }

  /** When every subscriber count parses, the comparator is consistent and the fallback is the
      catalog's `topK` most subscribed courses in non-increasing order. */
  lemma FallbackIsMostSubscribed(catalog: seq<Course>, k: nat)
    requires AllCountsParse(catalog)
    ensures Fallback(catalog, Some(k)) == MostSubscribed(catalog, k)
    ensures forall i, j :: 0 <= i < j < |Fallback(catalog, Some(k))| ==>
              Subs(Fallback(catalog, Some(k))[i]) >= Subs(Fallback(catalog, Some(k))[j])
  {
    SortByAgree(catalog, ParsedFirst, MoreSubscribers);
  }

  /** With parsed counts, a course the fallback leaves out has no more subscribers than any
      course it returns. */
  lemma FallbackKeepsTop(catalog: seq<Course>, k: nat, x: Course, y: Course)
    requires AllCountsParse(catalog)
    requires x in catalog && x !in Fallback(catalog, Some(k))
    requires y in Fallback(catalog, Some(k))
    ensures Subs(y) >= Subs(x)
  {
    FallbackIsMostSubscribed(catalog, k);
    assert multiset(MostSubscribed(catalog, k))[x] == 0;
    MostSubscribedIsTop(catalog, k, x, y);
  }

  /** A catalog without repeated records gives a list without repeated records. */
  lemma FallbackNoDuplicates(catalog: seq<Course>, topK: Option<int>)
    requires NoDup(catalog)
    ensures NoDup(Fallback(catalog, topK))
  {
    SubMultisetNoDup(Fallback(catalog, topK), catalog);
  }

  datatype Outcome = Outcome(recommendations: seq<Course>, fromBackend: bool)

  /** The route: the backend's list when it answered, otherwise the fallback list. */
  function Recommend(catalog: seq<Course>, topKParam: Option<string>, backend: Option<seq<Course>>): (r: Outcome)
    ensures backend.Some? ==> r.fromBackend && r.recommendations == backend.value
    ensures backend.None? ==> !r.fromBackend && r.recommendations == Fallback(catalog, TopKParam(topKParam))
    ensures backend.None? ==> multiset(r.recommendations) <= multiset(catalog)
    ensures backend.None? && topKParam.None? ==> |r.recommendations| == Min(10, |catalog|)
  {
    match backend
    case Some(list) => Outcome(list, true)
    case None =>
      var r := Outcome(Fallback(catalog, TopKParam(topKParam)), false);
      if topKParam.None? then TopKDefault(topKParam); r else r
  }
}
