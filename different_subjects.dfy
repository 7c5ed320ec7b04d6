/** The subject-diversity test route (`GET /api/test-different-subjects`): the catalog's
    subjects, up to five subjects the user has not viewed with the three most subscribed
    courses of each, and the current same-subject suggestions for comparison. */
module DifferentSubjects {
  import opened Basics
  import opened Seqs
  import opened Sorting
  import opened Catalog
  import opened ViewHistory

  const GroupLimit: int := 5
  const PerGroupLimit: int := 3
  const CurrentLimit: int := 5
  const SubjectListLimit: int := 10

  /** `[...new Set(records.map(c => c.subject))]`. */
  function AllSubjects(catalog: seq<Course>): (r: seq<string>)
    ensures NoDup(r)
    ensures forall s :: s in r <==> exists i :: 0 <= i < |catalog| && catalog[i].subject == s
  {
    var r := Dedup(SubjectsOf(catalog));
    assert forall s :: s in r <==> s in SubjectsOf(catalog);
    r
  }

  /** The subjects are listed in the order in which they first occur in the catalog. */
  lemma AllSubjectsInCatalogOrder(catalog: seq<Course>, i: nat, j: nat)
    requires i < j < |AllSubjects(catalog)|
    ensures AllSubjects(catalog)[i] in SubjectsOf(catalog) && AllSubjects(catalog)[j] in SubjectsOf(catalog)
    ensures IndexOf(SubjectsOf(catalog), AllSubjects(catalog)[i]) < IndexOf(SubjectsOf(catalog), AllSubjects(catalog)[j])
  {
    DedupFirstOccurrenceOrder(SubjectsOf(catalog), i, j);
  }

  datatype SubjectGroup = SubjectGroup(subject: string, courses: seq<Course>)

  /** The `.map(subject => ...)` step: the subject's courses by non-increasing subscribers,
      cut to three. */
  function GroupFor(catalog: seq<Course>, subject: string): (g: SubjectGroup)
    ensures g.subject == subject
    ensures |g.courses| <= PerGroupLimit
    ensures forall i :: 0 <= i < |g.courses| ==> g.courses[i] in catalog && g.courses[i].subject == subject
    ensures forall i, j :: 0 <= i < j < |g.courses| ==> Subs(g.courses[i]) >= Subs(g.courses[j])
    ensures multiset(g.courses) <= multiset(catalog)
    ensures |g.courses| < PerGroupLimit ==>
              forall i :: 0 <= i < |catalog| && catalog[i].subject == subject ==> catalog[i] in g.courses
  {
    var ofSubject := (c: Course) => c.subject == subject;
    MostSubscribedOfFilter(catalog, ofSubject, PerGroupLimit);
    SubjectGroup(subject, MostSubscribed(Filter(catalog, ofSubject), PerGroupLimit))
  }

  /** A group holds the most subscribed courses of its subject: a course of that subject that
      the group leaves out has no more subscribers than any course in it. */
  lemma GroupHoldsMostSubscribed(catalog: seq<Course>, subject: string, x: Course, y: Course)
    requires x.subject == subject
    requires multiset(GroupFor(catalog, subject).courses)[x] < multiset(catalog)[x]
    requires y in GroupFor(catalog, subject).courses
    ensures Subs(y) >= Subs(x)
  {
    var p := (c: Course) => c.subject == subject;
    var inSubject := Filter(catalog, p);
    FilterKeepsCount(catalog, p, x);
    MostSubscribedIsTop(inSubject, PerGroupLimit, x, y);
  }

  /** The filter `s => !userSubjects.includes(s)`. */
  function NotIn(userSubjects: seq<string>): string -> bool {
    (s: string) => s !in userSubjects
  }

  /** The subjects that get a group: the first five catalog subjects the user has not viewed,
      in catalog-subject order, none skipped on the way and none twice. */
  function ChosenSubjects(catalog: seq<Course>, userSubjects: seq<string>): (r: seq<string>)
    ensures |r| == Min(GroupLimit, |Filter(AllSubjects(catalog), NotIn(userSubjects))|)
    ensures exists k :: 0 <= k <= |AllSubjects(catalog)| && r == Filter(AllSubjects(catalog)[..k], NotIn(userSubjects))
    ensures forall i :: 0 <= i < |r| ==> r[i] !in userSubjects && r[i] in AllSubjects(catalog)
    ensures Subseq(r, AllSubjects(catalog)) && NoDup(r)
    ensures |r| < GroupLimit ==> forall s :: s in AllSubjects(catalog) && s !in userSubjects ==> s in r
  {
    ChosenFacts(AllSubjects(catalog), userSubjects);
    Head(Filter(AllSubjects(catalog), NotIn(userSubjects)), GroupLimit)
  }

  /** The facts `ChosenSubjects` promises, on any list of distinct subjects. */
  lemma ChosenFacts(all: seq<string>, userSubjects: seq<string>)
    requires NoDup(all)
    ensures var r := Head(Filter(all, NotIn(userSubjects)), GroupLimit);
            && |r| == Min(GroupLimit, |Filter(all, NotIn(userSubjects))|)
            && (exists k :: 0 <= k <= |all| && r == Filter(all[..k], NotIn(userSubjects)))
            && (forall i :: 0 <= i < |r| ==> r[i] !in userSubjects && r[i] in all)
            && Subseq(r, all) && NoDup(r)
            && (|r| < GroupLimit ==> forall s :: s in all && s !in userSubjects ==> s in r)
  {
    var r := Head(Filter(all, NotIn(userSubjects)), GroupLimit);
    HeadOfFilter(all, NotIn(userSubjects), GroupLimit);
    SubMultisetNoDup(r, all);
    assert forall i :: 0 <= i < |r| ==> NotIn(userSubjects)(r[i]);
    assert forall i :: 0 <= i < |all| ==> all[i] in all;
  }

  /** `differentSubjectRecommendations`: one group per chosen subject, in the same order, so no
      subject gets two groups. */
  function DifferentSubjectGroups(catalog: seq<Course>, userSubjects: seq<string>): (r: seq<SubjectGroup>)
    ensures |r| == |ChosenSubjects(catalog, userSubjects)|
    ensures forall i :: 0 <= i < |r| ==>
              r[i].subject == ChosenSubjects(catalog, userSubjects)[i] && r[i] == GroupFor(catalog, r[i].subject)
    ensures forall i :: 0 <= i < |r| ==> r[i].subject !in userSubjects
    ensures forall i, j :: 0 <= i < j < |r| ==> r[i].subject != r[j].subject
  {
    var chosen := ChosenSubjects(catalog, userSubjects);
    seq(|chosen|, i requires 0 <= i < |chosen| => GroupFor(catalog, chosen[i]))
  }

  /** `currentRecommendations`: unviewed courses of a viewed subject, by non-increasing
      subscribers, cut to five. */
  function CurrentRecommendations(catalog: seq<Course>, viewedIds: seq<string>): (r: seq<Course>)
    ensures |r| <= CurrentLimit
    ensures forall i :: 0 <= i < |r| ==>
              r[i] in catalog && r[i].id !in viewedIds && r[i].subject in UserSubjects(catalog, viewedIds)
    ensures forall i, j :: 0 <= i < j < |r| ==> Subs(r[i]) >= Subs(r[j])
    ensures multiset(r) <= multiset(catalog)
    ensures |r| < CurrentLimit ==> forall i :: 0 <= i < |catalog| ==>
              catalog[i].id !in viewedIds && catalog[i].subject in UserSubjects(catalog, viewedIds) ==> catalog[i] in r
  {
    var us := UserSubjects(catalog, viewedIds);
    var r := MostSubscribed(Filter(Filter(catalog, NotViewed(viewedIds)), OfSubjects(us)), CurrentLimit);
    CurrentFacts(catalog, viewedIds, us);
    r
  }

  /** The filter `c => !viewedCourseIds.includes(c.course_id)`. */
  function NotViewed(viewedIds: seq<string>): Course -> bool {
    (c: Course) => c.id !in viewedIds
  }

  /** The facts `CurrentRecommendations` promises, proved on its body. */
  lemma CurrentFacts(catalog: seq<Course>, viewedIds: seq<string>, userSubjects: seq<string>)
    ensures var r := MostSubscribed(Filter(Filter(catalog, NotViewed(viewedIds)), OfSubjects(userSubjects)), CurrentLimit);
            && |r| <= CurrentLimit
            && (forall i :: 0 <= i < |r| ==> r[i] in catalog && r[i].id !in viewedIds && r[i].subject in userSubjects)
            && multiset(r) <= multiset(catalog)
            && (|r| < CurrentLimit ==> forall i :: 0 <= i < |catalog| ==>
                  catalog[i].id !in viewedIds && catalog[i].subject in userSubjects ==> catalog[i] in r)
  {
    MostSubscribedOfFilters(catalog, NotViewed(viewedIds), OfSubjects(userSubjects), CurrentLimit);
    MostSubscribedOfFiltersTakesAll(catalog, NotViewed(viewedIds), OfSubjects(userSubjects), CurrentLimit);
  }

  /** The current suggestions hold the most subscribed courses: an unviewed course of a viewed
      subject that they leave out has no more subscribers than any course in them. */
  lemma CurrentHoldsMostSubscribed(catalog: seq<Course>, viewedIds: seq<string>, x: Course, y: Course)
    requires x.id !in viewedIds && x.subject in UserSubjects(catalog, viewedIds)
    requires multiset(CurrentRecommendations(catalog, viewedIds))[x] < multiset(catalog)[x]
    requires y in CurrentRecommendations(catalog, viewedIds)
    ensures Subs(y) >= Subs(x)
  {
    var us := UserSubjects(catalog, viewedIds);
    var unviewed := Filter(catalog, NotViewed(viewedIds));
    FilterKeepsCount(catalog, NotViewed(viewedIds), x);
    FilterKeepsCount(unviewed, OfSubjects(us), x);
    MostSubscribedIsTop(Filter(unviewed, OfSubjects(us)), CurrentLimit, x, y);
  }

  /** A user none of whose viewed ids is in the catalog has no subjects: there is nothing to
      suggest in the same subjects, and every subject may get a group. */
  lemma NoResolvedViews(catalog: seq<Course>, viewedIds: seq<string>)
    requires forall i :: 0 <= i < |catalog| ==> catalog[i].id !in viewedIds
    ensures UserSubjects(catalog, viewedIds) == []
    ensures CurrentRecommendations(catalog, viewedIds) == []
    ensures ChosenSubjects(catalog, []) == Head(AllSubjects(catalog), GroupLimit)
  {
    var us := UserSubjects(catalog, viewedIds);
    assert forall k :: 0 <= k < |us| ==> us[k] in us;
    var r := CurrentRecommendations(catalog, viewedIds);
    var all := AllSubjects(catalog);
    var p := (s: string) => s !in [];
    FilterAll(all, p);
  }

  datatype DifferentSubjectsReport = DifferentSubjectsReport(
    userSubjects: seq<string>,
    viewedCount: nat,
    current: seq<Course>,
    groups: seq<SubjectGroup>,
    allAvailableSubjects: seq<string>)

  /** The route's JSON body. `viewedCourses` counts catalog records, not view ids. */
  function Report(catalog: seq<Course>, viewedIds: seq<string>): (r: DifferentSubjectsReport)
    ensures r.viewedCount == |ViewedCourses(catalog, viewedIds)|
    ensures |r.allAvailableSubjects| == Min(SubjectListLimit, |AllSubjects(catalog)|)
    ensures r.allAvailableSubjects == AllSubjects(catalog)[..|r.allAvailableSubjects|]
    ensures r.userSubjects == UserSubjects(catalog, viewedIds)
    ensures r.current == CurrentRecommendations(catalog, viewedIds)
    ensures r.groups == DifferentSubjectGroups(catalog, r.userSubjects)
  {
    var us := UserSubjects(catalog, viewedIds);
    DifferentSubjectsReport(us, |ViewedCourses(catalog, viewedIds)|, CurrentRecommendations(catalog, viewedIds),
                            DifferentSubjectGroups(catalog, us), Head(AllSubjects(catalog), SubjectListLimit))
  }
}
