/** What the diagnostic routes learn from a user's recent views (the up to ten course ids of the
    latest view events, most recent first): the catalog records viewed and their distinct
    subjects and levels. Ids that match no record are silently dropped. */
module ViewHistory {
  import opened Seqs
  import opened Catalog

  /** `records.filter(c => viewedCourseIds.includes(c.course_id))`. */
  function ViewedCourses(catalog: seq<Course>, viewedIds: seq<string>): (r: seq<Course>)
    ensures Subseq(r, catalog)
    ensures forall i :: 0 <= i < |r| ==> r[i] in catalog && r[i].id in viewedIds
    ensures forall i :: 0 <= i < |catalog| && catalog[i].id in viewedIds ==> catalog[i] in r
  {
    FilterIsSubseq(catalog, (c: Course) => c.id in viewedIds);
    Filter(catalog, (c: Course) => c.id in viewedIds)
  }

  /** `[...new Set(viewedCourses.map(c => c.subject))]`. */
  function UserSubjects(catalog: seq<Course>, viewedIds: seq<string>): (r: seq<string>)
    ensures NoDup(r)
    ensures forall s :: s in r <==>
              exists i :: 0 <= i < |catalog| && catalog[i].id in viewedIds && catalog[i].subject == s
  {
    var viewed := ViewedCourses(catalog, viewedIds);
    var r := Dedup(SubjectsOf(viewed));
    assert forall s :: s in r <==> s in SubjectsOf(viewed);
    r
  }

  /** `[...new Set(viewedCourses.map(c => c.level))]`. */
  function UserLevels(catalog: seq<Course>, viewedIds: seq<string>): (r: seq<string>)
    ensures NoDup(r)
    ensures forall l :: l in r <==>
              exists i :: 0 <= i < |catalog| && catalog[i].id in viewedIds && catalog[i].level == l
  {
    var viewed := ViewedCourses(catalog, viewedIds);
    var r := Dedup(LevelsOf(viewed));
    assert forall l :: l in r <==> l in LevelsOf(viewed);
    r
  }
}
