/** The catalog page (`page.tsx`): the course list narrowed by a search box and two drop-downs,
    and the sorted subject and level options offered by the drop-downs. An empty search term or
    selection means "no constraint". */
module CatalogPage {
  import opened Seqs
  import opened Sorting
  import opened Text
  import opened Catalog

  /** The search test: the lowercased term occurs in the lowercased title or subject. */
  predicate SearchHit(c: Course, term: string) {
    Contains(Lower(c.title), Lower(term)) || Contains(Lower(c.subject), Lower(term))
  }

  predicate MatchesSearch(c: Course, term: string) {
    term == [] || SearchHit(c, term)
  }

  predicate MatchesSubject(c: Course, subject: string) {
    subject == [] || c.subject == subject
  }

  predicate MatchesLevel(c: Course, level: string) {
    level == [] || c.level == level
  }

  /** A course passes every active criterion. */
  predicate Passes(c: Course, term: string, subject: string, level: string) {
    MatchesSearch(c, term) && MatchesSubject(c, subject) && MatchesLevel(c, level)
  }

  /** The courses the page shows: one filter by all active criteria at once. */
  function Visible(courses: seq<Course>, term: string, subject: string, level: string): (r: seq<Course>)
    ensures Subseq(r, courses)
    ensures forall i :: 0 <= i < |r| ==> Passes(r[i], term, subject, level)
    ensures forall i :: 0 <= i < |courses| && Passes(courses[i], term, subject, level) ==> courses[i] in r
    ensures term == [] && subject == [] && level == [] ==> r == courses
  {
    var p := (c: Course) => Passes(c, term, subject, level);
    FilterIsSubseq(courses, p);
    if term == [] && subject == [] && level == [] then FilterAll(courses, p); Filter(courses, p)
    else Filter(courses, p)
  }

  /** A course is shown if and only if it passes every active criterion. */
  lemma VisibleIff(courses: seq<Course>, term: string, subject: string, level: string, c: Course)
    requires c in courses
    ensures c in Visible(courses, term, subject, level) <==> Passes(c, term, subject, level)
  {
    var k :| 0 <= k < |courses| && courses[k] == c;
    var r := Visible(courses, term, subject, level);
    if c in r {
      var i :| 0 <= i < |r| && r[i] == c;
    }
  }

  /** The page's state: the loaded courses, the filter inputs and the list on screen. */
  class Page {
    var courses: seq<Course>
    var searchTerm: string
    var selectedSubject: string
    var selectedLevel: string
    var filteredCourses: seq<Course>

    constructor(loaded: seq<Course>)
      ensures courses == loaded && filteredCourses == []
      ensures searchTerm == [] && selectedSubject == [] && selectedLevel == []
    {
      courses := loaded;
      searchTerm, selectedSubject, selectedLevel := [], [], [];
      filteredCourses := [];
    }

    /** `filterCourses`: starting from all courses, each active criterion filters the list
        further, and the result goes on screen. */
    method FilterCourses()
      modifies this
      ensures filteredCourses == Visible(courses, searchTerm, selectedSubject, selectedLevel)
      ensures courses == old(courses) && searchTerm == old(searchTerm)
      ensures selectedSubject == old(selectedSubject) && selectedLevel == old(selectedLevel)
    {
      var term, subject, level := searchTerm, selectedSubject, selectedLevel;
      var bySearch := (c: Course) => MatchesSearch(c, term);
      var bySearchSubject := (c: Course) => MatchesSearch(c, term) && MatchesSubject(c, subject);
      var all := (c: Course) => Passes(c, term, subject, level);

      var filtered := courses;
      if term != [] {
        filtered := Filter(filtered, (c: Course) => SearchHit(c, term));
        FilterSame(courses, (c: Course) => SearchHit(c, term), bySearch);
      } else {
        FilterAll(courses, bySearch);
      }
      assert filtered == Filter(courses, bySearch);

      if subject != [] {
        filtered := Filter(filtered, (c: Course) => c.subject == subject);
        FilterFilter(courses, bySearch, (c: Course) => c.subject == subject, bySearchSubject);
      } else {
        FilterFilter(courses, bySearch, (c: Course) => true, bySearchSubject);
        FilterAll(filtered, (c: Course) => true);
      }
      assert filtered == Filter(courses, bySearchSubject);

      if level != [] {
        filtered := Filter(filtered, (c: Course) => c.level == level);
        FilterFilter(courses, bySearchSubject, (c: Course) => c.level == level, all);
      } else {
        FilterFilter(courses, bySearchSubject, (c: Course) => true, all);
        FilterAll(filtered, (c: Course) => true);
      }

      filteredCourses := filtered;
    }
  }

  /** The default `sort()` order on strings: `a` may precede `b` unless `b < a`. */
  function NotAfter(a: string, b: string): bool {
    !StrLess(b, a)
  }

  lemma NotAfterIsPreorder()
    ensures TotalPreorder(NotAfter)
  {
    forall a: string, b: string ensures NotAfter(a, b) || NotAfter(b, a) {
      StrLessTrichotomous(a, b);
    }
    forall a: string, b: string, c: string | NotAfter(a, b) && NotAfter(b, c) ensures NotAfter(a, c) {
      StrLessTrichotomous(a, b);
      StrLessTrichotomous(b, c);
      StrLessTrichotomous(a, c);
      if StrLess(a, b) && StrLess(b, c) {
        StrLessTransitive(a, b, c);
      }
    }
  }

  /** `[...new Set(values)].sort()`: the distinct values in increasing order. */
  function SortedDistinct(values: seq<string>): (r: seq<string>)
    ensures forall i, j :: 0 <= i < j < |r| ==> StrLess(r[i], r[j])
    ensures forall v :: v in r <==> v in values
  {
    var d := Dedup(values);
    var r := SortBy(d, NotAfter);
    NotAfterIsPreorder();
    SortByIsSorted(d, NotAfter);
    SortByElements(d, NotAfter);
    SubMultisetNoDup(r, d);
    forall i, j | 0 <= i < j < |r| ensures StrLess(r[i], r[j]) {
      StrLessTrichotomous(r[i], r[j]);
    }
    r
  }

  /** The subject drop-down: every subject of the loaded courses once, in increasing order. */
  function Subjects(courses: seq<Course>): (r: seq<string>)
    ensures forall i, j :: 0 <= i < j < |r| ==> StrLess(r[i], r[j])
    ensures forall s :: s in r <==> exists i :: 0 <= i < |courses| && courses[i].subject == s
  {
    var r := SortedDistinct(SubjectsOf(courses));
    assert forall s :: s in r <==> s in SubjectsOf(courses);
    r
  }

  /** The level drop-down: every level of the loaded courses once, in increasing order. */
  function Levels(courses: seq<Course>): (r: seq<string>)
    ensures forall i, j :: 0 <= i < j < |r| ==> StrLess(r[i], r[j])
    ensures forall l :: l in r <==> exists i :: 0 <= i < |courses| && courses[i].level == l
  {
    var r := SortedDistinct(LevelsOf(courses));
    assert forall l :: l in r <==> l in LevelsOf(courses);
    r
  }

  /** Increasing order leaves no room for repetitions. */
  lemma IncreasingNoDup(r: seq<string>)
    requires forall i, j :: 0 <= i < j < |r| ==> StrLess(r[i], r[j])
    ensures NoDup(r)
  {
    forall i, j | 0 <= i < j < |r| ensures r[i] != r[j] {
      StrLessIrreflexive(r[i]);
    }
  }
}
