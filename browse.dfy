/** The terminal front end of `course_recommender.py`: metadata-based similar courses, the page
    arithmetic of `display_courses`, the paging loop shared by the three list screens, the
    subject menu, and `change_user`.

    Keyboard input is not a function: the lines a user types are an input sequence, and a
    screen's loop ends at `B` or when the sequence runs out. */
module Browse {
  import opened Basics
  import opened Seqs
  import opened Sorting
  import opened Text
  import opened Catalog
  import opened SimpleRecommender
  import CatalogPage
  import CourseCard

  const PerPage: int := 10
  const DefaultUser: string := "user_0"

  /** `get_similar_courses_by_metadata(course_id, k)`: the other courses with the course's
      subject and level, by count, cut to `k`. `None` stands for the `IndexError` raised when
      no course has the id. */
  function SimilarByMetadata(catalog: seq<Course>, courseId: string, k: int): (r: Option<seq<Course>>)
    ensures r.None? <==> forall i :: 0 <= i < |catalog| ==> catalog[i].id != courseId
    ensures r.Some? ==> var course := FindById(catalog, courseId).value;
              && (forall i :: 0 <= i < |r.value| ==>
                    && r.value[i] in catalog && r.value[i].id != courseId
                    && r.value[i].subject == course.subject && r.value[i].level == course.level)
              && SortedBy(r.value, PyMoreSubscribers)
              && multiset(r.value) <= multiset(catalog)
              && (k >= 0 ==> |r.value| == Min(k, |Filter(catalog, SameKind(course, courseId))|))
              && (|r.value| < k ==> forall i :: 0 <= i < |catalog| ==>
                    (catalog[i].id != courseId && catalog[i].subject == course.subject
                     && catalog[i].level == course.level) ==> catalog[i] in r.value)
  {
    match FindById(catalog, courseId)
    case None => None
    case Some(course) =>
      SimilarFacts(catalog, course, courseId, k);
      Some(Head(ByCount(Filter(catalog, SameKind(course, courseId))), k))
  }

  /** The pool of `get_similar_courses_by_metadata`: same subject, same level, another id. */
  function SameKind(course: Course, courseId: string): Course -> bool {
    (c: Course) => c.subject == course.subject && c.level == course.level && c.id != courseId
  }

  lemma SimilarFacts(catalog: seq<Course>, course: Course, courseId: string, k: int)
    ensures var pool := Filter(catalog, SameKind(course, courseId));
            var r := Head(ByCount(pool), k);
            && (forall i :: 0 <= i < |r| ==>
                  && r[i] in catalog && r[i].id != courseId
                  && r[i].subject == course.subject && r[i].level == course.level)
            && SortedBy(r, PyMoreSubscribers)
            && multiset(r) <= multiset(catalog)
            && (|r| < k ==> forall i :: 0 <= i < |catalog| ==>
                  (catalog[i].id != courseId && catalog[i].subject == course.subject
                   && catalog[i].level == course.level) ==> catalog[i] in r)
  {
    var pool := Filter(catalog, SameKind(course, courseId));
    var sorted := ByCount(pool);
    var r := Head(sorted, k);
    SortByElements(pool, PyMoreSubscribers);
    PrefixSortedBy(sorted, |r|);
    PrefixMultiset(sorted, |r|);
    FilterIsSubseq(catalog, SameKind(course, courseId));
    forall i | 0 <= i < |r|
      ensures r[i] in catalog && r[i].id != courseId && r[i].subject == course.subject && r[i].level == course.level
    {
      assert r[i] == sorted[i];
      assert SameKind(course, courseId)(r[i]);
    }
    if |r| < k {
      assert r == sorted;
      forall i | 0 <= i < |catalog| && catalog[i].id != courseId && catalog[i].subject == course.subject
                 && catalog[i].level == course.level
        ensures catalog[i] in r
      {
        assert SameKind(course, courseId)(catalog[i]);
      }
    }
  }

  /** The similar courses are the most subscribed of their pool: a course of the same subject
      and level that they leave out ranks no higher by count than any course they hold. */
  lemma SimilarIsTop(catalog: seq<Course>, courseId: string, k: int, x: Course, y: Course)
    requires SimilarByMetadata(catalog, courseId, k).Some?
    requires var course := FindById(catalog, courseId).value;
             x.subject == course.subject && x.level == course.level && x.id != courseId
    requires multiset(SimilarByMetadata(catalog, courseId, k).value)[x] < multiset(catalog)[x]
    requires y in SimilarByMetadata(catalog, courseId, k).value
    ensures PyMoreSubscribers(y, x)
  {
    var course := FindById(catalog, courseId).value;
    var pool := Filter(catalog, SameKind(course, courseId));
    var sorted := ByCount(pool);
    var r := SimilarByMetadata(catalog, courseId, k).value;
    assert r == sorted[..|r|];
    FilterKeepsCount(catalog, SameKind(course, courseId), x);
    TopOfSorted(sorted, PyMoreSubscribers, |r|, x, y);
  }

  /** A prefix of an ordered sequence is ordered. */
  lemma PrefixSortedBy(s: seq<Course>, n: nat)
    requires n <= |s| && SortedBy(s, PyMoreSubscribers)
    ensures SortedBy(s[..n], PyMoreSubscribers)
  {
    assert forall i :: 0 <= i < n ==> s[..n][i] == s[i];
  }

  /** The value `display_courses` returns: `start` for an empty list, else the end of the page. */
  function DisplayEnd(n: nat, start: int): (e: int)
    ensures n == 0 ==> e == start
    ensures n > 0 ==> e == Min(start + PerPage, n)
    ensures n > 0 && 0 <= start < n ==> start < e <= n && e - start <= PerPage
  {
    if n == 0 then start else Min(start + PerPage, n)
  }

  /** The paging controls printed under a non-empty page; "Back" is always offered. */
  datatype Controls = Controls(previous: bool, next: bool)

  /** "Previous" is offered exactly when `P` moves the page back, and "Next" exactly when `N`
      moves it on; on a page boundary that is one page in, and one more page to come. */
  function PageControls(n: nat, start: int): (c: Controls)
    requires n > 0
    ensures c.previous <==> Step(n, start, Previous).start != start
    ensures c.next <==> Step(n, start, Next).start != start
    ensures c.next <==> start + PerPage < n
    ensures 0 <= start && start % PerPage == 0 ==> (c.previous <==> start >= PerPage)
  {
    Controls(start > 0, DisplayEnd(n, start) < n)
  }

  /** A typed line, once stripped and upper-cased. */
  datatype Choice = Back | Previous | Next | Number(value: int) | Unknown

  /** `input(...).strip().upper()` compared with `B`, `P`, `N`, and checked with `isdigit()`. */
  function ParseChoice(line: string): (c: Choice)
    ensures c == Back <==> Upper(Strip(line)) == "B"
    ensures c == Previous <==> Upper(Strip(line)) == "P"
    ensures c == Next <==> Upper(Strip(line)) == "N"
    ensures c.Number? <==> IsNumeral(Upper(Strip(line)))
    ensures c.Number? ==> c.value == DigitsValue(Upper(Strip(line)), 10)
  {
    var t := Upper(Strip(line));
    if t == "B" then Back
    else if t == "P" then Previous
    else if t == "N" then Next
    else if IsNumeral(t) then Number(DigitsValue(t, 10))
    else Unknown
  }

  /** `t.isdigit()`: a non-empty string of decimal digits. */
  predicate IsNumeral(t: string) {
    t != [] && forall k :: 0 <= k < |t| ==> IsDecimalDigit(t[k])
  }

  /** Typing the number shown next to an entry selects that number. */
  lemma ParseChoiceNumber(n: nat)
    ensures ParseChoice(CourseCard.DecimalString(n)) == Number(n)
  {
    var ds := CourseCard.DecimalString(n);
    assert !IsPySpace(ds[0]) && !IsPySpace(ds[|ds| - 1]);
    assert LeadingSpaces(ds, 0) == 0;
    assert TrailingEnd(ds, |ds|, 0) == |ds|;
    assert Strip(ds) == ds;
    assert Upper(ds) == ds;
    CourseCard.DecimalStringValue(n);
  }

  /** What one choice other than `B` does on a list of `n` courses shown from `start`. */
  datatype Move = Move(start: int, details: Option<nat>)

  function Step(n: nat, start: int, c: Choice): (m: Move)
    ensures c == Previous && start > 0 ==> m == Move(Max(0, start - PerPage), None)
    ensures c == Next && DisplayEnd(n, start) < n ==> m == Move(DisplayEnd(n, start), None)
    ensures c.Number? && 1 <= c.value <= n ==> m == Move(start, Some(c.value - 1))
    ensures m.details.Some? <==> c.Number? && 1 <= c.value <= n
    ensures m.details.Some? ==> m.details.value < n
    ensures m.start != start ==> c == Previous || c == Next
  {
    if c == Previous && start > 0 then Move(Max(0, start - PerPage), None)
    else if c == Next && DisplayEnd(n, start) < n then Move(DisplayEnd(n, start), None)
    else if c.Number? && 1 <= c.value <= n then Move(start, Some(c.value - 1))
    else Move(start, None)
  }

  /** Where a screen ends up and which courses (0-based positions) it opened the details of. */
  datatype Session = Session(start: int, details: seq<nat>)

  function DetailsSeq(o: Option<nat>): seq<nat> {
    match o
    case Some(i) => [i]
    case None => []
  }

  /** The screen's loop, read from the remaining lines. */
  function Run(n: nat, start: int, lines: seq<string>): (s: Session)
    decreases |lines|
  {
    if lines == [] then Session(start, [])
    else
      var c := ParseChoice(lines[0]);
      if c == Back then Session(start, [])
      else
        var m := Step(n, start, c);
        var rest := Run(n, m.start, lines[1..]);
        Session(rest.start, DetailsSeq(m.details) + rest.details)
  }

  /** One choice keeps the first shown position a page boundary on the list, and only opens
      courses on the list. */
  lemma StepStaysOnList(n: nat, start: int, c: Choice)
    requires 0 <= start && start % PerPage == 0 && (n > 0 ==> start < n)
    ensures var m := Step(n, start, c);
            && 0 <= m.start && m.start % PerPage == 0 && (n > 0 ==> m.start < n)
            && (m.details.Some? ==> m.details.value < n)
  {
    var m := Step(n, start, c);
    if c == Previous && start > 0 {
      assert m.start == start - PerPage;
    } else if c == Next && DisplayEnd(n, start) < n {
      assert m.start == start + PerPage;
    }
  }

  /** The first shown position stays a page boundary, stays on the list, and every course whose
      details were opened is on the list. */
  lemma {:induction false} RunStaysOnList(n: nat, start: int, lines: seq<string>)
    requires 0 <= start && start % PerPage == 0 && (n > 0 ==> start < n)
    ensures var s := Run(n, start, lines);
            && 0 <= s.start && s.start % PerPage == 0 && (n > 0 ==> s.start < n)
            && forall i :: 0 <= i < |s.details| ==> s.details[i] < n
    decreases |lines|
  {
    if lines != [] && ParseChoice(lines[0]) != Back {
      var m := Step(n, start, ParseChoice(lines[0]));
      StepStaysOnList(n, start, ParseChoice(lines[0]));
      RunStaysOnList(n, m.start, lines[1..]);
    }
  }

  /** The `while True` loop of `browse_all_courses`, `browse_by_subject` and
      `show_recommendations` over a list of `n` courses. */
  method Browse(n: nat, lines: seq<string>) returns (start: int, details: seq<nat>)
    ensures Session(start, details) == Run(n, 0, lines)
    ensures 0 <= start && start % PerPage == 0 && (n > 0 ==> start < n)
    ensures forall i :: 0 <= i < |details| ==> details[i] < n
  {
    start, details := 0, [];
    var i := 0;
    assert lines[0..] == lines;
    while i < |lines|
      invariant 0 <= i <= |lines|
      invariant 0 <= start && start % PerPage == 0 && (n > 0 ==> start < n)
      invariant Resumes(n, lines, i, start, details)
      decreases |lines| - i
    {
      var choice := ParseChoice(lines[i]);
      if choice == Back {
        break;
      }
      var move := Step(n, start, choice);
      StepStaysOnList(n, start, choice);
      ResumesAfterStep(n, lines, i, start, details);
      details := details + DetailsSeq(move.details);
      start := move.start;
      i := i + 1;
    }
    ResumesAtEnd(n, lines, i, start, details);
    RunStaysOnList(n, 0, lines);
  }

  /** The loop state after `i` lines: finishing the screen from `start` on the remaining lines
      completes the screen's run over all of them. */
  ghost predicate Resumes(n: nat, lines: seq<string>, i: nat, start: int, details: seq<nat>)
    requires i <= |lines|
  {
    var rest := Run(n, start, lines[i..]);
    Run(n, 0, lines) == Session(rest.start, details + rest.details)
  }

  lemma ResumesAfterStep(n: nat, lines: seq<string>, i: nat, start: int, details: seq<nat>)
    requires i < |lines| && ParseChoice(lines[i]) != Back
    requires Resumes(n, lines, i, start, details)
    ensures var m := Step(n, start, ParseChoice(lines[i]));
            Resumes(n, lines, i + 1, m.start, details + DetailsSeq(m.details))
  {
    var m := Step(n, start, ParseChoice(lines[i]));
    var tail := lines[i..];
    assert tail[0] == lines[i] && tail[1..] == lines[i + 1..];
    RunCons(n, start, tail);
    var rest := Run(n, m.start, lines[i + 1..]);
    assert details + (DetailsSeq(m.details) + rest.details) == details + DetailsSeq(m.details) + rest.details;
  }

  /** A line other than `B` takes one step, and the screen goes on from there. */
  lemma RunCons(n: nat, start: int, lines: seq<string>)
    requires lines != [] && ParseChoice(lines[0]) != Back
    ensures var m := Step(n, start, ParseChoice(lines[0]));
            var rest := Run(n, m.start, lines[1..]);
            Run(n, start, lines) == Session(rest.start, DetailsSeq(m.details) + rest.details)
  {
  }

  lemma ResumesAtEnd(n: nat, lines: seq<string>, i: nat, start: int, details: seq<nat>)
    requires i <= |lines| && Resumes(n, lines, i, start, details)
    requires i == |lines| || ParseChoice(lines[i]) == Back
    ensures Run(n, 0, lines) == Session(start, details)
  {
    assert lines[i..] == [] || lines[i..][0] == lines[i];
    assert details + [] == details;
  }

  /** `browse_by_subject`'s menu over the sorted subjects: a number in range picks that
      subject; `B` and anything else leave the screen. */
  function PickSubject(catalog: seq<Course>, line: string): (r: Option<string>)
    ensures r.Some? ==> exists i :: 0 <= i < |catalog| && catalog[i].subject == r.value
    ensures r.Some? <==> var c := ParseChoice(line);
              c.Number? && 1 <= c.value <= |CatalogPage.Subjects(catalog)|
    ensures r.Some? ==> r.value == CatalogPage.Subjects(catalog)[ParseChoice(line).value - 1]
  {
    var subjects := CatalogPage.Subjects(catalog);
    var c := ParseChoice(line);
    if c.Number? && 1 <= c.value <= |subjects| then
      var picked := subjects[c.value - 1];
      assert picked in subjects;
      Some(picked)
    else None
  }

  /** The list a picked subject pages through: its courses, by count. */
  function SubjectCourses(catalog: seq<Course>, subject: string): (r: seq<Course>)
    ensures forall i :: 0 <= i < |r| ==> r[i] in catalog && r[i].subject == subject
    ensures forall i :: 0 <= i < |catalog| && catalog[i].subject == subject ==> catalog[i] in r
    ensures SortedBy(r, PyMoreSubscribers)
    ensures forall x :: multiset(r)[x] == if x.subject == subject then multiset(catalog)[x] else 0
  {
    var r := PreferredBlock(catalog, [subject]);
    forall x ensures multiset(r)[x] == if x.subject == subject then multiset(catalog)[x] else 0 {
      if x.subject == subject {
        FilterKeepsCount(catalog, OfSubjects([subject]), x);
      } else {
        FilterDropsCount(catalog, OfSubjects([subject]), x);
      }
    }
    r
  }

  /** `change_user`: a blank line picks `randomPick` (the random draw, an input); a known id is
      taken as typed, without its surrounding whitespace; anything else gives the default user. */
  function ChangeUser(line: string, knownUsers: seq<string>, randomPick: string): (u: string)
    ensures Strip(line) == [] ==> u == randomPick
    ensures Strip(line) != [] && Strip(line) in knownUsers ==> u == Strip(line)
    ensures Strip(line) != [] && Strip(line) !in knownUsers ==> u == DefaultUser
    ensures randomPick in knownUsers ==> u in knownUsers || u == DefaultUser
  {
    var typed := Strip(line);
    if typed == [] then randomPick
    else if typed in knownUsers then typed
    else DefaultUser
  }
}
