# Course recommender: ranking, filtering and validation core in Dafny

This project models the decision logic of a course-recommendation platform. The platform has a
Next.js front end with API routes, and Python back ends. They all work on one CSV catalog of
online courses. The model covers:

- **Debug recommendations route** (`GET /api/debug-recommendations`). Candidates are courses
  the user has not recently viewed. Each is scored 200 for a viewed subject, 50 for a viewed
  level, up to 5 for popularity, plus a random draw in [0, 2). The route keeps the top 20 and
  splits them by the subject of the most recently viewed course.
- **Subject-diversity route** (`GET /api/test-different-subjects`). Up to five subjects the user
  has not viewed, each with its three most subscribed courses. Next to them, the current
  same-subject suggestions.
- **Recommendations route** (`GET /api/recommendations`). Query parameter defaults, the backend
  answer, and the popularity fallback: the catalog sorted by subscribers, cut to `topK`.
- **Flask recommender** (`recommend_courses_to_user`). Popular courses for an unknown user. For a
  known user, courses of their preferred subjects, padded with other subjects' courses.
- **Signup route**. A per-IP fixed-window rate limiter: at most 5 attempts per 15 minutes, kept
  in a process-wide map. Then the checks on required fields, email shape and password strength,
  and the existing-user conflict.
- **Catalog page**. The search, subject and level filters, and the sorted drop-down options.
- **Course card**. The price label, the level badge colour, and the subscriber label branch.
- **Terminal browser** (`course_recommender.py`). Similar courses by subject and level, the page
  arithmetic, the P/N/number paging loop, the subject menu, and `change_user`.

A catalog record is the `Catalog.Course` datatype. Its fields are id, title, subject, level and
price, plus the subscriber and review counts as `Option<int>`. `None` means the CSV text does
not parse as an integer (JavaScript `NaN`, a pandas missing value).

Every JavaScript `Array.prototype.sort` is modelled by one stable insertion sort,
`Sorting.SortBy`, driven by a "may precede" predicate. Under a total preorder a stable sort has
exactly one result, so the model's order is the route's order.

`.slice(0, k)` and pandas `head(k)` are `Seqs.Head`; a negative `k` drops elements from the end.
`[...new Set(xs)]` and pandas `unique()` are `Seqs.Dedup`, which keeps first-occurrence order.

The model is pure functions and lemmas wherever the code is expression-shaped. There are three
exceptions:

- the signup rate limiter is a class (`Signup.RateLimiter`) with a map field, updated in place;
- `filterCourses` is a method (`CatalogPage.Page.FilterCourses`) that reassigns a local list
  step by step;
- the terminal paging loop is a method with a `while` loop (`Browse.Browse`).

Each of these methods is proved equal to a specification function. The properties are then
proved about that function.

Clocks, random draws, keyboard input, the backend's answer and the user lookup are parameters:

- `Date.now()` is `now`;
- `Math.random() * 2` is a sequence of draws, the i-th going to the i-th candidate;
- the typed lines are a sequence of strings;
- the backend's reply is an `Option`;
- whether a user with the email exists is a boolean.

## Model

| member | source | states |
|---|---|---|
| Seqs.Head | course-recommender-platform/src/app/api/recommendations/route.ts:43 | `slice(0, k)` keeps the first min(k, n) elements for k ≥ 0, and all but the last −k (at least none) for k < 0; the result is a prefix of the input |
| Seqs.Filter | course-recommender-platform/src/app/api/debug-recommendations/route.ts:37-39 | `filter` keeps exactly the elements satisfying the predicate (both directions), and never more of them than the input has |
| Seqs.FilterIsSubseq | course-recommender-platform/src/app/api/debug-recommendations/route.ts:37-39 | the kept elements are a subsequence of the input, so none is kept more often than it occurs |
| Seqs.HeadOfFilter | course-recommender-platform/src/app/api/debug-recommendations/route.ts:79-81 | `filter(p).slice(0, n)` has min(n, matches) elements, all matching, taken from a prefix of the input with no match of that prefix skipped; every match when fewer than n |
| Seqs.Dedup | course-recommender-platform/src/app/api/debug-recommendations/route.ts:41 | `[...new Set(xs)]` has no repetitions and holds exactly the elements of `xs` |
| Seqs.DedupFirstOccurrenceOrder | course-recommender-platform/src/app/api/test-different-subjects/route.ts:26 | the distinct elements are listed in the order of their first occurrence in the input |
| Seqs.FilterPartition | api_server_simple.py:81-89 | a filter and the filter by the negated predicate together hold every element exactly as often as the input |
| Sorting.SortBy | course-recommender-platform/src/app/api/recommendations/route.ts:42 | sorting permutes the input: same multiset, same length |
| Sorting.SortByIsSorted | course-recommender-platform/src/app/api/debug-recommendations/route.ts:69 | with a consistent (total, transitive) comparator the sorted list is ordered by it |
| Sorting.TopOfSorted | course-recommender-platform/src/app/api/debug-recommendations/route.ts:69-70 | cutting a sorted list keeps the best: a left-out element ranks no higher than any kept one |
| Sorting.FilterHeadIsTop | course-recommender-platform/src/app/api/debug-recommendations/route.ts:79-86 | filtering a sorted list and cutting it keeps the best matching elements: a matching element left out ranks no higher than any kept one |
| Sorting.SortByAgree | course-recommender-platform/src/app/api/recommendations/route.ts:42 | two comparators that agree on the list's elements sort it identically |
| Text.Strip | course_recommender.py:273 | `strip()` removes only whitespace, only at the ends, and a non-empty result neither starts nor ends with whitespace |
| Text.ParseIntDecimal | course-recommender-platform/src/app/api/recommendations/route.ts:10 | `parseInt` of a plain decimal digit string is its decimal value |
| Text.StrLessTrichotomous | course-recommender-platform/src/app/page.tsx:72 | the default string order is total and asymmetric |
| Text.StrLessTransitive | course-recommender-platform/src/app/page.tsx:72 | the default string order is transitive |
| Catalog.BySubscribers | course-recommender-platform/src/app/api/test-different-subjects/route.ts:53-57 | the sort by `parseInt(..) \|\| 0` descending permutes its input and leaves it in non-increasing count order |
| Catalog.TopBySubscribers | course-recommender-platform/src/app/api/test-different-subjects/route.ts:53-58 | after that sort and a slice, a course left out has no more subscribers than any course kept |
| Catalog.MostSubscribed | course-recommender-platform/src/app/api/test-different-subjects/route.ts:77-82 | sort-then-slice(k) returns min(k, n) courses of the pool, non-increasing, none more often than in the pool, and the whole pool when fewer than k |
| Catalog.MostSubscribedIsTop | course-recommender-platform/src/app/api/test-different-subjects/route.ts:77-82 | a pool course left out has no more subscribers than any course returned |
| Catalog.FindById | course-recommender-platform/src/app/api/debug-recommendations/route.ts:74-76 | `find` gives nothing exactly when no record has the id, otherwise the first record with it |
| ViewHistory.ViewedCourses | course-recommender-platform/src/app/api/debug-recommendations/route.ts:36-39 | the viewed records are the catalog records whose id is a viewed id (both directions), in catalog order |
| ViewHistory.UserSubjects | course-recommender-platform/src/app/api/debug-recommendations/route.ts:41 | duplicate-free, and exactly the subjects of catalog records whose id was viewed; unresolved ids add nothing |
| ViewHistory.UserLevels | course-recommender-platform/src/app/api/debug-recommendations/route.ts:42 | duplicate-free, and exactly the levels of catalog records whose id was viewed |
| DebugRecommendations.Popularity | course-recommender-platform/src/app/api/debug-recommendations/route.ts:61-62 | the popularity bonus is at most 5, and not negative for a non-negative count |
| DebugRecommendations.Candidates | course-recommender-platform/src/app/api/debug-recommendations/route.ts:46 | candidates are exactly the catalog records whose id was not viewed, in catalog order |
| DebugRecommendations.ScoreAll | course-recommender-platform/src/app/api/debug-recommendations/route.ts:47-68 | one score per candidate, in order, each equal to 200·subject match + 50·level match + popularity + that candidate's draw; with draws in [0, 2) it lies in [base, base + 2) |
| DebugRecommendations.HigherScoreIsPreorder | course-recommender-platform/src/app/api/debug-recommendations/route.ts:69 | the score comparator is consistent |
| DebugRecommendations.ScoredCourses | course-recommender-platform/src/app/api/debug-recommendations/route.ts:45-70 | min(20, candidates) entries, none viewed, all from the catalog, in non-increasing score, each within its base bound when the draws are in range |
| DebugRecommendations.ScoredTakenFromCandidates | course-recommender-platform/src/app/api/debug-recommendations/route.ts:45-70 | the scored list holds scored candidates only, none more often than it was scored |
| DebugRecommendations.ScoredKeepsBest | course-recommender-platform/src/app/api/debug-recommendations/route.ts:69-70 | a scored candidate left out of the top 20 scores no higher than any kept one |
| DebugRecommendations.ScoredDistinct | course-recommender-platform/src/app/api/debug-recommendations/route.ts:45-70 | with a catalog listing each course once, the scored list names each course once |
| DebugRecommendations.SubjectMatchOutranks | course-recommender-platform/src/app/api/debug-recommendations/route.ts:50-69 | with draws in range, every course ahead of a subject-matching course (with a non-negative count) also matches a viewed subject |
| DebugRecommendations.MostRecentCourse | course-recommender-platform/src/app/api/debug-recommendations/route.ts:73-76 | no views gives no course; a found course is the catalog record of the latest view id; not found means no record has that id |
| DebugRecommendations.SameSubject | course-recommender-platform/src/app/api/debug-recommendations/route.ts:79-81 | min(5, matching) entries of the most recent course's subject, the first ones of the scored list (what the filter keeps from a prefix of it), empty when it did not resolve, and every such entry when fewer than 5 |
| DebugRecommendations.OtherSubject | course-recommender-platform/src/app/api/debug-recommendations/route.ts:84-86 | min(5, others) entries of other subjects, the first ones of the scored list, the top 5 when the most recent course did not resolve, and every such entry when fewer than 5 |
| DebugRecommendations.SameSubjectKeepsBest | course-recommender-platform/src/app/api/debug-recommendations/route.ts:79-81 | on a ranking by score, an entry of the subject left out of the split scores no higher than any entry kept |
| DebugRecommendations.OtherSubjectKeepsBest | course-recommender-platform/src/app/api/debug-recommendations/route.ts:84-86 | on a ranking by score, an entry of another subject left out of the split scores no higher than any entry kept |
| DebugRecommendations.TopRecommendationSubjects | course-recommender-platform/src/app/api/debug-recommendations/route.ts:133 | duplicate-free, and exactly the subjects of the first min(12, n) scored courses |
| DebugRecommendations.Report | course-recommender-platform/src/app/api/debug-recommendations/route.ts:88-136 | the inputs are reported as given; `topScoredCourses` is the prefix of length min(10, n) of the scored list; the two splits and the subject summary are `SameSubject`, `OtherSubject` and `TopRecommendationSubjects` of the scored list; the counts are the splits' lengths |
| DebugRecommendations.Debug | course-recommender-platform/src/app/api/debug-recommendations/route.ts:36-136 | `viewedCourses` counts view ids; subjects, levels and the most recent course are those of the view history; every list is the corresponding function of `ScoredCourses`; the counts match the lists; the 10/5/5 limits hold |
| DifferentSubjects.AllSubjects | course-recommender-platform/src/app/api/test-different-subjects/route.ts:26 | duplicate-free, and exactly the catalog's subjects |
| DifferentSubjects.AllSubjectsInCatalogOrder | course-recommender-platform/src/app/api/test-different-subjects/route.ts:26 | subjects are listed in order of first occurrence in the catalog |
| DifferentSubjects.GroupFor | course-recommender-platform/src/app/api/test-different-subjects/route.ts:50-70 | a group has at most 3 catalog courses, all of its subject, in non-increasing count, and every course of the subject when fewer than 3 |
| DifferentSubjects.GroupHoldsMostSubscribed | course-recommender-platform/src/app/api/test-different-subjects/route.ts:51-58 | a course of the subject left out of the group has no more subscribers than any course in it |
| DifferentSubjects.ChosenSubjects | course-recommender-platform/src/app/api/test-different-subjects/route.ts:47-49 | min(5, unviewed subjects) subjects, the first unviewed ones in catalog-subject order (what the filter keeps from a prefix of all subjects), duplicate-free, and every unviewed subject when fewer than 5 |
| DifferentSubjects.DifferentSubjectGroups | course-recommender-platform/src/app/api/test-different-subjects/route.ts:47-71 | one group per chosen subject, in the same order, each that subject's top-3 group, none for a viewed subject and no subject twice |
| DifferentSubjects.CurrentRecommendations | course-recommender-platform/src/app/api/test-different-subjects/route.ts:74-89 | at most 5 catalog courses, none viewed, all of a viewed subject, non-increasing count, no course more often than in the catalog, and every such course when fewer than 5 |
| DifferentSubjects.CurrentHoldsMostSubscribed | course-recommender-platform/src/app/api/test-different-subjects/route.ts:74-89 | an unviewed course of a viewed subject left out of the current suggestions has no more subscribers than any course in them |
| DifferentSubjects.NoResolvedViews | course-recommender-platform/src/app/api/test-different-subjects/route.ts:39-49 | with no resolvable views there are no user subjects, no current suggestions, and the groups go to the first five catalog subjects |
| DifferentSubjects.Report | course-recommender-platform/src/app/api/test-different-subjects/route.ts:91-98 | `userSubjects` and `currentRecommendations` are those of the view history; `viewedCourses` counts resolved records; `allAvailableSubjects` is the prefix of length min(10, n) of all subjects; the groups are those of the user's subjects |
| PopularityFallback.UserIdParam | course-recommender-platform/src/app/api/recommendations/route.ts:9 | an absent or empty `userId` becomes `user_0`, any other is kept |
| PopularityFallback.TopKDefault | course-recommender-platform/src/app/api/recommendations/route.ts:10 | an absent or empty `topK` becomes 10 |
| PopularityFallback.TopKDecimal | course-recommender-platform/src/app/api/recommendations/route.ts:10 | a decimal `topK` is read as its value |
| PopularityFallback.Fallback | course-recommender-platform/src/app/api/recommendations/route.ts:41-43 | `NaN` gives no courses; topK ≥ 0 gives exactly min(topK, n); negative topK drops from the end; no record more often than in the catalog |
| PopularityFallback.FallbackIsMostSubscribed | course-recommender-platform/src/app/api/recommendations/route.ts:41-43 | when every count parses, the fallback is the topK most subscribed courses, in non-increasing count order |
| PopularityFallback.FallbackKeepsTop | course-recommender-platform/src/app/api/recommendations/route.ts:41-43 | when every count parses, a catalog course not returned has no more subscribers than any returned |
| PopularityFallback.FallbackNoDuplicates | course-recommender-platform/src/app/api/recommendations/route.ts:41-43 | a catalog without repeated records gives a list without repeated records |
| PopularityFallback.Recommend | course-recommender-platform/src/app/api/recommendations/route.ts:13-59 | a backend answer is passed through; otherwise the answer is `Fallback` of the catalog under the parsed `topK`, of min(10, n) courses without a `topK` parameter |
| SimpleRecommender.KnownUsers | api_server_simple.py:57 | duplicate-free, and exactly the user ids that occur in the interactions |
| SimpleRecommender.PyMoreSubscribersIsPreorder | api_server_simple.py:65 | descending count with missing counts last is a consistent order |
| SimpleRecommender.ByCount | api_server_simple.py:83 | `sort_values(ascending=False)` permutes its input into that order |
| SimpleRecommender.Popular | api_server_simple.py:65 | min(top_k, n) courses for top_k ≥ 0, ordered by count, none more often than in the catalog |
| SimpleRecommender.PopularIsTop | api_server_simple.py:65 | a course left out of the popularity answer ranks no higher by count than any course in it |
| SimpleRecommender.PreferredSubjects | api_server_simple.py:70-78 | exactly the subjects of the user's interactions |
| SimpleRecommender.PreferredBlock | api_server_simple.py:81-83 | exactly the catalog courses of a preferred subject (both directions), ordered by count |
| SimpleRecommender.OtherBlock | api_server_simple.py:87-89 | exactly the catalog courses of any other subject (both directions), ordered by count |
| SimpleRecommender.BlocksPartition | api_server_simple.py:81-91 | the two blocks together hold every catalog record exactly as often as the catalog |
| SimpleRecommender.Ranked | api_server_simple.py:86-91 | the preferred block alone when it has at least top_k courses, otherwise the block followed by the padding, as long as the catalog |
| SimpleRecommender.Recommend | api_server_simple.py:60-95 | an unknown user gets the popularity answer; top_k ≥ 0 gives exactly min(top_k, n) courses; no record more often than in the catalog |
| SimpleRecommender.KnownUserHasInteractions | api_server_simple.py:70-75 | a known user always has interactions, so the second popularity answer is never given |
| SimpleRecommender.KnownUserRanked | api_server_simple.py:78-95 | a known user gets the first top_k of the padded ranking |
| SimpleRecommender.LongBlockAllPreferred | api_server_simple.py:86-93 | when the preferred block fills top_k, every course returned has a preferred subject, in count order |
| SimpleRecommender.PreferredComeFirst | api_server_simple.py:86-93 | no preferred course follows a non-preferred one, and within each block the order is by count |
| SimpleRecommender.RecommendNoDuplicates | api_server_simple.py:81-93 | a catalog without repeated records gives an answer without repeated records |
| Signup.LimitStep | course-recommender-platform/src/app/api/auth/signup/route.ts:11-26 | no entry or an expired window: entry (1, now + 15 min), not limited; count ≥ 5 in the window: limited, map unchanged; otherwise count + 1, not limited; other IPs untouched |
| Signup.LimitStepKeepsCounts | course-recommender-platform/src/app/api/auth/signup/route.ts:9-25 | stored counts stay between 1 and 5 |
| Signup.WindowAdmits | course-recommender-platform/src/app/api/auth/signup/route.ts:15-25 | within an open window with count c, successive calls are let through exactly min(calls, 5 − c) times |
| Signup.FreshWindowAdmitsFive | course-recommender-platform/src/app/api/auth/signup/route.ts:8-25 | from the call that opens a window until it closes, exactly min(calls, 5) are let through |
| Signup.RateLimiter.constructor | course-recommender-platform/src/app/api/auth/signup/route.ts:6 | the attempt map starts empty, which the limiter's invariant admits |
| Signup.RateLimiter.IsRateLimited | course-recommender-platform/src/app/api/auth/signup/route.ts:11-26 | the in-place update of the map and the answer are those of `LimitStep`, and counts stay in range |
| Signup.ClientIp | course-recommender-platform/src/app/api/auth/signup/route.ts:31 | request IP first, then `x-forwarded-for`, then `unknown` when both are absent or empty; never empty |
| Signup.EmailRegexIsShape | course-recommender-platform/src/app/api/auth/signup/route.ts:50-51 | the email regex accepts exactly: one `@`, no whitespace, text before the `@`, and a `.` after it with text on both sides |
| Signup.Utf16Length | course-recommender-platform/src/app/api/auth/signup/route.ts:59 | `length` counts code units: between the number of characters and twice that |
| Signup.Utf16LengthBmp | course-recommender-platform/src/app/api/auth/signup/route.ts:59 | within the Basic Multilingual Plane the code-unit count is the character count |
| Signup.PasswordCheck | course-recommender-platform/src/app/api/auth/signup/route.ts:59-73 | a password passes exactly when it has at least 8 UTF-16 code units and its lowercase form is not in the weak list; it is too short exactly when under 8 code units |
| Signup.AstralPasswordLongEnough | course-recommender-platform/src/app/api/auth/signup/route.ts:59-62 | four characters beyond the Basic Multilingual Plane pass the length check, as `length` counts eight |
| Signup.WeakOnlyByLongEntries | course-recommender-platform/src/app/api/auth/signup/route.ts:59-73 | after the length check only `password` and `12345678` (in any case) are rejected as weak |
| Signup.Validate | course-recommender-platform/src/app/api/auth/signup/route.ts:42-85 | a missing field gives 400; then a bad email gives 400 invalid email, then a failed password check gives 400 with its reason, then an existing user gives 409; the user is created exactly when all of these pass |
| Signup.Post | course-recommender-platform/src/app/api/auth/signup/route.ts:28-85 | the rate limiter runs first on every request; 429 when it limits, otherwise the validation outcome |
| CatalogPage.Visible | course-recommender-platform/src/app/page.tsx:51-69 | a subsequence of the courses; every kept course passes every active criterion, and every course that passes is kept; no criteria gives all courses |
| CatalogPage.VisibleIff | course-recommender-platform/src/app/page.tsx:52-69 | a course is shown if and only if it passes every active criterion |
| CatalogPage.Page.constructor | course-recommender-platform/src/app/page.tsx:23-28 | the filter inputs start empty |
| CatalogPage.Page.FilterCourses | course-recommender-platform/src/app/page.tsx:51-70 | the three successive filters leave on screen the single filter by all active criteria; nothing else changes |
| CatalogPage.NotAfterIsPreorder | course-recommender-platform/src/app/page.tsx:72 | the default `sort()` order is consistent |
| CatalogPage.SortedDistinct | course-recommender-platform/src/app/page.tsx:72-73 | `[...new Set(xs)].sort()` is strictly increasing and holds exactly the elements of `xs` |
| CatalogPage.Subjects | course-recommender-platform/src/app/page.tsx:72 | strictly increasing, and exactly the subjects of the courses |
| CatalogPage.Levels | course-recommender-platform/src/app/page.tsx:73 | strictly increasing, and exactly the levels of the courses |
| CatalogPage.IncreasingNoDup | course-recommender-platform/src/app/page.tsx:72-73 | a strictly increasing option list is duplicate-free |
| CourseCard.FormatPrice | course-recommender-platform/src/components/CourseCard.tsx:26-29 | `Free` exactly when the lowercased price is `free`; otherwise `$` followed by the unchanged price |
| CourseCard.LevelColor | course-recommender-platform/src/components/CourseCard.tsx:41-54 | the four level labels (ignoring case) give green, yellow, red and blue, each exactly for its label; gray exactly for anything else |
| CourseCard.LevelColorIgnoresCase | course-recommender-platform/src/components/CourseCard.tsx:42 | levels equal up to letter case get the same colour |
| CourseCard.FormatSubscribers | course-recommender-platform/src/components/CourseCard.tsx:31-39 | exactly one branch: `M` for ≥ 1,000,000, `K` for [1000, 1,000,000), plain text below 1000, `NaN` when unparseable; read as exact integers, the plain text reads back as the count |
| CourseCard.DecimalStringValue | course-recommender-platform/src/components/CourseCard.tsx:38 | the decimal digits of n read back as n |
| CourseCard.IntToStringParses | course-recommender-platform/src/components/CourseCard.tsx:38 | for every integer n, positive or negative, reading back its decimal text gives n (integers are exact here, not doubles) |
| Browse.SimilarByMetadata | course_recommender.py:186-198 | an unknown id is an error; otherwise min(k, pool) other courses with the same subject and level, ordered by count, none more often than in the catalog, and all of them when fewer than k |
| Browse.SimilarIsTop | course_recommender.py:186-198 | a course of the same subject and level left out of the similar courses ranks no higher by count than any course kept |
| Browse.DisplayEnd | course_recommender.py:205-210 | an empty list returns `start`; otherwise min(start + 10, n), past `start` and within the list when `start` is on it |
| Browse.PageControls | course_recommender.py:220-226 | "Previous" is offered exactly when `P` would move the page, "Next" exactly when `N` would; "Next" exactly when another page follows, and on a page boundary "Previous" exactly from the second page on |
| Browse.ParseChoice | course_recommender.py:273-281 | `B`, `P` and `N` are recognised exactly for those stripped, upper-cased lines; a number exactly for a non-empty digit string, with its decimal value |
| Browse.ParseChoiceNumber | course_recommender.py:273-281 | typing the decimal digits of n selects number n |
| Browse.Step | course_recommender.py:275-286 | P with start > 0 goes back a page (not below 0); N moves to the page end only if it is before the list's end; a number 1..n opens position number − 1; nothing else moves |
| Browse.StepStaysOnList | course_recommender.py:277-283 | one step keeps the start a page boundary on the list and opens only positions on the list |
| Browse.RunStaysOnList | course_recommender.py:270-286 | over any input, the start stays a page boundary below n and every opened position is below n |
| Browse.Browse | course_recommender.py:263-286 | the paging loop ends where the screen's specification does, opening the same positions, with the start on the list |
| Browse.PickSubject | course_recommender.py:290-305 | a subject is picked exactly for a number 1..(number of subjects), and it is the subject at that position of the sorted menu |
| Browse.SubjectCourses | course_recommender.py:307 | exactly the courses of the subject, each as often as in the catalog, ordered by count |
| Browse.ChangeUser | course_recommender.py:402-420 | a blank line takes the random pick; a known id is kept as typed (stripped); anything else gives `user_0`; with a known random pick the current user is always known or `user_0` |

## Left out

- The personalised recommendation route that the debug route calls "the main algorithm" is not part of this model.
- The draw `Math.random()` is an input; the model states bounds only for draws in [0, 2).
- Score rounding (`Math.round(x * 100) / 100`) in the debug route's JSON is not modelled. Scores are exact reals, not IEEE doubles.
- The `toFixed(1)` digits of the `M` and `K` subscriber labels are not modelled: a label records the count it is made from.
- CSV parsing, file reads, the Prisma queries and the 401 session checks are not modelled. The same goes for Flask/Next.js routing, JSON responses and the 500 error paths: the catalog, the view ids and the interactions are given sequences.
- The `fetch` to the Python backend is an input (`Option` of its list); the network and status handling are not modelled.
- The JSON projections onto fewer fields keep every field the model has unchanged. `num_lectures` and `content_duration` are not part of the course record.
- PopularityFallback.Fallback: when some subscriber count does not parse, the comparator returns `NaN` and is inconsistent. JavaScript then leaves the order implementation-defined, so the model states the order only when every count parses.
- SimpleRecommender.ByCount: pandas `sort_values` is an unstable quicksort. The model keeps catalog order among equal counts, and its contracts do not depend on that choice.
- Python `sort_values` on a non-numeric `num_subscribers` column (sorting strings) is not modelled; counts are integers or missing.
- The Flask `/recommend` request handling (`data.get('topK', 10)`, the empty-result message) and the other Flask endpoints are not modelled.
- `create_user_interactions` (seeded numpy sampling) is not modelled: the interactions are an input.
- The TensorFlow model, its training and embedding similarity are not modelled, nor is all of `api_server.py`. `show_recommendations` is modelled only as the paging loop over a list of given length.
- Case mapping covers ASCII letters only (`toLowerCase`, `upper`). Python `isdigit` accepts ASCII digits only, and Python whitespace is ASCII and Latin-1 only.
- Validate and SignupBody: a JSON field that is not a string is modelled as absent (400, missing field). The route treats any truthy value as present: a numeric email gets 400 invalid email, a numeric name passes, and a numeric password reaches `toLowerCase` and ends in 500.
- String order compares characters by code point; this is UTF-16 code-unit order only within the Basic Multilingual Plane.
- Password hashing (bcrypt) and user creation are not modelled. The existing-user lookup is a boolean input.
- Browse.Browse: a screen ends at `B` or when the input lines run out. End of input (Python `EOFError`) and `view_course_details` (printing, nested menus) are not modelled, so `lines` are only the lines typed at the list prompt: the lines `view_course_details` reads after a number are not among them.
- CourseCard.FormatSubscribers and CourseCard.IntToStringParses: `parseInt` results are read as exact integers, not IEEE doubles. Counts beyond 2^53 (which round, and can tie in the `parseInt(b) - parseInt(a)` comparators) and plain labels at or below -10^21 (which `toString` writes in exponent form, so they do not read back) are not modelled.
- Terminal printing, colours, `time.sleep` and the main menu loop of `run_interactive` are not modelled.
