/** The sort used by every ranking in the catalog: a stable sort driven by a comparator.
    `before(a, b)` holds when the comparator lets `a` stay ahead of `b` (a JavaScript comparator
    that returns a value <= 0 for `(a, b)`). Under a total preorder a stable sort has exactly one
    possible output, so this insertion sort yields what `Array.prototype.sort` yields. */
module Sorting {
  import opened Seqs


  ghost predicate SortedBy<T>(s: seq<T>, before: (T, T) -> bool) {
    forall i, j :: 0 <= i < j < |s| ==> before(s[i], s[j])
  }

  /** The comparator is total and transitive: it ranks any two values consistently. */
  ghost predicate TotalPreorder<T(!new)>(before: (T, T) -> bool) {
    && (forall a, b :: before(a, b) || before(b, a))
    && (forall a, b, c :: before(a, b) && before(b, c) ==> before(a, c))
  }

  /** Places `x` ahead of the first element it may precede; `x` goes ahead of equal
      elements, which keeps the sort stable when `x` came first in the input. */
  function Insert<T>(x: T, t: seq<T>, before: (T, T) -> bool): (r: seq<T>)
    ensures multiset(r) == multiset(t) + multiset{x}
    ensures |r| == |t| + 1
    decreases |t|
  {
    if t == [] || before(x, t[0]) then [x] + t
    else
      assert t == [t[0]] + t[1..];
      [t[0]] + Insert(x, t[1..], before)
  }

  function SortBy<T>(s: seq<T>, before: (T, T) -> bool): (r: seq<T>)
    ensures multiset(r) == multiset(s)
    ensures |r| == |s|
    decreases |s|
  {
    if s == [] then []
    else
      var rest := SortBy(s[1..], before);
      assert s == [s[0]] + s[1..];
      Insert(s[0], rest, before)
  }

  lemma {:induction false} InsertSorted<T(!new)>(x: T, t: seq<T>, before: (T, T) -> bool)
    requires TotalPreorder(before) && SortedBy(t, before)
    ensures SortedBy(Insert(x, t, before), before)
    decreases |t|
  {
    var r := Insert(x, t, before);
    if t == [] || before(x, t[0]) {
      assert r == [x] + t;
      forall i, j | 0 <= i < j < |r| ensures before(r[i], r[j]) {
        if i == 0 && j > 1 {
          assert before(x, t[0]) && before(t[0], t[j - 1]);
        }
      }
    } else {
      var tail := Insert(x, t[1..], before);
      InsertSorted(x, t[1..], before);
      assert r == [t[0]] + tail;
      forall j | 0 < j < |r| ensures before(t[0], r[j]) {
        var y := r[j];
        assert y == tail[j - 1];
        assert y in multiset(tail);
        if y == x {
          assert before(t[0], x);
        } else {
          assert y in multiset(t[1..]);
          var k :| 0 <= k < |t[1..]| && t[1..][k] == y;
          assert t[k + 1] == y;
        }
      }
    }
  }

  /** With a consistent comparator the result is ordered by it. */
  lemma {:induction false} SortByIsSorted<T(!new)>(s: seq<T>, before: (T, T) -> bool)
    requires TotalPreorder(before)
    ensures SortedBy(SortBy(s, before), before)
    decreases |s|
  {
    if s != [] {
      SortByIsSorted(s[1..], before);
      InsertSorted(s[0], SortBy(s[1..], before), before);
    }
  }

  /** Every element of the sorted sequence comes from the input, and conversely. */
  lemma SortByElements<T>(s: seq<T>, before: (T, T) -> bool)
    ensures forall i :: 0 <= i < |SortBy(s, before)| ==> SortBy(s, before)[i] in s
    ensures forall i :: 0 <= i < |s| ==> s[i] in SortBy(s, before)
  {
    var r := SortBy(s, before);
    forall i | 0 <= i < |r| ensures r[i] in s {
      assert r[i] in multiset(r);
    }
    forall i | 0 <= i < |s| ensures s[i] in r {
      assert s[i] in multiset(s);
    }
  }

  /** Cutting a sorted sequence after `n` elements keeps the best ones: an element that the
      prefix holds fewer times than the whole ranks no higher than anything kept. */
  lemma TopOfSorted<T>(s: seq<T>, before: (T, T) -> bool, n: nat, x: T, y: T)
    requires SortedBy(s, before) && n <= |s|
    requires multiset(s[..n])[x] < multiset(s)[x]
    requires y in s[..n]
    ensures before(y, x)
  {
    assert s == s[..n] + s[n..];
    assert multiset(s) == multiset(s[..n]) + multiset(s[n..]);
    assert x in multiset(s[n..]);
    var m :| 0 <= m < |s[n..]| && s[n..][m] == x;
    var i :| 0 <= i < n && s[..n][i] == y;
    assert s[i] == y && s[n + m] == x;
  }

  /** Filtering a sorted sequence leaves it sorted. */
  lemma {:induction false} FilterSortedBy<T>(s: seq<T>, p: T -> bool, before: (T, T) -> bool)
    requires SortedBy(s, before)
    ensures SortedBy(Filter(s, p), before)
    decreases |s|
  {
    if s != [] {
      var tail := s[1..];
      assert SortedBy(tail, before) by {
        forall i, j | 0 <= i < j < |tail| ensures before(tail[i], tail[j]) {
          assert tail[i] == s[i + 1] && tail[j] == s[j + 1];
        }
      }
      FilterSortedBy(tail, p, before);
      if p(s[0]) {
        var rest := Filter(tail, p);
        forall j | 0 <= j < |rest| ensures before(s[0], rest[j]) {
          var k :| 0 <= k < |tail| && tail[k] == rest[j];
          assert s[k + 1] == rest[j];
        }
        var r := Filter(s, p);
        assert r == [s[0]] + rest;
        forall i, j | 0 <= i < j < |r| ensures before(r[i], r[j]) {
          if i == 0 {
            assert r[j] == rest[j - 1];
          } else {
            assert r[i] == rest[i - 1] && r[j] == rest[j - 1];
          }
        }
      }
    }
  }

  /** The first `n` elements a filter keeps from a sorted sequence are the best it could keep:
      an element satisfying the filter that they hold fewer times than the sequence ranks no
      higher than any of them. */
  lemma FilterHeadIsTop<T>(s: seq<T>, p: T -> bool, before: (T, T) -> bool, n: int, x: T, y: T)
    requires SortedBy(s, before) && p(x)
    requires multiset(Head(Filter(s, p), n))[x] < multiset(s)[x]
    requires y in Head(Filter(s, p), n)
    ensures before(y, x)
  {
    var f := Filter(s, p);
    FilterKeepsCount(s, p, x);
    FilterSortedBy(s, p, before);
    var h := Head(f, n);
    assert h == f[..|h|];
    TopOfSorted(f, before, |h|, x, y);
  }

  /** Two comparators that agree on every pair of elements of `s` sort `s` the same way. */
  lemma {:induction false} SortByAgree<T>(s: seq<T>, before: (T, T) -> bool, before': (T, T) -> bool)
    requires forall i, j :: 0 <= i < |s| && 0 <= j < |s| ==> before(s[i], s[j]) == before'(s[i], s[j])
    ensures SortBy(s, before) == SortBy(s, before')
    decreases |s|
  {
    if s != [] {
      var tail := s[1..];
      assert forall i :: 0 <= i < |tail| ==> tail[i] == s[i + 1];
      SortByAgree(tail, before, before');
      var rest := SortBy(tail, before);
      SortByElements(tail, before);
      forall j | 0 <= j < |rest| ensures before(s[0], rest[j]) == before'(s[0], rest[j]) {
        var k :| 0 <= k < |tail| && tail[k] == rest[j];
        assert s[k + 1] == rest[j];
      }
      InsertAgree(s[0], rest, before, before');
    }
  }

  lemma {:induction false} InsertAgree<T>(x: T, t: seq<T>, before: (T, T) -> bool, before': (T, T) -> bool)
    requires forall j :: 0 <= j < |t| ==> before(x, t[j]) == before'(x, t[j])
    ensures Insert(x, t, before) == Insert(x, t, before')
    decreases |t|
  {
    if t != [] {
      assert forall j :: 0 <= j < |t[1..]| ==> t[1..][j] == t[j + 1];
      InsertAgree(x, t[1..], before, before');
    }
  }
}
