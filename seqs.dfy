/** Sequence operations shared by the routes: the prefix slice, filtering, first-occurrence
    de-duplication (a JavaScript `Set` built from an array, or pandas `unique()`), and the
    subsequence relation used to state that a result keeps its source's order. */
module Seqs {
  import opened Basics

  /** `s.slice(0, k)` in JavaScript and `df.head(k)` in pandas: the first `k` elements, and for
      a negative `k` every element except the last `-k`. */
  function Head<T>(s: seq<T>, k: int): (r: seq<T>)
    ensures |r| == (if k >= 0 then Min(k, |s|) else Max(0, |s| + k))
    ensures r == s[..|r|]
  {
    if k >= |s| then s
    else if k >= 0 then s[..k]
    else if |s| + k >= 0 then s[..|s| + k]
    else []
  }

  /** `r` can be obtained from `s` by deleting elements: same elements, same relative order. */
  ghost predicate Subseq<T>(r: seq<T>, s: seq<T>)
    decreases |s|
  {
    r == [] || (s != [] && ((r[0] == s[0] && Subseq(r[1..], s[1..])) || Subseq(r, s[1..])))
  }

  lemma {:induction false} SubseqRefl<T>(s: seq<T>)
    ensures Subseq(s, s)
    decreases |s|
  {
    if s != [] {
      SubseqRefl(s[1..]);
    }
  }

  lemma {:induction false} SubseqTrans<T>(a: seq<T>, b: seq<T>, c: seq<T>)
    requires Subseq(a, b) && Subseq(b, c)
    ensures Subseq(a, c)
    decreases |c|
  {
    if a == [] {
    } else if Subseq(b, c[1..]) {
      SubseqTrans(a, b, c[1..]);
    } else {
      assert b[0] == c[0] && Subseq(b[1..], c[1..]);
      if a[0] == b[0] && Subseq(a[1..], b[1..]) {
        SubseqTrans(a[1..], b[1..], c[1..]);
      } else {
        SubseqTrans(a, b[1..], c[1..]);
      }
    }
  }

  lemma {:induction false} PrefixSubseq<T>(s: seq<T>, n: nat)
    requires n <= |s|
    ensures Subseq(s[..n], s)
    decreases |s|
  {
    if n > 0 {
      PrefixSubseq(s[1..], n - 1);
      assert s[..n][1..] == s[1..][..n - 1];
    }
  }

  /** Every element of a subsequence occurs in the whole at least as often. */
  lemma {:induction false} SubseqMultiset<T>(r: seq<T>, s: seq<T>)
    requires Subseq(r, s)
    ensures multiset(r) <= multiset(s)
    decreases |s|
  {
    if r == [] {
    } else if r[0] == s[0] && Subseq(r[1..], s[1..]) {
      SubseqMultiset(r[1..], s[1..]);
      assert r == [r[0]] + r[1..];
      assert s == [s[0]] + s[1..];
    } else {
      SubseqMultiset(r, s[1..]);
      assert s == [s[0]] + s[1..];
    }
  }

  /** `s.filter(p)`: the elements of `s` that satisfy `p`, in their original order. */
  function Filter<T>(s: seq<T>, p: T -> bool): (r: seq<T>)
    ensures forall i :: 0 <= i < |r| ==> r[i] in s && p(r[i])
    ensures forall i :: 0 <= i < |s| && p(s[i]) ==> s[i] in r
    ensures |r| <= |s|
    decreases |s|
  {
    if s == [] then []
    else if p(s[0]) then [s[0]] + Filter(s[1..], p)
    else Filter(s[1..], p)
  }

  /** A filter keeps the order of what it keeps. */
  lemma {:induction false} FilterIsSubseq<T>(s: seq<T>, p: T -> bool)
    ensures Subseq(Filter(s, p), s)
    ensures multiset(Filter(s, p)) <= multiset(s)
    decreases |s|
  {
    if s != [] {
      FilterIsSubseq(s[1..], p);
    }
    SubseqMultiset(Filter(s, p), s);
  }

  /** Two filters in a row keep exactly what one filter on the conjunction keeps. */
  lemma {:induction false} FilterFilter<T>(s: seq<T>, p: T -> bool, q: T -> bool, pq: T -> bool)
    requires forall x :: pq(x) == (p(x) && q(x))
    ensures Filter(Filter(s, p), q) == Filter(s, pq)
    decreases |s|
  {
    if s != [] {
      FilterFilter(s[1..], p, q, pq);
      if p(s[0]) {
        assert Filter(s, p) == [s[0]] + Filter(s[1..], p);
        assert Filter(s, p)[1..] == Filter(s[1..], p);
      }
    }
  }

  /** A filter whose predicate holds everywhere keeps the whole sequence. */
  lemma {:induction false} FilterAll<T>(s: seq<T>, p: T -> bool)
    requires forall i :: 0 <= i < |s| ==> p(s[i])
    ensures Filter(s, p) == s
    decreases |s|
  {
    if s != [] {
      FilterAll(s[1..], p);
    }
  }

  predicate NoDup<T(==)>(s: seq<T>) {
    forall i, j :: 0 <= i < j < |s| ==> s[i] != s[j]
  }

  /** Position of the first occurrence of `x` in `s`. */
  function IndexOf<T(==)>(s: seq<T>, x: T): (r: nat)
    requires x in s
    ensures r < |s| && s[r] == x && x !in s[..r]
  {
    if s[0] == x then 0
    else
      var k := IndexOf(s[1..], x);
      assert s[..k + 1] == [s[0]] + s[1..][..k];
      k + 1
  }

  lemma IndexOfUnique<T>(s: seq<T>, x: T, k: nat)
    requires k < |s| && s[k] == x && x !in s[..k]
    ensures IndexOf(s, x) == k
  {
  }

  /** `[...new Set(s)]` and pandas `unique()`: each distinct element once, in the order of its
      first occurrence in `s`. */
  function Dedup<T(==)>(s: seq<T>): (r: seq<T>)
    ensures NoDup(r)
    ensures forall i :: 0 <= i < |r| ==> r[i] in s
    ensures forall i :: 0 <= i < |s| ==> s[i] in r
    ensures |r| <= |s|
    decreases |s|
  {
    if s == [] then []
    else
      var d := Dedup(s[..|s| - 1]);
      if s[|s| - 1] in d then d else d + [s[|s| - 1]]
  }

  /** The order of `Dedup(s)` is the order of first occurrences in `s`. */
  lemma {:induction false} DedupFirstOccurrenceOrder<T>(s: seq<T>, i: nat, j: nat)
    requires i < j < |Dedup(s)|
    ensures Dedup(s)[i] in s && Dedup(s)[j] in s
    ensures IndexOf(s, Dedup(s)[i]) < IndexOf(s, Dedup(s)[j])
    decreases |s|
  {
    var p := s[..|s| - 1];
    var d := Dedup(p);
    var last := s[|s| - 1];
    var x, y := Dedup(s)[i], Dedup(s)[j];
    assert i < |d| && x == d[i];
    IndexOfInit(s, x);
    if j < |d| {
      DedupFirstOccurrenceOrder(p, i, j);
      IndexOfInit(s, y);
    } else {
      assert y == last && y !in p;
      IndexOfUnique(s, y, |s| - 1);
    }
  }

  /** An element of all but the last position is first found where it is in that prefix. */
  lemma IndexOfInit<T>(s: seq<T>, x: T)
    requires s != [] && x in s[..|s| - 1]
    ensures x in s && IndexOf(s, x) == IndexOf(s[..|s| - 1], x)
  {
    var p := s[..|s| - 1];
    var k := IndexOf(p, x);
    assert p[..k] == s[..k];
    IndexOfUnique(s, x, k);
  }

  /** A filter and its complement split a sequence: together they hold every element exactly
      as often as the sequence does. */
  lemma {:induction false} FilterPartition<T>(s: seq<T>, p: T -> bool, q: T -> bool)
    requires forall x :: q(x) == !p(x)
    ensures multiset(Filter(s, p)) + multiset(Filter(s, q)) == multiset(s)
    decreases |s|
  {
    if s != [] {
      FilterPartition(s[1..], p, q);
      assert s == [s[0]] + s[1..];
    }
  }

  /** A filter keeps every copy of an element that satisfies its predicate. */
  lemma {:induction false} FilterKeepsCount<T>(s: seq<T>, p: T -> bool, x: T)
    requires p(x)
    ensures multiset(Filter(s, p))[x] == multiset(s)[x]
    decreases |s|
  {
    if s != [] {
      FilterKeepsCount(s[1..], p, x);
      assert s == [s[0]] + s[1..];
    }
  }

  /** The first `n` elements a filter keeps are exactly what it keeps from some prefix
      `s[..k]`: nothing kept lies behind something the filter leaves out of those `n`. */
  lemma {:induction false} FilterPrefix<T>(s: seq<T>, p: T -> bool, n: nat) returns (k: nat)
    requires n <= |Filter(s, p)|
    ensures k <= |s| && Filter(s[..k], p) == Filter(s, p)[..n]
    decreases |s|
  {
    if n == 0 {
      assert Filter(s[..0], p) == Filter(s, p)[..0];
      return 0;
    }
    var tail := s[1..];
    var front := if p(s[0]) then [s[0]] else [];
    var m := n - |front|;
    assert 0 <= m <= |Filter(tail, p)| by {
      FilterCons(s, p);
    }
    var k' := FilterPrefix(tail, p, m);
    FilterConsPrefix(s, p, k');
    FilterCons(s, p);
    assert (front + Filter(tail, p))[..n] == front + Filter(tail, p)[..m];
    k := k' + 1;
  }

  /** `filter(p).slice(0, n)`: the first `n` elements satisfying `p` (all of them when there
      are fewer), taken in order from a prefix of `s` whose every such element they hold. */
  lemma HeadOfFilter<T>(s: seq<T>, p: T -> bool, n: nat)
    ensures var r := Head(Filter(s, p), n);
            && |r| == Min(n, |Filter(s, p)|)
            && (exists k :: 0 <= k <= |s| && r == Filter(s[..k], p))
            && (forall i :: 0 <= i < |r| ==> r[i] in s && p(r[i]))
            && (|r| < n ==> forall i :: 0 <= i < |s| && p(s[i]) ==> s[i] in r)
            && Subseq(r, s)
            && multiset(r) <= multiset(s)
  {
    var f := Filter(s, p);
    var r := Head(f, n);
    var k := FilterPrefix(s, p, |r|);
    FilterIsSubseq(s, p);
    PrefixSubseq(f, |r|);
    SubseqTrans(r, f, s);
    SubseqMultiset(r, s);
    forall i | 0 <= i < |r| ensures r[i] in s && p(r[i]) {
      assert r[i] == f[i];
    }
  }

  /** Filtering the first `k + 1` elements: the first element if it passes, then the filter of
      the next `k`. */
  lemma FilterConsPrefix<T>(s: seq<T>, p: T -> bool, k: nat)
    requires k < |s|
    ensures Filter(s[..k + 1], p) == (if p(s[0]) then [s[0]] else []) + Filter(s[1..][..k], p)
  {
    var pre := s[..k + 1];
    assert pre[0] == s[0] && pre[1..] == s[1..][..k];
    FilterCons(pre, p);
  }

  lemma FilterCons<T>(s: seq<T>, p: T -> bool)
    requires s != []
    ensures Filter(s, p) == (if p(s[0]) then [s[0]] else []) + Filter(s[1..], p)
  {
  }

  /** An element of `s` that passes both predicates survives both filters. */
  lemma InBothFilters<T>(s: seq<T>, p: T -> bool, q: T -> bool, x: T)
    requires x in s && p(x) && q(x)
    ensures x in Filter(Filter(s, p), q)
  {
    FilterKeepsCount(s, p, x);
    FilterKeepsCount(Filter(s, p), q, x);
    assert multiset(Filter(Filter(s, p), q))[x] == multiset(s)[x] > 0;
  }

  /** A filter drops every copy of an element that fails its predicate. */
  lemma FilterDropsCount<T>(s: seq<T>, p: T -> bool, x: T)
    requires !p(x)
    ensures multiset(Filter(s, p))[x] == 0
  {
  }

  /** A prefix holds no element more often than the whole sequence. */
  lemma PrefixMultiset<T>(s: seq<T>, n: nat)
    requires n <= |s|
    ensures multiset(s[..n]) <= multiset(s)
  {
    assert s == s[..n] + s[n..];
  }

  /** A sequence without repetitions holds each element at most once. */
  lemma {:induction false} NoDupCount<T>(s: seq<T>, x: T)
    requires NoDup(s)
    ensures multiset(s)[x] <= 1
    decreases |s|
  {
    if s != [] {
      assert s == [s[0]] + s[1..];
      assert NoDup(s[1..]) by {
        assert forall i :: 0 <= i < |s| - 1 ==> s[1..][i] == s[i + 1];
      }
      NoDupCount(s[1..], x);
      if s[0] == x {
        assert x !in s[1..] by {
          forall i | 0 <= i < |s[1..]| ensures s[1..][i] != x {
            assert s[1..][i] == s[i + 1];
          }
        }
      }
    }
  }

  /** Taking elements of a sequence without repetitions, each at most as often as it occurs,
      gives a sequence without repetitions. */
  lemma SubMultisetNoDup<T>(r: seq<T>, s: seq<T>)
    requires NoDup(s) && multiset(r) <= multiset(s)
    ensures NoDup(r)
  {
    forall i, j | 0 <= i < j < |r| ensures r[i] != r[j] {
      if r[i] == r[j] {
        assert r == r[..i] + [r[i]] + r[i + 1..j] + [r[j]] + r[j + 1..];
        assert multiset(r)[r[i]] >= 2;
        NoDupCount(s, r[i]);
      }
    }
  }

  /** Filters by predicates that agree on every element keep the same elements. */
  lemma {:induction false} FilterSame<T>(s: seq<T>, p: T -> bool, q: T -> bool)
    requires forall i :: 0 <= i < |s| ==> p(s[i]) == q(s[i])
    ensures Filter(s, p) == Filter(s, q)
    decreases |s|
  {
    if s != [] {
      assert forall i :: 0 <= i < |s[1..]| ==> s[1..][i] == s[i + 1];
      FilterSame(s[1..], p, q);
    }
  }
}
