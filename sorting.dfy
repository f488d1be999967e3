/** The stable sort of ECMAScript 2019 `Array.prototype.sort`, for a
    comparator that orders consistently. A comparator `compare` is represented
    by the relation `le(a, b) == (compare(a, b) <= 0)`: when `le` is a total
    preorder, the stable sort under it has exactly one possible result, which
    `Sort` computes by insertion. */
module Sorting {
  import opened Prelude

  /** Every two elements are comparable, and the order is transitive. */
  ghost predicate TotalPreorder<T(!new)>(le: (T, T) -> bool) {
    && (forall a, b :: le(a, b) || le(b, a))
    && (forall a, b, c :: le(a, b) && le(b, c) ==> le(a, c))
  }

  ghost predicate SortedBy<T>(xs: seq<T>, le: (T, T) -> bool) {
    forall i, j :: 0 <= i < j < |xs| ==> le(xs[i], xs[j])
  }

  /** `xs[i]` is a least element of `xs` and nothing before it is as small. */
  ghost predicate FirstMinimum<T>(xs: seq<T>, le: (T, T) -> bool, i: int) {
    && 0 <= i < |xs|
    && (forall j :: 0 <= j < |xs| ==> le(xs[i], xs[j]))
    && (forall j :: 0 <= j < i ==> !le(xs[j], xs[i]))
  }

  /** The comparator that orders by `key` under the order `le` on keys. */
  function OrderBy<T, K>(key: T -> K, le: (K, K) -> bool): (T, T) -> bool {
    (a: T, b: T) => le(key(a), key(b))
  }

  /** The usual order on numbers: `(a, b) => a - b` as a comparator. */
  function RealLe(a: real, b: real): bool { a <= b }

  /** The elements equivalent to `y` under `le`. */
  function EquivalentTo<T>(le: (T, T) -> bool, y: T): T -> bool {
    (z: T) => le(y, z) && le(z, y)
  }

  /** `s` with `x` placed before the first element it is not greater than. */
  function Insert<T(==)>(x: T, s: seq<T>, le: (T, T) -> bool): (r: seq<T>)
    ensures multiset(r) == multiset(s) + multiset{x}
  {
    if |s| == 0 then [x]
    else if le(x, s[0]) then [x] + s
    else
      assert s == [s[0]] + s[1..];
      [s[0]] + Insert(x, s[1..], le)
  }

  /** Stable sort of `xs` under `le`. */
  function Sort<T(==)>(xs: seq<T>, le: (T, T) -> bool): (r: seq<T>)
    ensures |r| == |xs|
    ensures multiset(r) == multiset(xs)
  {
    if |xs| == 0 then []
    else
      var rest := Sort(xs[1..], le);
      assert multiset(xs) == multiset(xs[1..]) + multiset{xs[0]} by {
        assert xs == [xs[0]] + xs[1..];
      }
      Insert(xs[0], rest, le)
  }

  lemma RealLeIsTotalPreorder()
    ensures TotalPreorder(RealLe)
  {
  }

  lemma OrderByIsTotalPreorder<T(!new), K(!new)>(key: T -> K, le: (K, K) -> bool)
    requires TotalPreorder(le)
    ensures TotalPreorder(OrderBy(key, le))
  {
    var o := OrderBy(key, le);
    forall a, b ensures o(a, b) || o(b, a) {
      assert le(key(a), key(b)) || le(key(b), key(a));
    }
    forall a, b, c | o(a, b) && o(b, c) ensures o(a, c) {
      assert le(key(a), key(b)) && le(key(b), key(c));
    }
  }

  lemma {:induction false} InsertSorted<T(!new)>(x: T, s: seq<T>, le: (T, T) -> bool)
    requires TotalPreorder(le) && SortedBy(s, le)
    ensures SortedBy(Insert(x, s, le), le)
  {
    if |s| > 0 && !le(x, s[0]) {
      InsertSorted(x, s[1..], le);
      InsertAbove(x, s, le);
      ConsSorted(s[0], Insert(x, s[1..], le), le);
    } else if |s| > 0 {
      forall y | y in s ensures le(x, y) {
        var k :| 0 <= k < |s| && s[k] == y;
        if k > 0 {
          assert le(s[0], s[k]);
        }
      }
      ConsSorted(x, s, le);
    }
  }

  /** When `x` goes after the head of a sorted `s`, that head is below
      everything it is put in front of. */
  lemma InsertAbove<T(!new)>(x: T, s: seq<T>, le: (T, T) -> bool)
    requires TotalPreorder(le) && SortedBy(s, le) && |s| > 0 && !le(x, s[0])
    ensures forall y :: y in Insert(x, s[1..], le) ==> le(s[0], y)
  {
    var rest := Insert(x, s[1..], le);
    forall y | y in rest ensures le(s[0], y) {
      assert y in multiset(rest);
      if y != x {
        assert y in multiset(s[1..]);
        var k :| 0 <= k < |s[1..]| && s[1..][k] == y;
        assert s[k + 1] == y;
      }
    }
  }

  /** A head below every element of a sorted tail gives a sorted sequence. */
  lemma ConsSorted<T>(a: T, rest: seq<T>, le: (T, T) -> bool)
    requires SortedBy(rest, le) && forall y :: y in rest ==> le(a, y)
    ensures SortedBy([a] + rest, le)
  {
    var r := [a] + rest;
    forall i, j | 0 <= i < j < |r| ensures le(r[i], r[j]) {
      if i == 0 {
        assert r[j] in rest;
      } else {
        assert r[i] == rest[i - 1] && r[j] == rest[j - 1];
      }
    }
  }

  /** The sort puts its elements in order. */
  lemma {:induction false} SortSorted<T(!new)>(xs: seq<T>, le: (T, T) -> bool)
    requires TotalPreorder(le)
    ensures SortedBy(Sort(xs, le), le)
  {
    if |xs| > 0 {
      SortSorted(xs[1..], le);
      InsertSorted(xs[0], Sort(xs[1..], le), le);
    }
  }

  /** Among the elements equivalent to any `y`, insertion keeps `x` in front. */
  lemma {:induction false} InsertStable<T(!new)>(x: T, s: seq<T>, le: (T, T) -> bool, y: T)
    requires TotalPreorder(le)
    ensures Filter(Insert(x, s, le), EquivalentTo(le, y)) == Filter([x] + s, EquivalentTo(le, y))
  {
    if |s| > 0 && !le(x, s[0]) {
      InsertStable(x, s[1..], le, y);
      EquivalentToSame(le, y, x, s[0]);
      SwapPastFilter(x, s, Insert(x, s[1..], le), EquivalentTo(le, y));
    }
  }

  /** One step of `InsertStable`: moving `x` behind an element that `p`
      excludes whenever `p` keeps `x` does not change what `p` keeps. */
  lemma SwapPastFilter<T(!new)>(x: T, s: seq<T>, rest: seq<T>, p: T -> bool)
    requires |s| > 0 && !(p(x) && p(s[0]))
    requires Filter(rest, p) == Filter([x] + s[1..], p)
    ensures Filter([s[0]] + rest, p) == Filter([x] + s, p)
  {
    var s0, tail := s[0], s[1..];
    assert [s0] + tail == s;
    FilterCons(s0, rest, p);
    FilterCons(x, tail, p);
    FilterCons(x, s, p);
    FilterCons(s0, tail, p);
  }

  /** Two elements equivalent to the same `y` are ordered both ways. */
  lemma EquivalentToSame<T(!new)>(le: (T, T) -> bool, y: T, a: T, b: T)
    requires TotalPreorder(le)
    ensures EquivalentTo(le, y)(a) && EquivalentTo(le, y)(b) ==> le(a, b)
  {
    if EquivalentTo(le, y)(a) && EquivalentTo(le, y)(b) {
      assert le(a, y) && le(y, b);
    }
  }

  /** The sort is stable: the elements equivalent to any `y` come out in the
      order they went in. */
  lemma {:induction false} SortStable<T(!new)>(xs: seq<T>, le: (T, T) -> bool, y: T)
    requires TotalPreorder(le)
    ensures Filter(Sort(xs, le), EquivalentTo(le, y)) == Filter(xs, EquivalentTo(le, y))
  {
    if |xs| > 0 {
      var p := EquivalentTo(le, y);
      var s := Sort(xs[1..], le);
      SortStable(xs[1..], le, y);
      InsertStable(xs[0], s, le, y);
      FilterAppend([xs[0]], s, p);
      FilterAppend([xs[0]], xs[1..], p);
      assert xs == [xs[0]] + xs[1..];
    }
  }

  /** The first element of the sorted sequence is the first least element of
      the input: what `sorted[0]` picks. */
  lemma {:induction false} SortHead<T(!new)>(xs: seq<T>, le: (T, T) -> bool)
    requires TotalPreorder(le) && |xs| > 0
    ensures exists i :: FirstMinimum(xs, le, i) && Sort(xs, le)[0] == xs[i]
  {
    var s := Sort(xs[1..], le);
    if |xs| == 1 {
      assert le(xs[0], xs[0]);
      assert FirstMinimum(xs, le, 0);
    } else {
      SortHead(xs[1..], le);
      var i' :| FirstMinimum(xs[1..], le, i') && s[0] == xs[1..][i'];
      if le(xs[0], s[0]) {
        assert le(xs[0], xs[0]);
        forall j | 0 < j < |xs| ensures le(xs[0], xs[j]) {
          assert le(s[0], xs[1..][j - 1]);
        }
        assert FirstMinimum(xs, le, 0);
      } else {
        assert le(s[0], xs[0]);
        forall j | 0 <= j < |xs| ensures le(xs[1 + i'], xs[j]) {
          if j > 0 {
            assert xs[j] == xs[1..][j - 1];
          }
        }
        forall j | 0 <= j < 1 + i' ensures !le(xs[j], xs[1 + i']) {
          if j > 0 {
            assert xs[j] == xs[1..][j - 1];
          }
        }
        assert FirstMinimum(xs, le, 1 + i');
      }
    }
  }

  lemma {:induction false} InsertDistinct<T(!new)>(x: T, s: seq<T>, le: (T, T) -> bool)
    requires Distinct(s) && x !in s
    ensures Distinct(Insert(x, s, le))
  {
    if |s| > 0 && !le(x, s[0]) {
      assert s == [s[0]] + s[1..];
      InsertDistinct(x, s[1..], le);
      var rest := Insert(x, s[1..], le);
      assert s[0] !in s[1..] by {
        forall k | 0 <= k < |s[1..]| ensures s[1..][k] != s[0] {
          assert s[1..][k] == s[k + 1];
        }
      }
      assert s[0] != x by {
        assert s[0] in s;
      }
      assert multiset(rest) == multiset(s[1..]) + multiset{x};
      assert s[0] !in multiset(rest);
      DistinctAppend([s[0]], rest);
    } else if |s| > 0 {
      DistinctAppend([x], s);
    }
  }

  /** Sorting a sequence without repetitions gives one without repetitions. */
  lemma {:induction false} SortDistinct<T(!new)>(xs: seq<T>, le: (T, T) -> bool)
    requires Distinct(xs)
    ensures Distinct(Sort(xs, le))
  {
    if |xs| > 0 {
      DistinctSuffix(xs);
      SortDistinct(xs[1..], le);
      var s := Sort(xs[1..], le);
      assert xs[0] !in s by {
        assert xs[0] !in multiset(xs[1..]) by {
          forall k | 0 <= k < |xs[1..]| ensures xs[1..][k] != xs[0] {
            assert xs[1..][k] == xs[k + 1];
          }
        }
      }
      InsertDistinct(xs[0], s, le);
    }
  }

  lemma DistinctSuffix<T(!new)>(xs: seq<T>)
    requires Distinct(xs) && |xs| > 0
    ensures Distinct(xs[1..])
  {
    forall i, j | 0 <= i < j < |xs[1..]| ensures xs[1..][i] != xs[1..][j] {
      assert xs[1..][i] == xs[i + 1] && xs[1..][j] == xs[j + 1];
    }
  }

  /** Sorting keeps exactly the elements it was given. */
  lemma SortSameElements<T(!new)>(xs: seq<T>, le: (T, T) -> bool)
    ensures forall x :: x in Sort(xs, le) <==> x in xs
  {
    var r := Sort(xs, le);
    forall x ensures x in r <==> x in xs {
      assert x in r <==> x in multiset(r);
      assert x in xs <==> x in multiset(xs);
    }
  }
}
