/**
  The java.util.stream operations the payment queries are built from, as
  functions on finite sequences: filter, flatMap, map, reduce from zero with
  addition, and the two collectors (toList, which keeps the sequence, and
  toSet).  Each comes with the facts about it that the queries rely on.
 */
module Streams {

  /** `filter(keep)` then `collect(toList())`: the elements of `s` that pass `keep`, in order. */
  function Filter<T(!new)>(s: seq<T>, keep: T -> bool): (r: seq<T>)
    ensures |r| <= |s|
    ensures forall x :: x in r <==> x in s && keep(x)
  {
    if s == [] then []
    else (if keep(s[0]) then [s[0]] else []) + Filter(s[1..], keep)
  }

  /** `r` is obtained from `s` by dropping some elements and keeping the order of the rest. */
  predicate IsSubsequence<T(==)>(r: seq<T>, s: seq<T>)
    decreases |s|
  {
    r == [] ||
    (s != [] && ((r[0] == s[0] && IsSubsequence(r[1..], s[1..])) || IsSubsequence(r, s[1..])))
  }

  /** `flatMap(f)`: the sequences `f(x)` for the elements `x` of `s`, concatenated in order. */
  function FlatMap<T(!new), U(!new)>(s: seq<T>, f: T -> seq<U>): (r: seq<U>)
    ensures forall y :: y in r <==> exists x :: x in s && y in f(x)
  {
    if s == [] then []
    else
      var rest := FlatMap(s[1..], f);
      assert forall x :: x in s <==> x == s[0] || x in s[1..];
      f(s[0]) + rest
  }

  /** `map(f)`: `f` applied to every element of `s`. */
  function MapSeq<T, U>(s: seq<T>, f: T -> U): (r: seq<U>)
    ensures |r| == |s|
    ensures forall i :: 0 <= i < |s| ==> r[i] == f(s[i])
  {
    if s == [] then [] else [f(s[0])] + MapSeq(s[1..], f)
  }

  /**
    `reduce(0, add)`: the sum of `s`.  A sequential stream folds from the left,
    ((0 + s[0]) + s[1]) + ..., and so does this definition.
   */
  function Sum(s: seq<int>): (r: int)
    ensures (forall i :: 0 <= i < |s| ==> s[i] >= 0) ==> r >= 0
  {
    if s == [] then 0 else Sum(s[..|s| - 1]) + s[|s| - 1]
  }

  /** `collect(toSet())`: the elements of `s`, each once. */
  function ToSet<T(!new)>(s: seq<T>): (r: set<T>)
    ensures forall x :: x in r <==> x in s
    ensures |r| <= |s|
  {
    if s == [] then {}
    else
      var init := ToSet(s[..|s| - 1]);
      assert s == s[..|s| - 1] + [s[|s| - 1]];
      assert forall x :: x in s <==> x in s[..|s| - 1] || x == s[|s| - 1];
      init + {s[|s| - 1]}
  }

  // ---------------------------------------------------------------------------
  // Filter

  /** Filtering keeps every passing element exactly as often as it occurs, and drops the rest. */
  lemma {:induction false} FilterCounts<T(!new)>(s: seq<T>, keep: T -> bool)
    ensures forall x :: multiset(Filter(s, keep))[x] == if keep(x) then multiset(s)[x] else 0
  {
    if s != [] {
      FilterCounts(s[1..], keep);
      assert s == [s[0]] + s[1..];
    }
  }

  lemma {:induction false} FilterIsSubsequence<T(!new)>(s: seq<T>, keep: T -> bool)
    ensures IsSubsequence(Filter(s, keep), s)
  {
    if s != [] {
      FilterIsSubsequence(s[1..], keep);
      var r := Filter(s, keep);
      if keep(s[0]) {
        assert r[0] == s[0] && r[1..] == Filter(s[1..], keep);
      } else {
        assert r == Filter(s[1..], keep);
      }
    }
  }

  lemma {:induction false} SubsequenceMultiset<T(!new)>(r: seq<T>, s: seq<T>)
    requires IsSubsequence(r, s)
    ensures multiset(r) <= multiset(s)
    decreases |s|
  {
    if r != [] {
      assert s == [s[0]] + s[1..];
      if r[0] == s[0] && IsSubsequence(r[1..], s[1..]) {
        SubsequenceMultiset(r[1..], s[1..]);
        assert r == [r[0]] + r[1..];
      } else {
        SubsequenceMultiset(r, s[1..]);
      }
    }
  }

  /**
    Filtering is the one order-keeping selection of exactly the passing
    elements: a subsequence of `s` holding every passing element as often as
    `s` does, and nothing else, is `Filter(s, keep)`.
   */
  lemma {:induction false} FilterUnique<T(!new)>(r: seq<T>, s: seq<T>, keep: T -> bool)
    requires IsSubsequence(r, s)
    requires forall x :: multiset(r)[x] == if keep(x) then multiset(s)[x] else 0
    ensures r == Filter(s, keep)
    decreases |s|
  {
    if s == [] {
      assert r == [];
    } else {
      var a := s[0];
      assert s == [a] + s[1..];
      if keep(a) {
        assert multiset(r)[a] == multiset(s[1..])[a] + 1;
        if r == [] {
          assert false;
        } else if !(r[0] == a && IsSubsequence(r[1..], s[1..])) {
          SubsequenceMultiset(r, s[1..]);
          assert false;
        }
        assert r == [a] + r[1..];
        forall x ensures multiset(r[1..])[x] == if keep(x) then multiset(s[1..])[x] else 0 {
        }
        FilterUnique(r[1..], s[1..], keep);
      } else {
        assert multiset(r)[a] == 0;
        if r != [] && r[0] == a {
          assert false;
        }
        if r != [] {
          assert IsSubsequence(r, s[1..]);
        }
        forall x ensures multiset(r)[x] == if keep(x) then multiset(s[1..])[x] else 0 {
        }
        FilterUnique(r, s[1..], keep);
      }
    }
  }

  /** The first element of a nonempty filter result is the first passing element. */
  lemma FilterFront<T(!new)>(s: seq<T>, keep: T -> bool)
    requires s != [] && keep(s[0])
    ensures Filter(s, keep) == [s[0]] + Filter(s[1..], keep)
  {
  }

  /** When nothing passes, nothing is kept. */
  lemma {:induction false} FilterNone<T(!new)>(s: seq<T>, keep: T -> bool)
    requires forall x :: x in s ==> !keep(x)
    ensures Filter(s, keep) == []
  {
    if s != [] {
      assert s[0] in s;
      FilterNone(s[1..], keep);
    }
  }

  lemma {:induction false} FilterConcat<T(!new)>(a: seq<T>, b: seq<T>, keep: T -> bool)
    ensures Filter(a + b, keep) == Filter(a, keep) + Filter(b, keep)
  {
    if a != [] {
      var head := if keep(a[0]) then [a[0]] else [];
      assert (a + b)[0] == a[0] && (a + b)[1..] == a[1..] + b;
      FilterConcat(a[1..], b, keep);
      calc {
        Filter(a + b, keep);
        head + Filter(a[1..] + b, keep);
        head + (Filter(a[1..], keep) + Filter(b, keep));
        (head + Filter(a[1..], keep)) + Filter(b, keep);
        Filter(a, keep) + Filter(b, keep);
      }
    } else {
      assert a + b == b;
    }
  }

  /** Two filters in a row are one filter on the conjunction of their tests. */
  lemma {:induction false} FilterFilter<T(!new)>(s: seq<T>, first: T -> bool, second: T -> bool, both: T -> bool)
    requires forall x :: both(x) == (first(x) && second(x))
    ensures Filter(Filter(s, first), second) == Filter(s, both)
  {
    if s != [] {
      FilterFilter(s[1..], first, second, both);
      FilterConcat(if first(s[0]) then [s[0]] else [], Filter(s[1..], first), second);
    }
  }

  /** Filters whose tests agree on every element of `s` select the same elements. */
  lemma {:induction false} FilterCongruent<T(!new)>(s: seq<T>, f: T -> bool, g: T -> bool)
    requires forall x :: x in s ==> f(x) == g(x)
    ensures Filter(s, f) == Filter(s, g)
  {
    if s != [] {
      FilterCongruent(s[1..], f, g);
    }
  }

  /** A weaker test keeps at least the same elements, in the same order. */
  lemma {:induction false} FilterMonotone<T(!new)>(s: seq<T>, f: T -> bool, g: T -> bool)
    requires forall x :: f(x) ==> g(x)
    ensures IsSubsequence(Filter(s, f), Filter(s, g))
  {
    if s != [] {
      FilterMonotone(s[1..], f, g);
      var a, b := Filter(s[1..], f), Filter(s[1..], g);
      if f(s[0]) {
        assert Filter(s, f) == [s[0]] + a && Filter(s, g) == [s[0]] + b;
        assert (Filter(s, f))[1..] == a && (Filter(s, g))[1..] == b;
      } else if g(s[0]) {
        assert Filter(s, f) == a && Filter(s, g) == [s[0]] + b;
        assert (Filter(s, g))[1..] == b;
      } else {
        assert Filter(s, f) == a && Filter(s, g) == b;
      }
    }
  }

  // ---------------------------------------------------------------------------
  // FlatMap, MapSeq, Sum

  lemma {:induction false} FlatMapConcat<T(!new), U(!new)>(a: seq<T>, b: seq<T>, f: T -> seq<U>)
    ensures FlatMap(a + b, f) == FlatMap(a, f) + FlatMap(b, f)
  {
    if a != [] {
      assert (a + b)[0] == a[0] && (a + b)[1..] == a[1..] + b;
      FlatMapConcat(a[1..], b, f);
      calc {
        FlatMap(a + b, f);
        f(a[0]) + FlatMap(a[1..] + b, f);
        f(a[0]) + (FlatMap(a[1..], f) + FlatMap(b, f));
        (f(a[0]) + FlatMap(a[1..], f)) + FlatMap(b, f);
        FlatMap(a, f) + FlatMap(b, f);
      }
    } else {
      assert a + b == b;
    }
  }

  /** The values of `map(f)` are the images of the elements. */
  lemma MapSeqMembers<T, U>(s: seq<T>, f: T -> U)
    ensures forall y :: y in MapSeq(s, f) <==> exists x :: x in s && f(x) == y
  {
    var r := MapSeq(s, f);
    forall y | y in r ensures exists x :: x in s && f(x) == y {
      var i :| 0 <= i < |r| && r[i] == y;
      assert s[i] in s && f(s[i]) == y;
    }
    forall x | x in s ensures f(x) in r {
      var i :| 0 <= i < |s| && s[i] == x;
      assert r[i] == f(x);
    }
  }

  lemma MapSeqConcat<T, U>(a: seq<T>, b: seq<T>, f: T -> U)
    ensures MapSeq(a + b, f) == MapSeq(a, f) + MapSeq(b, f)
  {
  }

  lemma {:induction false} SumConcat(a: seq<int>, b: seq<int>)
    ensures Sum(a + b) == Sum(a) + Sum(b)
    decreases |b|
  {
    if b == [] {
      assert a + b == a;
    } else {
      var ab := a + b;
      assert ab[..|ab| - 1] == a + b[..|b| - 1];
      assert ab[|ab| - 1] == b[|b| - 1];
      SumConcat(a, b[..|b| - 1]);
    }
  }

  /** Summing `g` over the flattened sequence is summing, per element, the sum over its part. */
  lemma {:induction false} SumOverFlatMap<T(!new), U(!new)>(s: seq<T>, f: T -> seq<U>, g: U -> int, total: T -> int)
    requires forall x :: total(x) == Sum(MapSeq(f(x), g))
    ensures Sum(MapSeq(FlatMap(s, f), g)) == Sum(MapSeq(s, total))
  {
    if s != [] {
      SumOverFlatMap(s[1..], f, g, total);
      MapSeqConcat(f(s[0]), FlatMap(s[1..], f), g);
      SumConcat(MapSeq(f(s[0]), g), MapSeq(FlatMap(s[1..], f), g));
      assert MapSeq(s, total) == [total(s[0])] + MapSeq(s[1..], total);
      SumConcat([total(s[0])], MapSeq(s[1..], total));
    }
  }

  /** The length of a flattened sequence is the sum of the lengths of its parts. */
  lemma {:induction false} FlatMapLength<T(!new), U(!new)>(s: seq<T>, f: T -> seq<U>, size: T -> int)
    requires forall x :: size(x) == |f(x)|
    ensures |FlatMap(s, f)| == Sum(MapSeq(s, size))
  {
    if s != [] {
      FlatMapLength(s[1..], f, size);
      assert MapSeq(s, size) == [size(s[0])] + MapSeq(s[1..], size);
      SumConcat([size(s[0])], MapSeq(s[1..], size));
    }
  }

  /** Summing a pointwise difference is subtracting the two sums. */
  lemma {:induction false} SumDifference<T(!new)>(s: seq<T>, f: T -> int, g: T -> int, d: T -> int)
    requires forall x :: d(x) == f(x) - g(x)
    ensures Sum(MapSeq(s, d)) == Sum(MapSeq(s, f)) - Sum(MapSeq(s, g))
  {
    if s != [] {
      SumDifference(s[1..], f, g, d);
      assert MapSeq(s, d) == [d(s[0])] + MapSeq(s[1..], d);
      assert MapSeq(s, f) == [f(s[0])] + MapSeq(s[1..], f);
      assert MapSeq(s, g) == [g(s[0])] + MapSeq(s[1..], g);
      SumConcat([d(s[0])], MapSeq(s[1..], d));
      SumConcat([f(s[0])], MapSeq(s[1..], f));
      SumConcat([g(s[0])], MapSeq(s[1..], g));
    }
  }
}
