/**
  A stable sort into descending order of an integer key, the shape of
  `stream().sorted(comparator)` when the comparator is the negated
  comparison of the keys.  The sort promises a permutation that is in
  descending order and that keeps elements with equal keys in their input
  order; the last lemma shows that these three facts determine the result, so
  every stable sort with this comparator returns the same sequence.
 */
module StableSort {
  import opened Streams

  /** The test "has key `k`", which picks out one group of ties. */
  function HasKey<T>(key: T -> int, k: int): T -> bool {
    x => key(x) == k
  }

  predicate SortedDesc<T>(s: seq<T>, key: T -> int) {
    forall i, j :: 0 <= i < j < |s| ==> key(s[i]) >= key(s[j])
  }

  /**
    Places `x` in front of the first element whose key is not larger; `x`
    comes earlier in the input than every element of `s`, so it goes before
    the elements that tie with it.
   */
  function InsertDesc<T>(x: T, s: seq<T>, key: T -> int): (r: seq<T>)
    ensures multiset(r) == multiset(s) + multiset{x}
  {
    if s == [] || key(x) >= key(s[0]) then [x] + s
    else
      assert s == [s[0]] + s[1..];
      [s[0]] + InsertDesc(x, s[1..], key)
  }

  lemma {:induction false} InsertDescSorted<T>(x: T, s: seq<T>, key: T -> int)
    requires SortedDesc(s, key)
    ensures SortedDesc(InsertDesc(x, s, key), key)
  {
    if s == [] || key(x) >= key(s[0]) {
      assert forall j :: 0 <= j < |s| ==> key(s[0]) >= key(s[j]);
    } else {
      var rest := InsertDesc(x, s[1..], key);
      InsertDescSorted(x, s[1..], key);
      forall j | 0 <= j < |rest| ensures key(s[0]) >= key(rest[j]) {
        assert rest[j] in multiset(rest);
        if rest[j] != x {
          assert rest[j] in multiset(s[1..]);
          var i :| 0 <= i < |s[1..]| && s[1..][i] == rest[j];
          assert s[i + 1] == rest[j];
        }
      }
      assert InsertDesc(x, s, key) == [s[0]] + rest;
    }
  }

  function SortDesc<T>(s: seq<T>, key: T -> int): (r: seq<T>)
    ensures multiset(r) == multiset(s)
    ensures SortedDesc(r, key)
  {
    if s == [] then []
    else
      assert s == [s[0]] + s[1..];
      var rest := SortDesc(s[1..], key);
      InsertDescSorted(s[0], rest, key);
      InsertDesc(s[0], rest, key)
  }

  /** Inserting `x` adds it to its own group of ties, at the front, and changes no other group. */
  lemma {:induction false} InsertDescTies<T(!new)>(x: T, s: seq<T>, key: T -> int, k: int)
    ensures Filter(InsertDesc(x, s, key), HasKey(key, k))
         == (if key(x) == k then [x] else []) + Filter(s, HasKey(key, k))
  {
    if s == [] || key(x) >= key(s[0]) {
      assert ([x] + s)[0] == x && ([x] + s)[1..] == s;
    } else {
      var rest := InsertDesc(x, s[1..], key);
      InsertDescTies(x, s[1..], key, k);
      assert ([s[0]] + rest)[0] == s[0] && ([s[0]] + rest)[1..] == rest;
    }
  }

  /** Stability: within every group of equal keys the sorted order is the input order. */
  lemma {:induction false} SortDescStable<T(!new)>(s: seq<T>, key: T -> int, k: int)
    ensures Filter(SortDesc(s, key), HasKey(key, k)) == Filter(s, HasKey(key, k))
  {
    if s != [] {
      SortDescStable(s[1..], key, k);
      InsertDescTies(s[0], SortDesc(s[1..], key), key, k);
    }
  }

  /** Two descending permutations of each other start with the same element if they order ties alike. */
  lemma SortedHeadsAgree<T(!new)>(a: seq<T>, b: seq<T>, key: T -> int)
    requires a != [] && b != [] && multiset(a) == multiset(b)
    requires SortedDesc(a, key) && SortedDesc(b, key)
    requires Filter(a, HasKey(key, key(a[0]))) == Filter(b, HasKey(key, key(a[0])))
    ensures a[0] == b[0]
  {
    assert a[0] in multiset(b) && b[0] in multiset(a);
    FrontIsLargest(b, key, a[0]);
    FrontIsLargest(a, key, b[0]);
    var same := HasKey(key, key(a[0]));
    assert same(a[0]) && same(b[0]);
    FilterFront(a, same);
    FilterFront(b, same);
    assert Filter(a, same)[0] == a[0] && Filter(b, same)[0] == b[0];
  }

  /** In a descending sequence no element has a larger key than the first. */
  lemma FrontIsLargest<T>(s: seq<T>, key: T -> int, x: T)
    requires SortedDesc(s, key) && x in multiset(s)
    ensures key(s[0]) >= key(x)
  {
    var i :| 0 <= i < |s| && s[i] == x;
    assert 0 == i || 0 < i;
  }

  /** Removing a common first element keeps the groups of ties equal. */
  lemma TailTiesAgree<T(!new)>(a: seq<T>, b: seq<T>, key: T -> int, k: int)
    requires a != [] && b != [] && a[0] == b[0]
    requires Filter(a, HasKey(key, k)) == Filter(b, HasKey(key, k))
    ensures Filter(a[1..], HasKey(key, k)) == Filter(b[1..], HasKey(key, k))
  {
    var head := if key(a[0]) == k then [a[0]] else [];
    var fa, fb := Filter(a[1..], HasKey(key, k)), Filter(b[1..], HasKey(key, k));
    assert Filter(a, HasKey(key, k)) == head + fa;
    assert Filter(b, HasKey(key, k)) == head + fb;
    assert (head + fa)[|head|..] == fa && (head + fb)[|head|..] == fb;
  }

  /**
    Two permutations of each other that are both in descending order and
    agree on the order inside every group of ties are equal.
   */
  lemma {:induction false} StableSortUnique<T(!new)>(a: seq<T>, b: seq<T>, key: T -> int)
    requires multiset(a) == multiset(b)
    requires SortedDesc(a, key) && SortedDesc(b, key)
    requires forall k :: Filter(a, HasKey(key, k)) == Filter(b, HasKey(key, k))
    ensures a == b
    decreases |a|
  {
    assert |a| == |multiset(a)| == |multiset(b)| == |b|;
    if a != [] {
      SortedHeadsAgree(a, b, key);
      assert a == [a[0]] + a[1..] && b == [b[0]] + b[1..];
      assert multiset(a) == multiset{a[0]} + multiset(a[1..]);
      assert multiset(b) == multiset{b[0]} + multiset(b[1..]);
      assert multiset(a[1..]) == multiset(a) - multiset{a[0]};
      assert multiset(b[1..]) == multiset(b) - multiset{b[0]};
      forall k ensures Filter(a[1..], HasKey(key, k)) == Filter(b[1..], HasKey(key, k)) {
        TailTiesAgree(a, b, key, k);
      }
      StableSortUnique(a[1..], b[1..], key);
    }
  }
}
