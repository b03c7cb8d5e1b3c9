/**
 * Sequence combinators behind the engine's `filter`, `reduce` and `sort`
 * calls. `Array.prototype.sort` is stable, so sorting is modelled as a
 * stable insertion sort on an integer key.
 */
module Seqs {

  /** `s.filter(p)`: the elements satisfying p, in their original order. */
  function Filter<T(!new)>(s: seq<T>, p: T -> bool): (r: seq<T>)
    ensures |r| <= |s|
    ensures forall x :: x in r <==> x in s && p(x)
  {
    if s == [] then []
    else Filter(s[..|s| - 1], p) + (if p(s[|s| - 1]) then [s[|s| - 1]] else [])
  }

  /** Sum of f over s, added left to right as `reduce((sum, x) => sum + f(x), 0)` does. */
  function SumOf<T>(s: seq<T>, f: T -> real): real {
    if s == [] then 0.0 else SumOf(s[..|s| - 1], f) + f(s[|s| - 1])
  }

  /** Integer version of SumOf. */
  function IntSumOf<T>(s: seq<T>, f: T -> int): int {
    if s == [] then 0 else IntSumOf(s[..|s| - 1], f) + f(s[|s| - 1])
  }

  predicate SortedBy<T>(s: seq<T>, key: T -> int) {
    forall i, j :: 0 <= i < j < |s| ==> key(s[i]) <= key(s[j])
  }

  /** Places x after every element of t whose key is at most key(x). */
  function Insert<T>(t: seq<T>, x: T, key: T -> int): (r: seq<T>)
    ensures |r| == |t| + 1
    ensures multiset(r) == multiset(t) + multiset{x}
  {
    if t == [] then [x]
    else if key(t[|t| - 1]) <= key(x) then t + [x]
    else
      var rest := t[..|t| - 1];
      assert t == rest + [t[|t| - 1]];
      Insert(rest, x, key) + [t[|t| - 1]]
  }

  /** `s.sort((a, b) => key(a) - key(b))` with a stable sort. */
  function SortBy<T>(s: seq<T>, key: T -> int): (r: seq<T>)
    ensures |r| == |s|
  {
    if s == [] then [] else Insert(SortBy(s[..|s| - 1], key), s[|s| - 1], key)
  }

  /** The elements of s whose key is k, in their order in s. */
  function WithKey<T(!new)>(s: seq<T>, key: T -> int, k: int): seq<T> {
    Filter(s, x => key(x) == k)
  }

  lemma {:induction false} InsertSorted<T>(t: seq<T>, x: T, key: T -> int)
    requires SortedBy(t, key)
    ensures SortedBy(Insert(t, x, key), key)
  {
    if t != [] && key(t[|t| - 1]) > key(x) {
      var rest, last := t[..|t| - 1], t[|t| - 1];
      var r := Insert(rest, x, key);
      assert Insert(t, x, key) == r + [last];
      hide Insert;
      assert SortedBy(rest, key);
      InsertSorted(rest, x, key);
      assert forall y :: y in r ==> key(y) <= key(last) by {
        forall y | y in r ensures key(y) <= key(last) {
          assert y in multiset(r);
          if y != x {
            assert y in multiset(rest);
            var i :| 0 <= i < |rest| && rest[i] == y;
            assert t[i] == y;
          }
        }
      }
      var all := r + [last];
      forall i, j | 0 <= i < j < |all| ensures key(all[i]) <= key(all[j]) {
        assert all[i] == r[i] && all[i] in r;
        if j < |r| {
          assert all[j] == r[j];
        }
      }
    }
  }

  lemma {:induction false} InsertWithKey<T(!new)>(t: seq<T>, x: T, key: T -> int, k: int)
    ensures WithKey(Insert(t, x, key), key, k) == WithKey(t, key, k) + (if key(x) == k then [x] else [])
  {
    var p := y => key(y) == k;
    if t == [] {
      assert Insert(t, x, key) == [x];
      FilterSingle(x, p);
    } else if key(t[|t| - 1]) <= key(x) {
      assert Insert(t, x, key) == t + [x];
      FilterSnoc(t, x, p);
    } else {
      var rest, last := t[..|t| - 1], t[|t| - 1];
      assert t == rest + [last];
      assert Insert(t, x, key) == Insert(rest, x, key) + [last];
      hide Insert, Filter;
      InsertWithKey(rest, x, key, k);
      FilterSnoc(Insert(rest, x, key), last, p);
      FilterSnoc(rest, last, p);
      assert !(key(x) == k && key(last) == k);
    }
  }

  /** The insertion sort orders by key. */
  lemma {:induction false} SortBySorted<T>(s: seq<T>, key: T -> int)
    ensures SortedBy(SortBy(s, key), key)
  {
    if s != [] {
      SortBySorted(s[..|s| - 1], key);
      InsertSorted(SortBy(s[..|s| - 1], key), s[|s| - 1], key);
    }
  }

  /** The insertion sort permutes its input. */
  lemma {:induction false} SortByPermutes<T>(s: seq<T>, key: T -> int)
    ensures multiset(SortBy(s, key)) == multiset(s)
  {
    if s != [] {
      SortByPermutes(s[..|s| - 1], key);
      assert s == s[..|s| - 1] + [s[|s| - 1]];
    }
  }

  /** The insertion sort is stable: elements with equal keys keep their relative order. */
  lemma {:induction false} SortByStable<T(!new)>(s: seq<T>, key: T -> int, k: int)
    ensures WithKey(SortBy(s, key), key, k) == WithKey(s, key, k)
  {
    if s != [] {
      SortByStable(s[..|s| - 1], key, k);
      InsertWithKey(SortBy(s[..|s| - 1], key), s[|s| - 1], key, k);
    }
  }

  lemma {:induction false} InsertSum<T>(t: seq<T>, x: T, key: T -> int, f: T -> real)
    ensures SumOf(Insert(t, x, key), f) == SumOf(t, f) + f(x)
  {
    if t != [] && key(t[|t| - 1]) > key(x) {
      var rest, last := t[..|t| - 1], t[|t| - 1];
      InsertSum(rest, x, key, f);
      var r := Insert(rest, x, key) + [last];
      assert r[..|r| - 1] == Insert(rest, x, key);
    } else if t != [] {
      assert (t + [x])[..|t|] == t;
    }
  }

  /** Sorting does not change a sum. */
  lemma {:induction false} SortBySum<T>(s: seq<T>, key: T -> int, f: T -> real)
    ensures SumOf(SortBy(s, key), f) == SumOf(s, f)
  {
    if s != [] {
      SortBySum(s[..|s| - 1], key, f);
      InsertSum(SortBy(s[..|s| - 1], key), s[|s| - 1], key, f);
    }
  }

  lemma {:induction false} FilterAppend<T(!new)>(a: seq<T>, b: seq<T>, p: T -> bool)
    ensures Filter(a + b, p) == Filter(a, p) + Filter(b, p)
    decreases |b|
  {
    if b == [] {
      assert a + b == a;
    } else {
      var c := b[..|b| - 1];
      assert (a + b)[..|a + b| - 1] == a + c;
      FilterAppend(a, c, p);
    }
  }

  /** Filtering keeps everything when every element passes. */
  lemma {:induction false} FilterAll<T(!new)>(s: seq<T>, p: T -> bool)
    requires forall i :: 0 <= i < |s| ==> p(s[i])
    ensures Filter(s, p) == s
  {
    if s != [] {
      var init := s[..|s| - 1];
      assert Filter(s, p) == Filter(init, p) + [s[|s| - 1]];
      hide Filter;
      assert forall i :: 0 <= i < |init| ==> init[i] == s[i];
      FilterAll(init, p);
    }
  }

  /** Filtering keeps nothing when no element passes. */
  lemma {:induction false} FilterNone<T(!new)>(s: seq<T>, p: T -> bool)
    requires forall i :: 0 <= i < |s| ==> !p(s[i])
    ensures Filter(s, p) == []
  {
    if s != [] {
      var init := s[..|s| - 1];
      assert Filter(s, p) == Filter(init, p) + [];
      hide Filter;
      assert forall i :: 0 <= i < |init| ==> init[i] == s[i];
      FilterNone(init, p);
    }
  }

  /** Filtering a list with one element appended. */
  lemma FilterSnoc<T(!new)>(s: seq<T>, x: T, p: T -> bool)
    ensures Filter(s + [x], p) == Filter(s, p) + (if p(x) then [x] else [])
  {
    assert (s + [x])[..|s|] == s;
  }

  lemma FilterEmpty<T(!new)>(p: T -> bool)
    ensures Filter([], p) == []
  {
  }

  /** Filtering twice by the same test changes nothing more. */
  lemma {:induction false} FilterTwice<T(!new)>(s: seq<T>, p: T -> bool)
    ensures Filter(Filter(s, p), p) == Filter(s, p)
  {
    hide Filter;
    if s == [] {
      FilterEmpty(p);
    } else {
      var init, last := s[..|s| - 1], s[|s| - 1];
      assert s == init + [last];
      FilterTwice(init, p);
      FilterSnoc(init, last, p);
      if p(last) {
        FilterSnoc(Filter(init, p), last, p);
      } else {
        assert Filter(s, p) == Filter(init, p) + [];
        assert Filter(init, p) + [] == Filter(init, p);
      }
    }
  }

  /** Filtering one element more of a prefix. */
  lemma FilterPrefixStep<T(!new)>(s: seq<T>, i: int, p: T -> bool)
    requires 0 <= i < |s|
    ensures Filter(s[..i + 1], p) == Filter(s[..i], p) + (if p(s[i]) then [s[i]] else [])
  {
    assert s[..i + 1][..i] == s[..i];
  }

  /** Filtering a single element. */
  lemma FilterSingle<T(!new)>(x: T, p: T -> bool)
    ensures Filter([x], p) == if p(x) then [x] else []
  {
    assert [x][..0] == [];
  }

  predicate Distinct<T(==)>(s: seq<T>) {
    forall i, j :: 0 <= i < j < |s| ==> s[i] != s[j]
  }

  lemma {:induction false} InsertDistinct<T>(t: seq<T>, x: T, key: T -> int)
    requires Distinct(t) && x !in t
    ensures Distinct(Insert(t, x, key))
  {
    if t != [] && key(t[|t| - 1]) > key(x) {
      var rest, last := t[..|t| - 1], t[|t| - 1];
      assert forall i :: 0 <= i < |rest| ==> rest[i] == t[i];
      InsertDistinct(rest, x, key);
      var r := Insert(rest, x, key);
      assert last !in r by {
        assert last !in multiset(rest) + multiset{x} by {
          forall i | 0 <= i < |rest| ensures rest[i] != last {
            assert t[i] != t[|t| - 1];
          }
        }
      }
      var all := r + [last];
      forall i, j | 0 <= i < j < |all| ensures all[i] != all[j] {
        if j == |all| - 1 {
          assert all[i] == r[i];
        } else {
          assert all[i] == r[i] && all[j] == r[j];
        }
      }
    } else if t != [] {
      var all := t + [x];
      forall i, j | 0 <= i < j < |all| ensures all[i] != all[j] {
        if j == |all| - 1 {
          assert all[i] == t[i];
        } else {
          assert all[i] == t[i] && all[j] == t[j];
        }
      }
    }
  }

  /** Sorting a list without repeats gives a list without repeats. */
  lemma {:induction false} SortByDistinct<T>(s: seq<T>, key: T -> int)
    requires Distinct(s)
    ensures Distinct(SortBy(s, key))
  {
    if s != [] {
      var init, last := s[..|s| - 1], s[|s| - 1];
      assert forall i :: 0 <= i < |init| ==> init[i] == s[i];
      SortByDistinct(init, key);
      SortByPermutes(init, key);
      assert last !in init by {
        forall i | 0 <= i < |init| ensures init[i] != last {
          assert s[i] != s[|s| - 1];
        }
      }
      assert last !in multiset(SortBy(init, key));
      InsertDistinct(SortBy(init, key), last, key);
    }
  }
}
