/**
 * `Array.prototype.sort((a, b) => key(b) - key(a))`. The sort is stable
 * (required since ECMAScript 2019) and the comparator is consistent, so the
 * result is fully determined: elements ordered by non-increasing key, equal
 * keys in their original order. Insertion sort computes exactly that.
 */
module StableSort {
  import opened Seqs

  predicate NonIncreasing<T>(s: seq<T>, key: T -> real)
  {
    forall i, j :: 0 <= i < j < |s| ==> key(s[i]) >= key(s[j])
  }

  predicate Distinct<T(==)>(s: seq<T>)
  {
    forall i, j :: 0 <= i < j < |s| ==> s[i] != s[j]
  }

  /** The elements of `s` whose key is `k`, in their order in `s`. */
  function WithKey<T>(s: seq<T>, key: T -> real, k: real): (r: seq<T>)
    ensures |r| <= |s|
  {
    if s == [] then []
    else (if key(s[0]) == k then [s[0]] else []) + WithKey(s[1..], key, k)
  }

  /** Place `x` in front of the first element with a strictly smaller key,
      i.e. after every element whose key is at least its own. */
  function Insert<T>(x: T, s: seq<T>, key: T -> real): (r: seq<T>)
    ensures |r| == |s| + 1
  {
    if s == [] then [x]
    else if key(s[0]) < key(x) then [x] + s
    else [s[0]] + Insert(x, s[1..], key)
  }

  lemma {:induction false} InsertPermutes<T>(x: T, s: seq<T>, key: T -> real)
    ensures multiset(Insert(x, s, key)) == multiset(s) + multiset{x}
  {
    if s != [] && key(s[0]) >= key(x) {
      InsertPermutes(x, s[1..], key);
      assert s == [s[0]] + s[1..];
    }
  }

  lemma {:induction false} InsertSorted<T>(x: T, s: seq<T>, key: T -> real)
    requires NonIncreasing(s, key)
    ensures NonIncreasing(Insert(x, s, key), key)
  {
    if s != [] && key(s[0]) >= key(x) {
      var rest := Insert(x, s[1..], key);
      InsertSorted(x, s[1..], key);
      InsertBelow(x, s[1..], key, key(s[0]));
      assert Insert(x, s, key) == [s[0]] + rest;
    }
  }

  /** Inserting below a bound keeps every key below it. */
  lemma {:induction false} InsertBelow<T>(x: T, s: seq<T>, key: T -> real, bound: real)
    requires key(x) <= bound && forall k :: 0 <= k < |s| ==> key(s[k]) <= bound
    ensures forall k :: 0 <= k < |s| + 1 ==> key(Insert(x, s, key)[k]) <= bound
  {
    if s != [] && key(s[0]) >= key(x) {
      InsertBelow(x, s[1..], key, bound);
      var r := Insert(x, s, key);
      forall k | 1 <= k < |r| ensures key(r[k]) <= bound {
        assert r[k] == Insert(x, s[1..], key)[k - 1];
      }
    }
  }

  /** Insertion sort, taking the elements of `s` from first to last. */
  function SortDescending<T>(s: seq<T>, key: T -> real): (r: seq<T>)
    ensures |r| == |s|
    ensures multiset(r) == multiset(s)
    ensures NonIncreasing(r, key)
  {
    if s == [] then []
    else
      var init, last := s[..|s| - 1], s[|s| - 1];
      var sortedInit := SortDescending(init, key);
      InsertPermutes(last, sortedInit, key);
      InsertSorted(last, sortedInit, key);
      SplitLast(s);
      Insert(last, sortedInit, key)
  }

  lemma {:induction false} WithKeyConcat<T>(a: seq<T>, b: seq<T>, key: T -> real, k: real)
    ensures WithKey(a + b, key, k) == WithKey(a, key, k) + WithKey(b, key, k)
  {
    if a != [] {
      var head := if key(a[0]) == k then [a[0]] else [];
      assert (a + b)[0] == a[0] && (a + b)[1..] == a[1..] + b;
      assert WithKey(a + b, key, k) == head + WithKey(a[1..] + b, key, k);
      WithKeyConcat(a[1..], b, key, k);
      AppendAssoc(head, WithKey(a[1..], key, k), WithKey(b, key, k));
    } else {
      assert a + b == b;
    }
  }

  lemma {:induction false} WithKeyNone<T>(s: seq<T>, key: T -> real, k: real)
    requires forall y :: y in s ==> key(y) != k
    ensures WithKey(s, key, k) == []
  {
    if s != [] {
      WithKeyNone(s[1..], key, k);
    }
  }

  lemma WithKeyCons<T>(y: T, s: seq<T>, key: T -> real, k: real)
    ensures WithKey([y] + s, key, k) == (if key(y) == k then [y] else []) + WithKey(s, key, k)
  {
    assert ([y] + s)[1..] == s;
  }

  /** A sorted sequence whose first key is below `k` has no element with key `k`. */
  lemma NoKeyBelowFirst<T>(s: seq<T>, key: T -> real, k: real)
    requires NonIncreasing(s, key) && s != [] && key(s[0]) < k
    ensures WithKey(s, key, k) == []
  {
    forall y | y in s ensures key(y) != k {
      var j :| 0 <= j < |s| && s[j] == y;
      assert key(s[0]) >= key(s[j]);
    }
    WithKeyNone(s, key, k);
  }

  /** Inserting `x` into a sorted sequence puts it after every element with the same key. */
  lemma {:induction false} InsertAfterEqualKeys<T>(x: T, s: seq<T>, key: T -> real, k: real)
    requires NonIncreasing(s, key)
    ensures WithKey(Insert(x, s, key), key, k) == WithKey(s, key, k) + (if key(x) == k then [x] else [])
  {
    if s == [] {
      WithKeyCons(x, s, key, k);
      assert [x] + s == [x];
    } else if key(s[0]) < key(x) {
      WithKeyCons(x, s, key, k);
      if key(x) == k {
        NoKeyBelowFirst(s, key, k);
        AppendEmpty([x]);
      } else {
        AppendEmpty(WithKey(s, key, k));
      }
    } else {
      InsertAfterEqualKeys(x, s[1..], key, k);
      WithKeyCons(s[0], Insert(x, s[1..], key), key, k);
      WithKeyCons(s[0], s[1..], key, k);
      assert s == [s[0]] + s[1..];
      var first := if key(s[0]) == k then [s[0]] else [];
      var mine := if key(x) == k then [x] else [];
      var rest := WithKey(s[1..], key, k);
      AppendAssoc(first, rest, mine);
    }
  }

  /** Stability: among elements with equal keys, the sorted order is the original order. */
  lemma {:induction false} SortIsStable<T>(s: seq<T>, key: T -> real, k: real)
    ensures WithKey(SortDescending(s, key), key, k) == WithKey(s, key, k)
  {
    if s != [] {
      var init, last := s[..|s| - 1], s[|s| - 1];
      SortIsStable(init, key, k);
      InsertAfterEqualKeys(last, SortDescending(init, key), key, k);
      SplitLast(s);
      WithKeyConcat(init, [last], key, k);
      WithKeyCons(last, [], key, k);
      AppendEmpty([last]);
    }
  }

  lemma {:induction false} InsertKeepsDistinct<T>(x: T, s: seq<T>, key: T -> real)
    requires Distinct(s) && x !in s
    ensures Distinct(Insert(x, s, key))
  {
    if s != [] {
      if key(s[0]) < key(x) {
        assert Insert(x, s, key) == [x] + s;
      } else {
        var rest := Insert(x, s[1..], key);
        assert Distinct(s[1..]);
        InsertKeepsDistinct(x, s[1..], key);
        InsertPermutes(x, s[1..], key);
        assert s[0] !in multiset(s[1..]);
        assert s[0] != x;
        assert s[0] !in multiset(rest);
        assert Insert(x, s, key) == [s[0]] + rest;
      }
    }
  }

  lemma {:induction false} SortKeepsDistinct<T>(s: seq<T>, key: T -> real)
    requires Distinct(s)
    ensures Distinct(SortDescending(s, key))
  {
    if s != [] {
      var init, last := s[..|s| - 1], s[|s| - 1];
      assert Distinct(init);
      SortKeepsDistinct(init, key);
      assert last !in multiset(init);
      assert last !in multiset(SortDescending(init, key));
      InsertKeepsDistinct(last, SortDescending(init, key), key);
    }
  }

  /** Filtering by key commutes with taking a prefix. */
  lemma WithKeyPrefix<T>(a: seq<T>, b: seq<T>, key: T -> real, k: real)
    requires a <= b
    ensures WithKey(a, key, k) <= WithKey(b, key, k)
  {
    assert b == a + b[|a|..];
    WithKeyConcat(a, b[|a|..], key, k);
  }
}
