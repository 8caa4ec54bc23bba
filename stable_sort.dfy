/**
 * `Array.prototype.sort` with a comparator `(a, b) => key(a) - key(b)`.
 * Since ECMAScript 2019 that sort is stable, so its result is determined:
 * the permutation of the input that is ordered by key and keeps the input
 * order among elements of equal key. `SortBy` computes it by insertion, and
 * the lemmas below prove those three properties of it.
 */
module StableSort {
  import Seqs

  ghost predicate SortedBy<T>(s: seq<T>, key: T -> int)
  {
    forall i, j :: 0 <= i < j < |s| ==> key(s[i]) <= key(s[j])
  }

  /** Puts `x` after every element of `s` whose key is not above its own. */
  function InsertBy<T>(s: seq<T>, x: T, key: T -> int): (r: seq<T>)
    ensures |r| == |s| + 1
  {
    if s == [] || key(s[|s| - 1]) <= key(x) then s + [x]
    else InsertBy(s[..|s| - 1], x, key) + [s[|s| - 1]]
  }

  /** The stable sort of `s` by `key`. */
  function SortBy<T>(s: seq<T>, key: T -> int): (r: seq<T>)
    ensures |r| == |s|
  {
    if s == [] then []
    else InsertBy(SortBy(s[..|s| - 1], key), s[|s| - 1], key)
  }

  /** Inserting adds exactly one occurrence of `x`. */
  lemma {:induction false} InsertByPermutes<T>(s: seq<T>, x: T, key: T -> int)
    ensures multiset(InsertBy(s, x, key)) == multiset(s) + multiset{x}
  {
    if s != [] && key(s[|s| - 1]) > key(x) {
      var init := s[..|s| - 1];
      InsertByPermutes(init, x, key);
      assert s == init + [s[|s| - 1]];
    }
  }

  /** The result of `SortBy` is a permutation of its input. */
  lemma {:induction false} SortByPermutes<T>(s: seq<T>, key: T -> int)
    ensures multiset(SortBy(s, key)) == multiset(s)
  {
    if s != [] {
      var init := s[..|s| - 1];
      SortByPermutes(init, key);
      InsertByPermutes(SortBy(init, key), s[|s| - 1], key);
      assert s == init + [s[|s| - 1]];
    }
  }

  lemma {:induction false} InsertBySorted<T>(s: seq<T>, x: T, key: T -> int)
    requires SortedBy(s, key)
    ensures SortedBy(InsertBy(s, x, key), key)
  {
    if s != [] && key(s[|s| - 1]) > key(x) {
      var init := s[..|s| - 1];
      var last := s[|s| - 1];
      assert SortedBy(init, key);
      InsertBySorted(init, x, key);
      var r := InsertBy(init, x, key);
      InsertByPermutes(init, x, key);
      forall k | 0 <= k < |r| ensures key(r[k]) <= key(last) {
        assert r[k] in multiset(r);
        if r[k] != x {
          assert r[k] in init;
        }
      }
    }
  }

  /** The result of `SortBy` is ordered by key. */
  lemma {:induction false} SortBySorted<T>(s: seq<T>, key: T -> int)
    ensures SortedBy(SortBy(s, key), key)
  {
    if s != [] {
      SortBySorted(s[..|s| - 1], key);
      InsertBySorted(SortBy(s[..|s| - 1], key), s[|s| - 1], key);
    }
  }

  /** Sorting a sequence that is already in key order returns it unchanged. */
  lemma {:induction false} SortByOfSorted<T>(s: seq<T>, key: T -> int)
    requires SortedBy(s, key)
    ensures SortBy(s, key) == s
  {
    if s != [] {
      var init := s[..|s| - 1];
      var last := s[|s| - 1];
      assert SortedBy(init, key);
      SortByOfSorted(init, key);
      assert init != [] ==> key(init[|init| - 1]) <= key(last);
      assert InsertBy(init, last, key) == init + [last];
      assert s == init + [last];
    }
  }

  /** Appending one element and sorting is inserting it into the sorted rest. */
  lemma SortByAppend<T>(s: seq<T>, x: T, key: T -> int)
    ensures SortBy(s + [x], key) == InsertBy(SortBy(s, key), x, key)
  {
    assert (s + [x])[..|s + [x]| - 1] == s;
  }

  /**
   * Into a sorted sequence, `InsertBy` puts `x` at the position `k` that
   * follows every element of key at most `key(x)` and precedes the rest.
   */
  lemma {:induction false} InsertByPosition<T>(s: seq<T>, x: T, key: T -> int) returns (k: nat)
    requires SortedBy(s, key)
    ensures k <= |s|
    ensures InsertBy(s, x, key) == s[..k] + [x] + s[k..]
    ensures forall i :: 0 <= i < k ==> key(s[i]) <= key(x)
    ensures forall i :: k <= i < |s| ==> key(x) < key(s[i])
  {
    if s == [] || key(s[|s| - 1]) <= key(x) {
      k := |s|;
    } else {
      var init := s[..|s| - 1];
      var last := s[|s| - 1];
      assert SortedBy(init, key);
      k := InsertByPosition(init, x, key);
      assert InsertBy(s, x, key) == InsertBy(init, x, key) + [last];
      assert s[..k] == init[..k];
      assert s[k..] == init[k..] + [last];
      forall i | k <= i < |s| ensures key(x) < key(s[i]) {
        if i < |init| { assert s[i] == init[i]; }
      }
    }
  }

  /** The test "has key `k`", as one function value. */
  function HasKey<T>(key: T -> int, k: int): T -> bool
  {
    x => key(x) == k
  }

  /** The elements of `s` whose key is `k`. */
  function WithKey<T(!new)>(s: seq<T>, key: T -> int, k: int): (r: seq<T>)
    ensures forall i :: 0 <= i < |r| ==> key(r[i]) == k
  {
    Seqs.Filter(s, HasKey(key, k))
  }

  lemma {:induction false} InsertByStable<T(!new)>(s: seq<T>, x: T, key: T -> int, k: int)
    requires SortedBy(s, key)
    ensures WithKey(InsertBy(s, x, key), key, k) == WithKey(s + [x], key, k)
  {
    var p := HasKey(key, k);
    if s != [] && key(s[|s| - 1]) > key(x) {
      var init, last := s[..|s| - 1], s[|s| - 1];
      assert SortedBy(init, key);
      var fi, fx, fl := Seqs.Filter(init, p), Seqs.Filter([x], p), Seqs.Filter([last], p);
      // x and last have different keys, so at most one of them is kept
      assert fx == [] || fl == [] by {
        Seqs.FilterSingleton(x, p);
        Seqs.FilterSingleton(last, p);
      }
      calc {
        Seqs.Filter(InsertBy(s, x, key), p);
        Seqs.Filter(InsertBy(init, x, key) + [last], p);
        { Seqs.FilterConcat(InsertBy(init, x, key), [last], p); }
        Seqs.Filter(InsertBy(init, x, key), p) + fl;
        { InsertByStable(init, x, key, k); Seqs.FilterConcat(init, [x], p); }
        fi + fx + fl;
        { assert fi + fx + fl == fi + fl + fx; }
        fi + fl + fx;
        { Seqs.FilterConcat(init, [last], p); assert init + [last] == s; }
        Seqs.Filter(s, p) + fx;
        { Seqs.FilterConcat(s, [x], p); }
        Seqs.Filter(s + [x], p);
      }
    }
  }

  /** Stability: among elements of one key, the sort keeps the input order. */
  lemma {:induction false} SortByStable<T(!new)>(s: seq<T>, key: T -> int, k: int)
    ensures WithKey(SortBy(s, key), key, k) == WithKey(s, key, k)
  {
    if s != [] {
      var init := s[..|s| - 1];
      var last := s[|s| - 1];
      var p := HasKey(key, k);
      SortByStable(init, key, k);
      SortBySorted(init, key);
      InsertByStable(SortBy(init, key), last, key, k);
      Seqs.FilterConcat(SortBy(init, key), [last], p);
      Seqs.FilterConcat(init, [last], p);
      assert init + [last] == s;
    }
  }
}
