/** The stable sort that `Array.prototype.sort` performs (stable since
    ECMAScript 2019), for a comparator of the form `key(a) - key(b)`.
    It is defined as insertion from the back: the last element goes after
    every element whose key does not exceed its own, which is exactly where a
    stable sort puts it. */
module StableSort {
  import opened Sequences

  predicate SortedBy<T>(s: seq<T>, key: T -> int)
  {
    forall i, j :: 0 <= i < j < |s| ==> key(s[i]) <= key(s[j])
  }

  function KeyIs<T>(key: T -> int, v: int): T -> bool
  {
    y => key(y) == v
  }

  /** The elements of `s` whose key is `v`, in the order of `s`. */
  function WithKey<T(==)>(s: seq<T>, key: T -> int, v: int): (r: seq<T>)
    ensures forall i :: 0 <= i < |r| ==> key(r[i]) == v
  {
    Filter(s, KeyIs(key, v))
  }

  /** Puts `x` after the last element of `s` whose key is at most `key(x)`,
      scanning from the back. */
  function InsertAfter<T(==)>(x: T, s: seq<T>, key: T -> int): (r: seq<T>)
    ensures |r| == |s| + 1
    decreases |s|
  {
    if s == [] || key(s[|s| - 1]) <= key(x) then s + [x]
    else InsertAfter(x, s[..|s| - 1], key) + [s[|s| - 1]]
  }

  /** Insertion adds `x` and loses nothing. */
  lemma {:induction false} InsertAfterMultiset<T>(x: T, s: seq<T>, key: T -> int)
    ensures multiset(InsertAfter(x, s, key)) == multiset(s) + multiset{x}
    decreases |s|
  {
    if s != [] && key(s[|s| - 1]) > key(x) {
      var init, last := s[..|s| - 1], s[|s| - 1];
      assert s == init + [last];
      InsertAfterMultiset(x, init, key);
    }
  }

  /** Insertion into a sorted sequence keeps it sorted. */
  lemma {:induction false} InsertAfterSorted<T>(x: T, s: seq<T>, key: T -> int)
    requires SortedBy(s, key)
    ensures SortedBy(InsertAfter(x, s, key), key)
    decreases |s|
  {
    if s == [] || key(s[|s| - 1]) <= key(x) {
      var r := s + [x];
      forall i, j | 0 <= i < j < |r| ensures key(r[i]) <= key(r[j]) {
        if j == |s| {
          assert key(s[i]) <= key(s[|s| - 1]);
        }
      }
    } else {
      var init, last := s[..|s| - 1], s[|s| - 1];
      assert SortedBy(init, key);
      InsertAfterSorted(x, init, key);
      InsertAfterMultiset(x, init, key);
      var r0 := InsertAfter(x, init, key);
      forall i | 0 <= i < |r0| ensures key(r0[i]) <= key(last) {
        assert r0[i] in multiset(r0);
        if r0[i] != x {
          assert r0[i] in multiset(init);
          var k :| 0 <= k < |init| && init[k] == r0[i];
          assert s[k] == init[k];
        }
      }
      var r := r0 + [last];
      forall i, j | 0 <= i < j < |r| ensures key(r[i]) <= key(r[j]) {
        if j < |r0| {
          assert r[i] == r0[i] && r[j] == r0[j];
        }
      }
    }
  }

  /** `s.slice().sort((a, b) => key(a) - key(b))`. */
  function SortByKey<T(==)>(s: seq<T>, key: T -> int): (r: seq<T>)
    ensures |r| == |s|
    ensures multiset(r) == multiset(s)
    ensures SortedBy(r, key)
    decreases |s|
  {
    if s == [] then []
    else
      var init, last := s[..|s| - 1], s[|s| - 1];
      assert s == init + [last];
      var sorted := SortByKey(init, key);
      InsertAfterMultiset(last, sorted, key);
      InsertAfterSorted(last, sorted, key);
      InsertAfter(last, sorted, key)
  }

  /** Inserting `x` does not disturb the relative order of equal keys, and
      `x` comes after every element with the same key. */
  lemma {:induction false} InsertAfterStable<T>(x: T, s: seq<T>, key: T -> int, v: int)
    ensures WithKey(InsertAfter(x, s, key), key, v) == WithKey(s, key, v) + (if key(x) == v then [x] else [])
    decreases |s|
  {
    var p := KeyIs(key, v);
    if s == [] || key(s[|s| - 1]) <= key(x) {
      assert InsertAfter(x, s, key) == s + [x];
      FilterSnoc(s, x, p);
    } else {
      var init, last := s[..|s| - 1], s[|s| - 1];
      assert s == init + [last];
      assert InsertAfter(x, s, key) == InsertAfter(x, init, key) + [last];
      InsertAfterStable(x, init, key, v);
      FilterSnoc(InsertAfter(x, init, key), last, p);
      FilterSnoc(init, last, p);
    }
  }

  /** Stability: for every key value, the elements carrying it appear in the
      result in the same relative order as in the input. */
  lemma {:induction false} SortByKeyStable<T>(s: seq<T>, key: T -> int, v: int)
    ensures WithKey(SortByKey(s, key), key, v) == WithKey(s, key, v)
    decreases |s|
  {
    if s != [] {
      var init, last := s[..|s| - 1], s[|s| - 1];
      assert s == init + [last];
      SortByKeyStable(init, key, v);
      InsertAfterStable(last, SortByKey(init, key), key, v);
      FilterSnoc(init, last, KeyIs(key, v));
    }
  }

  /** A sequence that is already sorted is left as it is. */
  lemma {:induction false} SortSortedIsIdentity<T>(s: seq<T>, key: T -> int)
    requires SortedBy(s, key)
    ensures SortByKey(s, key) == s
    decreases |s|
  {
    if s != [] {
      var init, last := s[..|s| - 1], s[|s| - 1];
      assert s == init + [last];
      assert SortedBy(init, key);
      SortSortedIsIdentity(init, key);
    }
  }

  /** The number of elements of `s` whose key does not exceed `k`. */
  function CountAtMost<T>(s: seq<T>, key: T -> int, k: int): (n: nat)
    ensures n <= |s|
    decreases |s|
  {
    if s == [] then 0
    else CountAtMost(s[..|s| - 1], key, k) + (if key(s[|s| - 1]) <= k then 1 else 0)
  }

  /** Into a sorted sequence, `x` goes right after the elements with a key
      not greater than its own and before the others. */
  lemma {:induction false} InsertAfterPosition<T>(x: T, s: seq<T>, key: T -> int)
    requires SortedBy(s, key)
    ensures var k := CountAtMost(s, key, key(x));
            InsertAfter(x, s, key) == s[..k] + [x] + s[k..]
    ensures var k := CountAtMost(s, key, key(x));
            (forall i :: 0 <= i < k ==> key(s[i]) <= key(x)) &&
            (forall i :: k <= i < |s| ==> key(x) < key(s[i]))
    decreases |s|
  {
    if s == [] {
    } else if key(s[|s| - 1]) <= key(x) {
      AllAtMost(s, key, key(x));
      assert InsertAfter(x, s, key) == s + [x];
      assert s[..|s|] == s && s[|s|..] == [];
    } else {
      var init, last := s[..|s| - 1], s[|s| - 1];
      assert s == init + [last];
      assert SortedBy(init, key);
      InsertAfterPosition(x, init, key);
      var k := CountAtMost(init, key, key(x));
      assert CountAtMost(s, key, key(x)) == k;
      assert InsertAfter(x, s, key) == InsertAfter(x, init, key) + [last];
      assert s[..k] == init[..k];
      assert s[k..] == init[k..] + [last];
      assert InsertAfter(x, s, key) == s[..k] + [x] + s[k..];
    }
  }

  lemma {:induction false} AllAtMost<T>(s: seq<T>, key: T -> int, k: int)
    requires SortedBy(s, key)
    requires s != [] ==> key(s[|s| - 1]) <= k
    ensures CountAtMost(s, key, k) == |s|
    decreases |s|
  {
    if s != [] {
      var init := s[..|s| - 1];
      assert SortedBy(init, key);
      AllAtMost(init, key, k);
    }
  }
}
