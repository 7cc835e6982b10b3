/**
  Ordered insertion keyed by an integer, and the stable sort it induces.

  `InsertByKey` is the insertion rule of PriorityQueue.enqueue: the new element
  goes immediately before the first element whose key is STRICTLY greater than
  its own, or at the tail when there is none.  Inserting the elements of a
  sequence one after another by that rule is a stable insertion sort,
  `SortByKey`, which is also how the model reads the comparator sorts of
  `Array.prototype.sort` (stable since ECMAScript 2019).
*/
module StableOrder {
  import opened Seqs

  /** `s` is in non-decreasing order of `key`. */
  predicate SortedBy<T>(s: seq<T>, key: T -> int) {
    forall i, j :: 0 <= i < j < |s| ==> key(s[i]) <= key(s[j])
  }

  /** `s` is ordered by `key`, and by `tie` among elements with the same key. */
  predicate SortedThenBy<T>(s: seq<T>, key: T -> int, tie: T -> int) {
    forall i, j :: 0 <= i < j < |s| ==>
      key(s[i]) < key(s[j]) || (key(s[i]) == key(s[j]) && tie(s[i]) <= tie(s[j]))
  }

  /** The test "has key `k`", as a filter predicate. */
  function KeyIs<T>(key: T -> int, k: int): T -> bool {
    x => key(x) == k
  }

  /** Index of the first element whose key is strictly greater than `k`; |s| when there is none. */
  function FirstGreater<T>(s: seq<T>, k: int, key: T -> int): (n: nat)
    ensures n <= |s|
    ensures forall j :: 0 <= j < n ==> key(s[j]) <= k
    ensures n < |s| ==> k < key(s[n])
    decreases |s|
  {
    if s == [] then 0
    else if k < key(s[0]) then 0
    else 1 + FirstGreater(s[1..], k, key)
  }

  /** The two conditions of FirstGreater's contract single out one index. */
  lemma FirstGreaterUnique<T>(s: seq<T>, k: int, key: T -> int, m: nat)
    requires m <= |s|
    requires forall j :: 0 <= j < m ==> key(s[j]) <= k
    requires m < |s| ==> k < key(s[m])
    ensures FirstGreater(s, k, key) == m
  {
  }

  /** The splice that InsertByKey performs adds `x` and nothing else. */
  lemma SpliceMultiset<T>(s: seq<T>, n: nat, x: T)
    requires n <= |s|
    ensures multiset(s[..n] + [x] + s[n..]) == multiset(s) + multiset{x}
  {
    assert s == s[..n] + s[n..];
  }

  /** Ordered insert of `x` into `s`; it adds `x` and nothing else. */
  function InsertByKey<T>(s: seq<T>, x: T, key: T -> int): (r: seq<T>)
    ensures |r| == |s| + 1
    ensures multiset(r) == multiset(s) + multiset{x}
  {
    var n := FirstGreater(s, key(x), key);
    SpliceMultiset(s, n, x);
    s[..n] + [x] + s[n..]
  }

  /** Position by position, what splicing `x` into `s` at index `n` gives. */
  lemma SpliceAt<T>(s: seq<T>, n: nat, x: T)
    requires n <= |s|
    ensures var r := s[..n] + [x] + s[n..];
      && r[n] == x && r[..n] == s[..n] && r[n + 1..] == s[n..]
      && forall i :: 0 <= i < |r| ==> r[i] == if i < n then s[i] else if i == n then x else s[i - 1]
  {
  }

  /**
    Where the new element lands: the old elements keep their order, and in a
    sorted sequence `x` comes after every element whose key is at most its own
    (so after every element of EQUAL key) and before every greater one.
  */
  lemma InsertByKeyPlacement<T>(s: seq<T>, x: T, key: T -> int)
    requires SortedBy(s, key)
    ensures var r, n := InsertByKey(s, x, key), FirstGreater(s, key(x), key);
      && r[n] == x && r[..n] == s[..n] && r[n + 1..] == s[n..]
      && (forall j :: 0 <= j < |s| ==> (key(s[j]) <= key(x) <==> j < n))
  {
    var n := FirstGreater(s, key(x), key);
    assert InsertByKey(s, x, key) == s[..n] + [x] + s[n..];
    SpliceAt(s, n, x);
    forall j | n <= j < |s| ensures key(x) < key(s[j]) {
      assert key(s[n]) <= key(s[j]);
    }
  }

  /**
    Splicing `x` in at a boundary `n` (keys at most key(x) before it, greater
    keys from it on) keeps an order by (key, then tie) when `x` is not
    smaller under `tie` than anything present.
  */
  lemma SpliceThenBy<T>(s: seq<T>, n: nat, x: T, key: T -> int, tie: T -> int)
    requires n <= |s|
    requires SortedThenBy(s, key, tie)
    requires forall j :: 0 <= j < |s| ==> (key(s[j]) <= key(x) <==> j < n)
    requires forall i :: 0 <= i < |s| ==> tie(s[i]) <= tie(x)
    ensures SortedThenBy(s[..n] + [x] + s[n..], key, tie)
  {
    var r := s[..n] + [x] + s[n..];
    SpliceAt(s, n, x);
    forall i, j | 0 <= i < j < |r|
      ensures key(r[i]) < key(r[j]) || (key(r[i]) == key(r[j]) && tie(r[i]) <= tie(r[j]))
    {
      if j < n {
        assert r[i] == s[i] && r[j] == s[j];
      } else if n < i {
        assert r[i] == s[i - 1] && r[j] == s[j - 1];
      } else if i < n < j {
        assert r[i] == s[i] && r[j] == s[j - 1];
      }
    }
  }

  /** Splicing `x` in at a boundary `n` of a sorted sequence keeps it sorted. */
  lemma SpliceSorted<T>(s: seq<T>, n: nat, x: T, key: T -> int)
    requires n <= |s|
    requires SortedBy(s, key)
    requires forall j :: 0 <= j < |s| ==> (key(s[j]) <= key(x) <==> j < n)
    ensures SortedBy(s[..n] + [x] + s[n..], key)
  {
    var r := s[..n] + [x] + s[n..];
    SpliceAt(s, n, x);
    forall i, j | 0 <= i < j < |r| ensures key(r[i]) <= key(r[j]) {
      if j < n {
        assert r[i] == s[i] && r[j] == s[j];
      } else if n < i {
        assert r[i] == s[i - 1] && r[j] == s[j - 1];
      } else if i < n < j {
        assert r[i] == s[i] && r[j] == s[j - 1];
      }
    }
  }

  /** Ordered insertion keeps a sorted sequence sorted. */
  lemma InsertByKeySorted<T>(s: seq<T>, x: T, key: T -> int)
    requires SortedBy(s, key)
    ensures SortedBy(InsertByKey(s, x, key), key)
  {
    var n := FirstGreater(s, key(x), key);
    InsertByKeyPlacement(s, x, key);
    assert InsertByKey(s, x, key) == s[..n] + [x] + s[n..];
    SpliceSorted(s, n, x, key);
  }

  /**
    Ordered insertion keeps the secondary order `tie` among equal keys when the
    new element is not smaller under `tie` than anything already present.
  */
  lemma InsertByKeyThenBy<T>(s: seq<T>, x: T, key: T -> int, tie: T -> int)
    requires SortedThenBy(s, key, tie)
    requires forall i :: 0 <= i < |s| ==> tie(s[i]) <= tie(x)
    ensures SortedThenBy(InsertByKey(s, x, key), key, tie)
  {
    var n := FirstGreater(s, key(x), key);
    assert SortedBy(s, key);
    InsertByKeyPlacement(s, x, key);
    assert InsertByKey(s, x, key) == s[..n] + [x] + s[n..];
    SpliceThenBy(s, n, x, key, tie);
  }

  /**
    Stable sort: the elements of `s`, inserted one by one in input order.
    The result is a permutation of `s`.
  */
  function SortByKey<T>(s: seq<T>, key: T -> int): (r: seq<T>)
    ensures |r| == |s|
    ensures multiset(r) == multiset(s)
    decreases |s|
  {
    if s == [] then []
    else
      var init, x := s[..|s| - 1], s[|s| - 1];
      assert s == init + [x];
      InsertByKey(SortByKey(init, key), x, key)
  }

  /** Unfolding SortByKey on a sequence that ends in `x`. */
  lemma SortByKeySnoc<T>(s: seq<T>, x: T, key: T -> int)
    ensures SortByKey(s + [x], key) == InsertByKey(SortByKey(s, key), x, key)
  {
    assert (s + [x])[..|s|] == s;
  }

  /** The stable sort is sorted. */
  lemma {:induction false} SortByKeySorted<T>(s: seq<T>, key: T -> int)
    ensures SortedBy(SortByKey(s, key), key)
    decreases |s|
  {
    if s != [] {
      var init := s[..|s| - 1];
      SortByKeySorted(init, key);
      InsertByKeySorted(SortByKey(init, key), s[|s| - 1], key);
    }
  }

  /** Sorting by `key` an input already ordered by `tie` gives the order (key, then tie). */
  lemma {:induction false} SortByKeyThenBy<T>(s: seq<T>, key: T -> int, tie: T -> int)
    requires SortedBy(s, tie)
    ensures SortedThenBy(SortByKey(s, key), key, tie)
    decreases |s|
  {
    if s != [] {
      var init, x := s[..|s| - 1], s[|s| - 1];
      var sorted := SortByKey(init, key);
      SortByKeyThenBy(init, key, tie);
      forall i | 0 <= i < |sorted| ensures tie(sorted[i]) <= tie(x) {
        assert sorted[i] in multiset(init);
        var a :| 0 <= a < |init| && init[a] == sorted[i];
        assert init[a] == s[a];
      }
      InsertByKeyThenBy(sorted, x, key, tie);
    }
  }

  /** Inserting at the boundary between the elements of key at most key(x) and the greater ones. */
  lemma InsertByKeyAtBoundary<T>(a: seq<T>, b: seq<T>, x: T, key: T -> int)
    requires forall j :: 0 <= j < |a| ==> key(a[j]) <= key(x)
    requires b != [] ==> key(x) < key(b[0])
    ensures InsertByKey(a + b, x, key) == a + [x] + b
  {
    FirstGreaterUnique(a + b, key(x), key, |a|);
    assert (a + b)[..|a|] == a && (a + b)[|a|..] == b;
  }

  /** Filtering a sequence with `x` spliced in at index `n`. */
  lemma FilterSplice<T>(s: seq<T>, n: nat, x: T, p: T -> bool)
    requires n <= |s|
    ensures Filter(s[..n] + [x] + s[n..], p)
         == Filter(s[..n], p) + (if p(x) then [x] else []) + Filter(s[n..], p)
    ensures Filter(s, p) == Filter(s[..n], p) + Filter(s[n..], p)
  {
    var lo, hi := s[..n], s[n..];
    assert Filter(lo + [x] + hi, p) == Filter(lo + [x], p) + Filter(hi, p) by {
      FilterConcat(lo + [x], hi, p);
    }
    assert Filter(lo + [x], p) == Filter(lo, p) + (if p(x) then [x] else []) by {
      FilterSnoc(lo, x, p);
    }
    assert Filter(s, p) == Filter(lo, p) + Filter(hi, p) by {
      TakeDrop(s, n);
      FilterConcat(lo, hi, p);
    }
  }

  /** Filtering an insertion: the filter of the old sequence, with `x` inserted when it passes. */
  lemma FilterInsertByKey<T>(s: seq<T>, x: T, key: T -> int, p: T -> bool)
    requires SortedBy(s, key)
    ensures Filter(InsertByKey(s, x, key), p)
         == if p(x) then InsertByKey(Filter(s, p), x, key) else Filter(s, p)
  {
    var n := FirstGreater(s, key(x), key);
    var lo, hi := s[..n], s[n..];
    assert InsertByKey(s, x, key) == lo + [x] + hi;
    FilterSplice(s, n, x, p);
    if p(x) {
      var flo, fhi := Filter(lo, p), Filter(hi, p);
      FilterMembers(lo, p);
      FilterMembers(hi, p);
      forall j | 0 <= j < |flo| ensures key(flo[j]) <= key(x) {
        assert flo[j] in lo;
      }
      if fhi != [] {
        assert fhi[0] in hi;
        InsertByKeyPlacement(s, x, key);
      }
      InsertByKeyAtBoundary(flo, fhi, x, key);
    }
  }

  /** Filtering commutes with the stable sort. */
  lemma {:induction false} FilterSortByKey<T>(s: seq<T>, key: T -> int, p: T -> bool)
    ensures Filter(SortByKey(s, key), p) == SortByKey(Filter(s, p), key)
    decreases |s|
  {
    if s != [] {
      var init, x := s[..|s| - 1], s[|s| - 1];
      var sorted := SortByKey(init, key);
      assert s == init + [x];
      assert SortByKey(s, key) == InsertByKey(sorted, x, key);
      FilterSortByKey(init, key, p);
      SortByKeySorted(init, key);
      FilterInsertByKey(sorted, x, key, p);
      FilterSnoc(init, x, p);
      if p(x) {
        calc {
          Filter(SortByKey(s, key), p);
          InsertByKey(Filter(sorted, p), x, key);
          InsertByKey(SortByKey(Filter(init, p), key), x, key);
          { SortByKeySnoc(Filter(init, p), x, key); }
          SortByKey(Filter(init, p) + [x], key);
          SortByKey(Filter(s, p), key);
        }
      } else {
        assert Filter(s, p) == Filter(init, p);
      }
    }
  }

  /** Sorting a sequence whose elements all have the same key changes nothing. */
  lemma {:induction false} SortByKeyOfEqualKeys<T>(s: seq<T>, key: T -> int, k: int)
    requires forall i :: 0 <= i < |s| ==> key(s[i]) == k
    ensures SortByKey(s, key) == s
    decreases |s|
  {
    if s != [] {
      var init, x := s[..|s| - 1], s[|s| - 1];
      SortByKeyOfEqualKeys(init, key, k);
      FirstGreaterUnique(init, key(x), key, |init|);
      assert init + [x] == s;
    }
  }

  /**
    Stability: among the elements that share any one key, the sorted sequence
    keeps the input order.
  */
  lemma SortByKeyStable<T>(s: seq<T>, key: T -> int, k: int)
    ensures Filter(SortByKey(s, key), KeyIs(key, k)) == Filter(s, KeyIs(key, k))
  {
    var same := Filter(s, KeyIs(key, k));
    FilterMembers(s, KeyIs(key, k));
    forall i | 0 <= i < |same| ensures key(same[i]) == k {
      assert KeyIs(key, k)(same[i]);
    }
    FilterSortByKey(s, key, KeyIs(key, k));
    SortByKeyOfEqualKeys(same, key, k);
  }
}
