/**
 * A stable ascending sort by an integer key: what `Array.prototype.sort((a, b) => a.k - b.k)`
 * does on integer keys (the sort is stable, and the comparator's sign orders by `k`).
 */
module Sorting {
  import opened Seqs

  /** `s` is in non-decreasing order of `key`. */
  ghost predicate SortedBy<T>(s: seq<T>, key: T -> int) {
    forall i, j :: 0 <= i < j < |s| ==> key(s[i]) <= key(s[j])
  }

  /** The tie class of `k`: the elements of `s` whose key is `k`, in their order in `s`. */
  function WithKey<T>(s: seq<T>, key: T -> int, k: int): seq<T> {
    if |s| == 0 then []
    else (if key(s[0]) == k then [s[0]] else []) + WithKey(s[1..], key, k)
  }

  lemma {:induction false} WithKeyConcat<T>(a: seq<T>, b: seq<T>, key: T -> int, k: int)
    ensures WithKey(a + b, key, k) == WithKey(a, key, k) + WithKey(b, key, k)
    decreases |a|
  {
    if |a| == 0 {
      assert a + b == b;
    } else {
      var head := if key(a[0]) == k then [a[0]] else [];
      assert (a + b)[0] == a[0];
      assert (a + b)[1..] == a[1..] + b;
      assert WithKey(a + b, key, k) == head + WithKey(a[1..] + b, key, k);
      assert WithKey(a, key, k) == head + WithKey(a[1..], key, k);
      WithKeyConcat(a[1..], b, key, k);
    }
  }

  /** An element lies in its own tie class, and a tie class holds nothing else. */
  lemma {:induction false} WithKeyMembers<T>(s: seq<T>, key: T -> int, k: int)
    ensures forall x :: x in WithKey(s, key, k) <==> x in s && key(x) == k
    decreases |s|
  {
    if |s| > 0 {
      WithKeyMembers(s[1..], key, k);
      assert s == [s[0]] + s[1..];
    }
  }

  lemma WithKeySingle<T>(x: T, key: T -> int, k: int)
    ensures WithKey([x], key, k) == if key(x) == k then [x] else []
  {
    assert [x][1..] == [];
  }

  /**
   * Inserts `x` after the last element whose key is at most `key(x)`, scanning from the back;
   * in a sorted list that is after every element it ties with, which keeps the sort stable.
   */
  function Insert<T>(s: seq<T>, x: T, key: T -> int): (r: seq<T>)
    ensures |r| == |s| + 1
    ensures multiset(r) == multiset(s) + multiset{x}
    decreases |s|
  {
    if |s| == 0 || key(s[|s| - 1]) <= key(x) then s + [x]
    else
      assert s == s[..|s| - 1] + [s[|s| - 1]];
      Insert(s[..|s| - 1], x, key) + [s[|s| - 1]]
  }

  /** Inserting into a sorted list keeps it sorted. */
  lemma {:induction false} InsertSorted<T>(s: seq<T>, x: T, key: T -> int)
    requires SortedBy(s, key)
    ensures SortedBy(Insert(s, x, key), key)
    decreases |s|
  {
    if |s| > 0 && key(x) < key(s[|s| - 1]) {
      var last := s[|s| - 1];
      var init := s[..|s| - 1];
      var r' := Insert(init, x, key);
      InsertSorted(init, x, key);
      forall i | 0 <= i < |r'|
        ensures key(r'[i]) <= key(last)
      {
        assert r'[i] in multiset(r');
        if r'[i] != x {
          assert r'[i] in multiset(init);
          var j :| 0 <= j < |init| && init[j] == r'[i];
          assert init[j] == s[j];
        }
      }
    }
  }

  /** Inserting `x` appends it to its own tie class and leaves every other class alone. */
  lemma {:induction false} InsertClasses<T>(s: seq<T>, x: T, key: T -> int, k: int)
    ensures WithKey(Insert(s, x, key), key, k) == WithKey(s, key, k) + (if key(x) == k then [x] else [])
    decreases |s|
  {
    WithKeySingle(x, key, k);
    if |s| == 0 || key(s[|s| - 1]) <= key(x) {
      WithKeyConcat(s, [x], key, k);
    } else {
      var last := s[|s| - 1];
      var init := s[..|s| - 1];
      var r' := Insert(init, x, key);
      var ofX := if key(x) == k then [x] else [];
      var ofLast := if key(last) == k then [last] else [];
      assert s == init + [last];
      assert Insert(s, x, key) == r' + [last];
      InsertClasses(init, x, key, k);
      WithKeySingle(last, key, k);
      WithKeyConcat(r', [last], key, k);
      WithKeyConcat(init, [last], key, k);
      calc {
        WithKey(Insert(s, x, key), key, k);
        WithKey(r', key, k) + ofLast;
        WithKey(init, key, k) + ofX + ofLast;
      }
    }
  }

  /** Stable insertion sort by `key`. */
  function SortBy<T>(s: seq<T>, key: T -> int): (r: seq<T>)
    ensures |r| == |s|
    ensures SortedBy(r, key)
    ensures multiset(r) == multiset(s)
    decreases |s|
  {
    if |s| == 0 then []
    else
      assert s == s[..|s| - 1] + [s[|s| - 1]];
      var sorted := SortBy(s[..|s| - 1], key);
      InsertSorted(sorted, s[|s| - 1], key);
      Insert(sorted, s[|s| - 1], key)
  }

  /** Stability: sorting keeps the relative order of every tie class. */
  lemma {:induction false} SortByStable<T>(s: seq<T>, key: T -> int, k: int)
    ensures WithKey(SortBy(s, key), key, k) == WithKey(s, key, k)
    decreases |s|
  {
    if |s| > 0 {
      var init := s[..|s| - 1];
      var last := s[|s| - 1];
      assert s == init + [last];
      SortByStable(init, key, k);
      InsertClasses(SortBy(init, key), last, key, k);
      WithKeyConcat(init, [last], key, k);
      WithKeySingle(last, key, k);
    }
  }

  /** Removing the last element removes it from its tie class and nothing else. */
  lemma DropLastClass<T>(s: seq<T>, key: T -> int, k: int)
    requires |s| > 0
    ensures WithKey(s, key, k)
         == WithKey(s[..|s| - 1], key, k) + (if key(s[|s| - 1]) == k then [s[|s| - 1]] else [])
  {
    assert s == s[..|s| - 1] + [s[|s| - 1]];
    WithKeyConcat(s[..|s| - 1], [s[|s| - 1]], key, k);
    WithKeySingle(s[|s| - 1], key, k);
  }

  /** In a sorted list no element has a larger key than the last one. */
  lemma LastIsMax<T>(s: seq<T>, key: T -> int, x: T)
    requires SortedBy(s, key) && x in s
    ensures key(x) <= key(s[|s| - 1])
  {
    var i :| 0 <= i < |s| && s[i] == x;
    if i < |s| - 1 {
      assert key(s[i]) <= key(s[|s| - 1]);
    }
  }

  /** Two sorted lists with the same tie classes end on the same key. */
  lemma SameLastKey<T>(a: seq<T>, b: seq<T>, key: T -> int)
    requires |a| > 0 && |b| > 0 && SortedBy(a, key) && SortedBy(b, key)
    requires forall k :: WithKey(a, key, k) == WithKey(b, key, k)
    ensures key(a[|a| - 1]) == key(b[|b| - 1])
  {
    var la, lb := a[|a| - 1], b[|b| - 1];
    WithKeyMembers(a, key, key(lb));
    WithKeyMembers(b, key, key(lb));
    assert WithKey(a, key, key(lb)) == WithKey(b, key, key(lb));
    assert lb in WithKey(b, key, key(lb));
    LastIsMax(a, key, lb);
    WithKeyMembers(a, key, key(la));
    WithKeyMembers(b, key, key(la));
    assert WithKey(a, key, key(la)) == WithKey(b, key, key(la));
    assert la in WithKey(a, key, key(la));
    LastIsMax(b, key, la);
  }

  /** A non-empty list has a non-empty tie class. */
  lemma NonEmptyClass<T>(s: seq<T>, key: T -> int)
    requires |s| > 0
    ensures WithKey(s, key, key(s[0])) != []
  {
    WithKeyMembers(s, key, key(s[0]));
    assert s[0] in WithKey(s, key, key(s[0]));
  }

  lemma SortByStableAll<T>(s: seq<T>, key: T -> int)
    ensures forall k :: WithKey(SortBy(s, key), key, k) == WithKey(s, key, k)
  {
    forall k
      ensures WithKey(SortBy(s, key), key, k) == WithKey(s, key, k)
    {
      SortByStable(s, key, k);
    }
  }

  /**
   * A sorted arrangement is determined by its tie classes: two sorted lists whose tie classes
   * agree are equal.
   */
  lemma {:induction false} SortedByClasses<T>(a: seq<T>, b: seq<T>, key: T -> int)
    requires SortedBy(a, key) && SortedBy(b, key)
    requires forall k :: WithKey(a, key, k) == WithKey(b, key, k)
    ensures a == b
    decreases |a|
  {
    if |a| == 0 {
      if |b| > 0 {
        NonEmptyClass(b, key);
        assert false;
      }
    } else if |b| == 0 {
      NonEmptyClass(a, key);
      assert false;
    } else {
      var la, lb := a[|a| - 1], b[|b| - 1];
      var a', b' := a[..|a| - 1], b[..|b| - 1];
      SameLastKey(a, b, key);
      var m := key(la);
      forall k
        ensures WithKey(a', key, k) == WithKey(b', key, k)
      {
        DropLastClass(a, key, k);
        DropLastClass(b, key, k);
        assert WithKey(a, key, k) == WithKey(b, key, k);
        if k == m {
          var wa, wb := WithKey(a', key, m), WithKey(b', key, m);
          var w := WithKey(a, key, m);
          assert w == wa + [la] && w == wb + [lb];
          assert wa == w[..|wa|] && wb == w[..|wb|];
        } else {
          assert key(la) != k && key(lb) != k;
          assert WithKey(a, key, k) == WithKey(a', key, k) + [];
          assert WithKey(a', key, k) + [] == WithKey(a', key, k);
          assert WithKey(b, key, k) == WithKey(b', key, k) + [];
          assert WithKey(b', key, k) + [] == WithKey(b', key, k);
        }
      }
      assert la == lb by {
        DropLastClass(a, key, m);
        DropLastClass(b, key, m);
        assert WithKey(a, key, m) == WithKey(b, key, m);
        var wa, wb := WithKey(a', key, m), WithKey(b', key, m);
        assert (wa + [la])[|wa|] == la;
        assert (wb + [lb])[|wb|] == lb;
      }
      assert SortedBy(a', key) && SortedBy(b', key);
      SortedByClasses(a', b', key);
      assert a == a' + [la] && b == b' + [lb];
    }
  }

  /** `SortBy` is THE stable sort: every sorted list with the input's tie classes equals it. */
  lemma SortByIsTheStableSort<T>(s: seq<T>, r: seq<T>, key: T -> int)
    requires SortedBy(r, key)
    requires forall k :: WithKey(r, key, k) == WithKey(s, key, k)
    ensures r == SortBy(s, key)
  {
    forall k
      ensures WithKey(SortBy(s, key), key, k) == WithKey(r, key, k)
    {
      SortByStable(s, key, k);
    }
    SortedByClasses(SortBy(s, key), r, key);
  }

  /** A lower bound on every key survives filtering. */
  lemma {:induction false} FilterKeysAbove<T>(s: seq<T>, p: T -> bool, key: T -> int, b: int)
    requires forall i :: 0 <= i < |s| ==> b <= key(s[i])
    ensures forall i :: 0 <= i < |Filter(s, p)| ==> b <= key(Filter(s, p)[i])
    decreases |s|
  {
    if |s| > 0 {
      FilterKeysAbove(s[1..], p, key, b);
    }
  }

  lemma ConsSorted<T>(x: T, s: seq<T>, key: T -> int)
    requires SortedBy(s, key)
    requires forall i :: 0 <= i < |s| ==> key(x) <= key(s[i])
    ensures SortedBy([x] + s, key)
  {
    var r := [x] + s;
    forall i, j | 0 <= i < j < |r|
      ensures key(r[i]) <= key(r[j])
    {
      if i == 0 {
        assert r[j] == s[j - 1];
      } else {
        assert r[i] == s[i - 1] && r[j] == s[j - 1];
      }
    }
  }

  /** Filtering a sorted list leaves it sorted. */
  lemma {:induction false} FilterSorted<T>(s: seq<T>, p: T -> bool, key: T -> int)
    requires SortedBy(s, key)
    ensures SortedBy(Filter(s, p), key)
    decreases |s|
  {
    if |s| > 0 {
      var tl := s[1..];
      assert SortedBy(tl, key) by {
        forall i, j | 0 <= i < j < |tl| ensures key(tl[i]) <= key(tl[j]) {
          assert tl[i] == s[i + 1] && tl[j] == s[j + 1];
        }
      }
      assert forall i :: 0 <= i < |tl| ==> key(s[0]) <= key(tl[i]) by {
        forall i | 0 <= i < |tl| ensures key(s[0]) <= key(tl[i]) {
          assert tl[i] == s[i + 1];
        }
      }
      FilterSorted(tl, p, key);
      FilterKeysAbove(tl, p, key, key(s[0]));
      var rest := Filter(tl, p);
      if p(s[0]) {
        assert Filter(s, p) == [s[0]] + rest;
        ConsSorted(s[0], rest, key);
      } else {
        assert Filter(s, p) == rest;
      }
    }
  }

  /** Sorting a filtered list keeps exactly the elements the filter selects. */
  lemma SortFilterMembers<T>(s: seq<T>, p: T -> bool, key: T -> int)
    ensures forall i :: 0 <= i < |SortBy(Filter(s, p), key)| ==>
      p(SortBy(Filter(s, p), key)[i]) && SortBy(Filter(s, p), key)[i] in s
    ensures forall i :: 0 <= i < |s| && p(s[i]) ==> s[i] in SortBy(Filter(s, p), key)
  {
    var f := Filter(s, p);
    var r := SortBy(f, key);
    forall i | 0 <= i < |r|
      ensures p(r[i]) && r[i] in s
    {
      assert r[i] in multiset(f);
      var j :| 0 <= j < |f| && f[j] == r[i];
    }
    forall i | 0 <= i < |s| && p(s[i])
      ensures s[i] in r
    {
      assert s[i] in f;
      assert s[i] in multiset(r);
    }
  }
}
