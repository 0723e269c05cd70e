/**
 * `_priority_sort`: Python's `sorted(runs, key=get_priority, reverse=True)`.
 * Python's sort is stable also when reversed, so elements with equal keys
 * keep the order they arrived in. The model is a stable insertion sort over
 * any key function; SortedWithSameClassesIsSort shows that it is the only
 * stable descending sort, so it agrees with Python's.
 */
module PrioritySorting {
  import opened RunPriority

  /** Keys do not increase from front to back. */
  predicate Sorted<T>(s: seq<T>, key: T -> int) {
    forall i, j :: 0 <= i < j < |s| ==> key(s[i]) >= key(s[j])
  }

  /** The elements of `s` whose key is `k`, in their order in `s`. */
  function WithKey<T>(s: seq<T>, key: T -> int, k: int): (r: seq<T>) {
    if |s| == 0 then []
    else (if key(s[0]) == k then [s[0]] else []) + WithKey(s[1..], key, k)
  }

  /** The two sequences agree, key by key, on which elements come in which order. */
  ghost predicate SameClasses<T>(s: seq<T>, t: seq<T>, key: T -> int) {
    forall k :: WithKey(s, key, k) == WithKey(t, key, k)
  }

  /** Puts `x` after every element with a larger key and before every other element. */
  function Insert<T>(x: T, s: seq<T>, key: T -> int): (r: seq<T>)
    requires Sorted(s, key)
    ensures Sorted(r, key)
    ensures multiset(r) == multiset(s) + multiset{x}
    ensures |r| == |s| + 1
    ensures r[0] == x || (|s| > 0 && r[0] == s[0])
  {
    if |s| == 0 || key(s[0]) <= key(x) then [x] + s
    else
      var rest := Insert(x, s[1..], key);
      assert s == [s[0]] + s[1..];
      assert key(rest[0]) <= key(s[0]);
      [s[0]] + rest
  }

  /** The stable sort by descending key. */
  function SortDescending<T>(s: seq<T>, key: T -> int): (r: seq<T>)
    ensures Sorted(r, key)
    ensures multiset(r) == multiset(s)
    ensures |r| == |s|
  {
    if |s| == 0 then []
    else
      assert s == [s[0]] + s[1..];
      Insert(s[0], SortDescending(s[1..], key), key)
  }

  /** `_priority_sort`: the runs, highest priority first, FIFO among equal priorities. */
  function PrioritySort(runs: seq<Run>): (r: seq<Run>)
    ensures Sorted(r, Priority)
    ensures multiset(r) == multiset(runs)
  {
    SortDescending(runs, Priority)
  }

  /** A prefix holds no element more often than the whole sequence. */
  lemma PrefixSubMultiset<T>(s: seq<T>, n: nat)
    requires n <= |s|
    ensures multiset(s[..n]) <= multiset(s)
  {
    assert s == s[..n] + s[n..];
  }

  /** In a sorted sequence, every element before position `n` outranks every element from `n` on. */
  lemma PrefixOutranksRest<T>(s: seq<T>, key: T -> int, n: nat)
    requires Sorted(s, key) && n <= |s|
    ensures forall i, j :: 0 <= i < n <= j < |s| ==> key(s[..n][i]) >= key(s[j])
  {
  }

  lemma {:induction false} WithKeyAppend<T>(a: seq<T>, b: seq<T>, key: T -> int, k: int)
    ensures WithKey(a + b, key, k) == WithKey(a, key, k) + WithKey(b, key, k)
  {
    if |a| == 0 {
      assert a + b == b;
    } else {
      assert (a + b)[0] == a[0];
      assert (a + b)[1..] == a[1..] + b;
      WithKeyAppend(a[1..], b, key, k);
    }
  }

  /** Every element of `WithKey(s, key, k)` is in `s` and has key `k`. */
  lemma {:induction false} WithKeyMembers<T>(s: seq<T>, key: T -> int, k: int, x: T)
    requires x in WithKey(s, key, k)
    ensures x in s && key(x) == k
  {
    if x in WithKey(s[1..], key, k) {
      WithKeyMembers(s[1..], key, k, x);
    }
  }

  /** An element of `s` shows up among the elements of its own key. */
  lemma {:induction false} WithKeyComplete<T>(s: seq<T>, key: T -> int, x: T)
    requires x in s
    ensures x in WithKey(s, key, key(x))
  {
    if x != s[0] {
      WithKeyComplete(s[1..], key, x);
    }
  }

  lemma NonEmptyHasClass<T>(s: seq<T>, key: T -> int)
    requires |s| > 0
    ensures WithKey(s, key, key(s[0])) != []
  {
  }

  lemma {:induction false} InsertClasses<T>(x: T, s: seq<T>, key: T -> int, k: int)
    requires Sorted(s, key)
    ensures WithKey(Insert(x, s, key), key, k)
         == if key(x) == k then [x] + WithKey(s, key, k) else WithKey(s, key, k)
  {
    if |s| == 0 || key(s[0]) <= key(x) {
      assert Insert(x, s, key) == [x] + s;
      WithKeyAppend([x], s, key, k);
    } else {
      var r := Insert(x, s, key);
      InsertClasses(x, s[1..], key, k);
      assert r[1..] == Insert(x, s[1..], key);
    }
  }

  /**
   * Stability: for every key, the elements with that key appear in the
   * sorted sequence in the same order as in the input.
   */
  lemma {:induction false} SortStable<T>(s: seq<T>, key: T -> int)
    ensures SameClasses(SortDescending(s, key), s, key)
  {
    if |s| > 0 {
      SortStable(s[1..], key);
      forall k ensures WithKey(SortDescending(s, key), key, k) == WithKey(s, key, k) {
        InsertClasses(s[0], SortDescending(s[1..], key), key, k);
      }
    }
  }

  /** A sequence already in order is returned unchanged. */
  lemma {:induction false} SortedIsFixpoint<T>(s: seq<T>, key: T -> int)
    requires Sorted(s, key)
    ensures SortDescending(s, key) == s
  {
    if |s| > 0 {
      SortedIsFixpoint(s[1..], key);
      assert SortDescending(s[1..], key) == s[1..];
      if |s| > 1 {
        assert key(s[1..][0]) <= key(s[0]);
      }
      assert [s[0]] + s[1..] == s;
    }
  }

  /** Sorting twice gives the same sequence as sorting once. */
  lemma SortIdempotent<T>(s: seq<T>, key: T -> int)
    ensures SortDescending(SortDescending(s, key), key) == SortDescending(s, key)
  {
    SortedIsFixpoint(SortDescending(s, key), key);
  }

  /** The head of a sorted sequence has the largest key in it. */
  lemma HeadIsHighest<T>(t: seq<T>, key: T -> int, x: T)
    requires Sorted(t, key) && x in t
    ensures key(x) <= key(t[0])
  {
    var k :| 0 <= k < |t| && t[k] == x;
    assert k == 0 || key(t[0]) >= key(t[k]);
  }

  /** Two sorted sequences with the same elements per key, in the same order, are equal. */
  lemma {:induction false} SortedClassesDetermine<T>(t: seq<T>, u: seq<T>, key: T -> int)
    requires Sorted(t, key) && Sorted(u, key)
    requires SameClasses(t, u, key)
    ensures t == u
  {
    if |t| == 0 || |u| == 0 {
      if |t| > 0 {
        NonEmptyHasClass(t, key);
        assert false;
      } else if |u| > 0 {
        NonEmptyHasClass(u, key);
        assert false;
      }
    } else {
      var m := key(t[0]);
      WithKeyComplete(t, key, t[0]);
      assert t[0] in WithKey(u, key, m);
      WithKeyMembers(u, key, m, t[0]);
      HeadIsHighest(u, key, t[0]);
      WithKeyComplete(u, key, u[0]);
      assert u[0] in WithKey(t, key, key(u[0]));
      WithKeyMembers(t, key, key(u[0]), u[0]);
      HeadIsHighest(t, key, u[0]);
      assert key(u[0]) == m;
      assert WithKey(t, key, m) == [t[0]] + WithKey(t[1..], key, m);
      assert WithKey(u, key, m) == [u[0]] + WithKey(u[1..], key, m);
      assert WithKey(t, key, m) == WithKey(u, key, m);
      assert t[0] == WithKey(t, key, m)[0] == WithKey(u, key, m)[0] == u[0];
      forall k ensures WithKey(t[1..], key, k) == WithKey(u[1..], key, k) {
        var head := if key(t[0]) == k then [t[0]] else [];
        assert WithKey(t, key, k) == head + WithKey(t[1..], key, k);
        assert WithKey(u, key, k) == head + WithKey(u[1..], key, k);
        assert WithKey(t, key, k) == WithKey(u, key, k);
        assert WithKey(t[1..], key, k) == WithKey(t, key, k)[|head|..];
        assert WithKey(u[1..], key, k) == WithKey(u, key, k)[|head|..];
      }
      SortedClassesDetermine(t[1..], u[1..], key);
      assert t == [t[0]] + t[1..] && u == [u[0]] + u[1..];
    }
  }

  /**
   * Any sequence that is in descending key order and keeps each key's
   * elements in input order is exactly SortDescending's result: the sort is
   * the stable one.
   */
  lemma SortedWithSameClassesIsSort<T>(s: seq<T>, t: seq<T>, key: T -> int)
    requires Sorted(t, key) && SameClasses(t, s, key)
    ensures t == SortDescending(s, key)
  {
    SortStable(s, key);
    SortedClassesDetermine(t, SortDescending(s, key), key);
  }
}
