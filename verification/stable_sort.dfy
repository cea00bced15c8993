/** A stable sort on an integer key: the behaviour of JavaScript's
    `Array.prototype.sort` (stable since ECMAScript 2019) with the comparator
    `(a, b) => key(a) - key(b)`. */
module StableSort {

  /** `s` is non-decreasing in `key`. */
  predicate SortedBy<T>(s: seq<T>, key: T -> int) {
    forall i, j :: 0 <= i < j < |s| ==> key(s[i]) <= key(s[j])
  }

  /** The elements of `s` whose key is `k`, in their order in `s`. */
  function WithKey<T>(s: seq<T>, key: T -> int, k: int): seq<T>
    decreases |s|
  {
    if |s| == 0 then []
    else (if key(s[0]) == k then [s[0]] else []) + WithKey(s[1..], key, k)
  }

  /** Places `x` in front of the first element whose key is not smaller,
      so it stays ahead of every element with an equal key. */
  function Insert<T>(x: T, s: seq<T>, key: T -> int): (r: seq<T>)
    ensures |r| == |s| + 1
    ensures multiset(r) == multiset(s) + multiset{x}
    decreases |s|
  {
    if |s| == 0 then [x]
    else if key(x) <= key(s[0]) then [x] + s
    else
      assert s == [s[0]] + s[1..];
      [s[0]] + Insert(x, s[1..], key)
  }

  /** Inserting into a sorted sequence keeps it sorted. */
  lemma {:induction false} InsertSorted<T>(x: T, s: seq<T>, key: T -> int)
    requires SortedBy(s, key)
    ensures SortedBy(Insert(x, s, key), key)
    decreases |s|
  {
    if |s| > 0 && key(x) > key(s[0]) {
      var rest := Insert(x, s[1..], key);
      InsertSorted(x, s[1..], key);
      forall i | 0 <= i < |rest|
        ensures key(s[0]) <= key(rest[i])
      {
        assert rest[i] in multiset(s[1..]) + multiset{x};
        if rest[i] != x {
          assert rest[i] in s[1..];
          var j :| 0 <= j < |s[1..]| && s[1..][j] == rest[i];
          assert s[j + 1] == rest[i];
        }
      }
      assert Insert(x, s, key) == [s[0]] + rest;
    }
  }

  /** Insertion sort by `key`. */
  function SortBy<T>(s: seq<T>, key: T -> int): (r: seq<T>)
    ensures |r| == |s|
    ensures SortedBy(r, key)
    ensures multiset(r) == multiset(s)
    decreases |s|
  {
    if |s| == 0 then []
    else
      assert s == [s[0]] + s[1..];
      var rest := SortBy(s[1..], key);
      InsertSorted(s[0], rest, key);
      Insert(s[0], rest, key)
  }

  lemma {:induction false} WithKeyAppend<T>(a: seq<T>, b: seq<T>, key: T -> int, k: int)
    ensures WithKey(a + b, key, k) == WithKey(a, key, k) + WithKey(b, key, k)
    decreases |a|
  {
    if |a| == 0 {
      assert a + b == b;
    } else {
      var h: seq<T> := if key(a[0]) == k then [a[0]] else [];
      assert (a + b)[0] == a[0];
      assert (a + b)[1..] == a[1..] + b;
      calc {
        WithKey(a + b, key, k);
        h + WithKey(a[1..] + b, key, k);
        { WithKeyAppend(a[1..], b, key, k); }
        h + (WithKey(a[1..], key, k) + WithKey(b, key, k));
        (h + WithKey(a[1..], key, k)) + WithKey(b, key, k);
      }
    }
  }

  /** Inserting `x` adds it in front of the elements sharing its key and
      leaves every other key's run alone. */
  lemma {:induction false} InsertWithKey<T>(x: T, s: seq<T>, key: T -> int, k: int)
    ensures WithKey(Insert(x, s, key), key, k)
         == (if key(x) == k then [x] else []) + WithKey(s, key, k)
    decreases |s|
  {
    if |s| == 0 {
    } else if key(x) <= key(s[0]) {
      WithKeyAppend([x], s, key, k);
    } else {
      InsertWithKey(x, s[1..], key, k);
      WithKeyAppend([s[0]], Insert(x, s[1..], key), key, k);
    }
  }

  /** Stability: for every key, the elements carrying it keep their
      relative order. */
  lemma {:induction false} SortByStable<T>(s: seq<T>, key: T -> int, k: int)
    ensures WithKey(SortBy(s, key), key, k) == WithKey(s, key, k)
    decreases |s|
  {
    if |s| > 0 {
      SortByStable(s[1..], key, k);
      InsertWithKey(s[0], SortBy(s[1..], key), key, k);
    }
  }

  /** Every member of a key's run is an element of `s` carrying that key. */
  lemma {:induction false} WithKeyElements<T>(s: seq<T>, key: T -> int, k: int)
    ensures forall i :: 0 <= i < |WithKey(s, key, k)| ==>
      WithKey(s, key, k)[i] in s && key(WithKey(s, key, k)[i]) == k
    decreases |s|
  {
    if |s| > 0 {
      WithKeyElements(s[1..], key, k);
      assert s == [s[0]] + s[1..];
    }
  }

  /** The first element of a non-empty sequence opens its key's run. */
  lemma HeadRunNonEmpty<T>(s: seq<T>, key: T -> int)
    ensures |s| > 0 ==> WithKey(s, key, key(s[0])) != []
  {
  }

  /** The smallest key opens both sequences, and its run starts with the
      head of each, so the heads agree. */
  lemma SameHead<T>(t: seq<T>, u: seq<T>, key: T -> int)
    requires |t| > 0 && |u| > 0
    requires SortedBy(t, key) && SortedBy(u, key)
    requires forall k :: WithKey(t, key, k) == WithKey(u, key, k)
    ensures t[0] == u[0]
  {
    var m, n := key(t[0]), key(u[0]);
    WithKeyElements(t, key, n);
    WithKeyElements(u, key, m);
    var wt, wu := WithKey(t, key, n), WithKey(u, key, n);
    assert wu[0] == u[0];
    var i :| 0 <= i < |t| && t[i] == wt[0];
    assert m <= n;
    var vt, vu := WithKey(t, key, m), WithKey(u, key, m);
    assert vt[0] == t[0];
    var j :| 0 <= j < |u| && u[j] == vu[0];
    assert n <= m;
  }

  /** Equal heads drop out of every run. */
  lemma TailRuns<T>(t: seq<T>, u: seq<T>, key: T -> int, k: int)
    requires |t| > 0 && |u| > 0 && t[0] == u[0]
    requires WithKey(t, key, k) == WithKey(u, key, k)
    ensures WithKey(t[1..], key, k) == WithKey(u[1..], key, k)
  {
    var a: seq<T> := if key(t[0]) == k then [t[0]] else [];
    var rt, ru := WithKey(t[1..], key, k), WithKey(u[1..], key, k);
    assert a + rt == a + ru;
    assert (a + rt)[|a|..] == rt;
    assert (a + ru)[|a|..] == ru;
  }

  /** A sorted sequence is determined by its per-key runs: two sorted
      sequences with the same runs for every key are equal. */
  lemma {:induction false} SortedRunsDetermine<T>(t: seq<T>, u: seq<T>, key: T -> int)
    requires SortedBy(t, key) && SortedBy(u, key)
    requires forall k :: WithKey(t, key, k) == WithKey(u, key, k)
    ensures t == u
    decreases |t|
  {
    if |t| == 0 || |u| == 0 {
      HeadRunNonEmpty(t, key);
      HeadRunNonEmpty(u, key);
    } else {
      SameHead(t, u, key);
      forall k
        ensures WithKey(t[1..], key, k) == WithKey(u[1..], key, k)
      {
        TailRuns(t, u, key, k);
      }
      SortedRunsDetermine(t[1..], u[1..], key);
      assert t == [t[0]] + t[1..];
      assert u == [u[0]] + u[1..];
    }
  }

  /** Any sorted rearrangement of `s` that keeps every key's run in input
      order is exactly `SortBy(s, key)`. */
  lemma StableSortIsUnique<T>(s: seq<T>, t: seq<T>, key: T -> int)
    requires SortedBy(t, key)
    requires forall k :: WithKey(t, key, k) == WithKey(s, key, k)
    ensures t == SortBy(s, key)
  {
    forall k
      ensures WithKey(t, key, k) == WithKey(SortBy(s, key), key, k)
    {
      SortByStable(s, key, k);
    }
    SortedRunsDetermine(t, SortBy(s, key), key);
  }
}
