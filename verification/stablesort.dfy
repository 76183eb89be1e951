/** `list.sort(key=...)` on an integer key: ascending and stable, so
    elements with equal keys keep their original relative order. */
module StableSort {

  predicate SortedBy<T>(s: seq<T>, key: T -> int)
  {
    forall i, j :: 0 <= i < j < |s| ==> key(s[i]) <= key(s[j])
  }

  /** The elements of s whose key is k, in their order in s. */
  function WithKey<T>(s: seq<T>, key: T -> int, k: int): seq<T>
  {
    if s == [] then []
    else (if key(s[0]) == k then [s[0]] else []) + WithKey(s[1..], key, k)
  }

  /** Stability, stated for every key: each run of equal keys is the same
      subsequence before and after. */
  ghost predicate SameRuns<T>(a: seq<T>, b: seq<T>, key: T -> int)
  {
    forall k :: WithKey(a, key, k) == WithKey(b, key, k)
  }

  lemma {:induction false} WithKeyAppend<T>(a: seq<T>, b: seq<T>, key: T -> int, k: int)
    ensures WithKey(a + b, key, k) == WithKey(a, key, k) + WithKey(b, key, k)
  {
    if a == [] {
      assert a + b == b;
    } else {
      var head := if key(a[0]) == k then [a[0]] else [];
      assert (a + b)[0] == a[0];
      assert (a + b)[1..] == a[1..] + b;
      assert WithKey(a + b, key, k) == head + WithKey(a[1..] + b, key, k);
      WithKeyAppend(a[1..], b, key, k);
      assert WithKey(a, key, k) == head + WithKey(a[1..], key, k);
    }
  }

  /** Places x before the first element whose key is not smaller, so x
      goes ahead of every element with an equal key. */
  function Insert<T>(x: T, s: seq<T>, key: T -> int): (r: seq<T>)
    requires SortedBy(s, key)
    ensures SortedBy(r, key)
    ensures multiset(r) == multiset(s) + multiset{x}
    ensures |r| == |s| + 1
    ensures r[0] == x || (s != [] && r[0] == s[0])
  {
    if s == [] || key(x) <= key(s[0]) then [x] + s
    else
      var rest := Insert(x, s[1..], key);
      assert s == [s[0]] + s[1..];
      assert key(s[0]) <= key(rest[0]);
      [s[0]] + rest
  }

  /** Inserting x adds it at the front of its own key's run and leaves every
      other run alone. */
  lemma {:induction false} InsertRuns<T>(x: T, s: seq<T>, key: T -> int, k: int)
    requires SortedBy(s, key)
    ensures WithKey(Insert(x, s, key), key, k) == WithKey([x], key, k) + WithKey(s, key, k)
  {
    if s == [] || key(x) <= key(s[0]) {
      WithKeyAppend([x], s, key, k);
    } else {
      var rest := Insert(x, s[1..], key);
      InsertRuns(x, s[1..], key, k);
      WithKeyAppend([s[0]], rest, key, k);
      WithKeyAppend([s[0]], s[1..], key, k);
      assert s == [s[0]] + s[1..];
      assert Insert(x, s, key) == [s[0]] + rest;
    }
  }

  /** Stable insertion sort: the head of s is inserted ahead of the equal
      keys that follow it. */
  function SortBy<T>(s: seq<T>, key: T -> int): (r: seq<T>)
    ensures SortedBy(r, key)
    ensures multiset(r) == multiset(s)
    ensures SameRuns(r, s, key)
  {
    if s == [] then []
    else
      var rest := SortBy(s[1..], key);
      assert s == [s[0]] + s[1..];
      SortByRuns(s, rest, key);
      Insert(s[0], rest, key)
  }

  /** Swapping two neighbours with different keys keeps every run of equal
      keys as it was. */
  lemma SwapKeepsRuns<T>(u: seq<T>, x: T, y: T, v: seq<T>, key: T -> int)
    requires key(x) != key(y)
    ensures SameRuns(u + [x, y] + v, u + [y, x] + v, key)
  {
    forall k
      ensures WithKey(u + [x, y] + v, key, k) == WithKey(u + [y, x] + v, key, k)
    {
      WithKeyAppend(u + [x, y], v, key, k);
      WithKeyAppend(u, [x, y], key, k);
      WithKeyAppend(u + [y, x], v, key, k);
      WithKeyAppend(u, [y, x], key, k);
      WithKeySwap(x, y, key, k);
    }
  }

  lemma WithKeySwap<T>(x: T, y: T, key: T -> int, k: int)
    requires key(x) != key(y)
    ensures WithKey([x, y], key, k) == WithKey([y, x], key, k)
  {
    assert [x, y][1..] == [y];
    assert [y, x][1..] == [x];
    assert [x][1..] == [];
    assert [y][1..] == [];
  }

  lemma SortByRuns<T>(s: seq<T>, rest: seq<T>, key: T -> int)
    requires s != [] && SortedBy(rest, key) && SameRuns(rest, s[1..], key)
    ensures SameRuns(Insert(s[0], rest, key), s, key)
  {
    forall k
      ensures WithKey(Insert(s[0], rest, key), key, k) == WithKey(s, key, k)
    {
      SortByRunsAt(s, rest, key, k);
    }
  }

  lemma SortByRunsAt<T>(s: seq<T>, rest: seq<T>, key: T -> int, k: int)
    requires s != [] && SortedBy(rest, key)
    requires WithKey(rest, key, k) == WithKey(s[1..], key, k)
    ensures WithKey(Insert(s[0], rest, key), key, k) == WithKey(s, key, k)
  {
    InsertRuns(s[0], rest, key, k);
    WithKeyAppend([s[0]], s[1..], key, k);
    assert s == [s[0]] + s[1..];
  }

  /** The head of a sequence opens its own key's run. */
  lemma {:induction false} HeadRun<T>(s: seq<T>, key: T -> int)
    requires s != [] && SortedBy(s, key)
    ensures WithKey(s, key, key(s[0])) == [s[0]] + WithKey(s[1..], key, key(s[0]))
  {
  }

  /** Every element belongs to the run of its own key. */
  lemma {:induction false} WithKeyHas<T>(s: seq<T>, key: T -> int, i: int)
    requires 0 <= i < |s|
    ensures s[i] in WithKey(s, key, key(s[i]))
  {
    if i > 0 {
      WithKeyHas(s[1..], key, i - 1);
      assert s[1..][i - 1] == s[i];
    }
  }

  /** Every element of a run carries the run's key and comes from s. */
  lemma {:induction false} WithKeyMembers<T>(s: seq<T>, key: T -> int, k: int, x: T)
    requires x in WithKey(s, key, k)
    ensures key(x) == k && x in s
  {
    if s != [] {
      if x != s[0] || key(s[0]) != k {
        WithKeyMembers(s[1..], key, k, x);
      }
    }
  }

  /** A stable ascending sort has exactly one possible result: a sorted
      sequence with the same runs as s is `SortBy(s, key)`. */
  lemma {:induction false} StableSortUnique<T>(a: seq<T>, b: seq<T>, key: T -> int)
    requires SortedBy(a, key) && SortedBy(b, key) && SameRuns(a, b, key)
    ensures a == b
  {
    if a != [] && b != [] {
      var ka, kb := key(a[0]), key(b[0]);
      WithKeyHas(a, key, 0);
      WithKeyHas(b, key, 0);
      assert a[0] in WithKey(b, key, ka);
      assert b[0] in WithKey(a, key, kb);
      WithKeyMembers(b, key, ka, a[0]);
      WithKeyMembers(a, key, kb, b[0]);
      var i := MemberIndex(b, a[0]);
      var j := MemberIndex(a, b[0]);
      assert key(a[0]) <= key(a[j]);
      assert key(b[0]) <= key(b[i]);
      assert ka == kb;
      HeadRun(a, key);
      HeadRun(b, key);
      assert a[0] == WithKey(a, key, ka)[0] == WithKey(b, key, ka)[0] == b[0];
      forall k
        ensures WithKey(a[1..], key, k) == WithKey(b[1..], key, k)
      {
        TailRuns(a, b, key, k);
      }
      StableSortUnique(a[1..], b[1..], key);
      assert a == [a[0]] + a[1..] && b == [b[0]] + b[1..];
    } else if a != [] {
      WithKeyHas(a, key, 0);
      assert false;
    } else if b != [] {
      WithKeyHas(b, key, 0);
      assert false;
    }
  }

  /** Equal heads and equal runs leave equal runs in the tails. */
  lemma TailRuns<T>(a: seq<T>, b: seq<T>, key: T -> int, k: int)
    requires a != [] && b != [] && a[0] == b[0]
    requires WithKey(a, key, k) == WithKey(b, key, k)
    ensures WithKey(a[1..], key, k) == WithKey(b[1..], key, k)
  {
    WithKeyAppend([a[0]], a[1..], key, k);
    WithKeyAppend([b[0]], b[1..], key, k);
    assert a == [a[0]] + a[1..] && b == [b[0]] + b[1..];
    var p := WithKey([a[0]], key, k);
    assert WithKey(a[1..], key, k) == (p + WithKey(a[1..], key, k))[|p|..];
    assert WithKey(b[1..], key, k) == (p + WithKey(b[1..], key, k))[|p|..];
  }

  lemma MemberIndex<T>(s: seq<T>, x: T) returns (i: int)
    requires x in s
    ensures 0 <= i < |s| && s[i] == x
  {
    i :| 0 <= i < |s| && s[i] == x;
  }
}
