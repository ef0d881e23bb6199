/** Stable sorting by descending key, as Python's `list.sort(key=..., reverse=True)`
    does it: the result is ordered by non-increasing key and elements with
    equal keys keep their relative order. */
module StableSort {

  /** Ordered by non-increasing key. */
  predicate SortedDesc<T>(s: seq<T>, key: T -> int) {
    forall i, j :: 0 <= i < j < |s| ==> key(s[i]) >= key(s[j])
  }

  /** The elements of `s` whose key is `k`, in their order in `s`. */
  function OfKey<T>(s: seq<T>, key: T -> int, k: int): (r: seq<T>)
    ensures forall p :: p in r ==> p in s && key(p) == k
  {
    if s == [] then [] else (if key(s[0]) == k then [s[0]] else []) + OfKey(s[1..], key, k)
  }

  lemma {:induction false} OfKeyAppend<T>(a: seq<T>, b: seq<T>, key: T -> int, k: int)
    ensures OfKey(a + b, key, k) == OfKey(a, key, k) + OfKey(b, key, k)
  {
    if a == [] {
      assert a + b == b;
    } else {
      assert (a + b)[1..] == a[1..] + b;
      OfKeyAppend(a[1..], b, key, k);
    }
  }

  lemma {:induction false} OfKeyNone<T>(s: seq<T>, key: T -> int, k: int)
    requires forall i :: 0 <= i < |s| ==> key(s[i]) != k
    ensures OfKey(s, key, k) == []
  {
    if s != [] {
      OfKeyNone(s[1..], key, k);
    }
  }

  /** Stable insertion of `x` into a sorted sequence: `x` goes after every element of equal or higher key. */
  function Insert<T>(x: T, r: seq<T>, key: T -> int): seq<T> {
    if r == [] then [x]
    else if key(r[0]) < key(x) then [x] + r
    else [r[0]] + Insert(x, r[1..], key)
  }

  /** Insertion adds exactly `x` to the elements. */
  lemma {:induction false} InsertPermutes<T>(x: T, r: seq<T>, key: T -> int)
    ensures multiset(Insert(x, r, key)) == multiset(r) + multiset{x}
  {
    if r != [] && key(r[0]) >= key(x) {
      assert r == [r[0]] + r[1..];
      InsertPermutes(x, r[1..], key);
    }
  }

  /** Stable sort by descending key: the elements are inserted one by one, from the first. */
  function SortDesc<T>(s: seq<T>, key: T -> int): seq<T> {
    if s == [] then []
    else Insert(s[|s| - 1], SortDesc(s[..|s| - 1], key), key)
  }

  /** The sort is a permutation of its input. */
  lemma {:induction false} SortDescPermutes<T>(s: seq<T>, key: T -> int)
    ensures multiset(SortDesc(s, key)) == multiset(s)
  {
    if s != [] {
      assert s == s[..|s| - 1] + [s[|s| - 1]];
      SortDescPermutes(s[..|s| - 1], key);
      InsertPermutes(s[|s| - 1], SortDesc(s[..|s| - 1], key), key);
    }
  }

  lemma {:induction false} InsertKeepsSorted<T>(x: T, r: seq<T>, key: T -> int)
    requires SortedDesc(r, key)
    ensures SortedDesc(Insert(x, r, key), key)
  {
    if r == [] {
    } else if key(r[0]) < key(x) {
    } else {
      var t := Insert(x, r[1..], key);
      InsertKeepsSorted(x, r[1..], key);
      InsertPermutes(x, r[1..], key);
      forall j | 0 <= j < |t|
        ensures key(t[j]) <= key(r[0])
      {
        assert t[j] in multiset(t);
        if t[j] != x {
          assert t[j] in multiset(r[1..]);
          assert t[j] in r[1..];
        }
      }
    }
  }

  /** Inserting `x` adds it after the elements of its own key and leaves the other keys' elements alone. */
  lemma {:induction false} InsertOfKey<T>(x: T, r: seq<T>, key: T -> int, k: int)
    requires SortedDesc(r, key)
    ensures OfKey(Insert(x, r, key), key, k) == OfKey(r, key, k) + (if key(x) == k then [x] else [])
  {
    if r == [] {
    } else if key(r[0]) < key(x) {
      assert ([x] + r)[1..] == r;
      if key(x) == k {
        OfKeyNone(r, key, k);
      }
    } else {
      assert ([r[0]] + Insert(x, r[1..], key))[1..] == Insert(x, r[1..], key);
      InsertOfKey(x, r[1..], key, k);
    }
  }

  /** The sort orders by non-increasing key. */
  lemma {:induction false} SortDescSorted<T>(s: seq<T>, key: T -> int)
    ensures SortedDesc(SortDesc(s, key), key)
  {
    if s != [] {
      SortDescSorted(s[..|s| - 1], key);
      InsertKeepsSorted(s[|s| - 1], SortDesc(s[..|s| - 1], key), key);
    }
  }

  /** The sort is stable: for every key, the elements with that key keep their relative order. */
  lemma {:induction false} SortDescStable<T>(s: seq<T>, key: T -> int, k: int)
    ensures OfKey(SortDesc(s, key), key, k) == OfKey(s, key, k)
  {
    if s != [] {
      var init, x := s[..|s| - 1], s[|s| - 1];
      var sorted := SortDesc(init, key);
      var tail := if key(x) == k then [x] else [];
      assert SortDesc(s, key) == Insert(x, sorted, key);
      SortDescSorted(init, key);
      InsertOfKey(x, sorted, key, k);
      SortDescStable(init, key, k);
      assert OfKey(SortDesc(s, key), key, k) == OfKey(init, key, k) + tail;
      assert [x][1..] == [];
      assert OfKey([x], key, k) == tail;
      OfKeyAppend(init, [x], key, k);
      assert s == init + [x];
    }
  }

  /** The first element's key is a key present. */
  lemma OfKeyHead<T>(s: seq<T>, key: T -> int)
    requires s != []
    ensures OfKey(s, key, key(s[0])) != []
  {
  }

  /** The first element of a sorted sequence has the largest key among those of any key present. */
  lemma SortedHeadIsMax<T>(u: seq<T>, key: T -> int, k: int)
    requires SortedDesc(u, key) && u != [] && OfKey(u, key, k) != []
    ensures k <= key(u[0])
  {
    var p := OfKey(u, key, k)[0];
    assert p in OfKey(u, key, k);
    var m :| 0 <= m < |u| && u[m] == p;
  }

  /** A sorted order is fixed by its per-key subsequences: two sequences
      ordered by non-increasing key with the same elements of each key, in
      the same order, are equal. So a stable sort has exactly one result. */
  lemma {:induction false} StableOrderUnique<T>(t: seq<T>, u: seq<T>, key: T -> int)
    requires SortedDesc(t, key) && SortedDesc(u, key)
    requires forall k :: OfKey(t, key, k) == OfKey(u, key, k)
    ensures t == u
    decreases |t| + |u|
  {
    if t == [] && u != [] {
      OfKeyHead(u, key);
      assert false;
    } else if t != [] && u == [] {
      OfKeyHead(t, key);
      assert false;
    } else if t != [] {
      SortedHeadIsMax(u, key, key(t[0]));
      SortedHeadIsMax(t, key, key(u[0]));
      assert OfKey(t, key, key(t[0]))[0] == t[0];
      assert OfKey(u, key, key(u[0]))[0] == u[0];
      assert t[0] == u[0];
      forall k
        ensures OfKey(t[1..], key, k) == OfKey(u[1..], key, k)
      {
        var head := if key(t[0]) == k then [t[0]] else [];
        assert OfKey(t, key, k) == head + OfKey(t[1..], key, k);
        assert OfKey(u, key, k) == head + OfKey(u[1..], key, k);
        assert OfKey(t[1..], key, k) == (head + OfKey(t[1..], key, k))[|head|..];
        assert OfKey(u[1..], key, k) == (head + OfKey(u[1..], key, k))[|head|..];
      }
      StableOrderUnique(t[1..], u[1..], key);
    }
  }

  /** Where insertion puts `x`: before the first element with a lower key. */
  lemma {:induction false} InsertAt<T>(x: T, r: seq<T>, key: T -> int, j: nat)
    requires j <= |r|
    requires forall m :: 0 <= m < j ==> key(r[m]) >= key(x)
    requires forall m :: j <= m < |r| ==> key(r[m]) < key(x)
    ensures Insert(x, r, key) == r[..j] + [x] + r[j..]
  {
    if j == 0 {
      assert r[..0] + [x] + r[0..] == [x] + r;
    } else {
      var rest := r[1..];
      assert key(r[0]) >= key(x);
      assert forall m :: 0 <= m < j - 1 ==> key(rest[m]) >= key(x) by {
        assert forall m :: 0 <= m < j - 1 ==> rest[m] == r[m + 1];
      }
      assert forall m :: j - 1 <= m < |rest| ==> key(rest[m]) < key(x) by {
        assert forall m :: j - 1 <= m < |rest| ==> rest[m] == r[m + 1];
      }
      InsertAt(x, rest, key, j - 1);
      calc {
        Insert(x, r, key);
        [r[0]] + Insert(x, rest, key);
        [r[0]] + (rest[..j - 1] + [x] + rest[j - 1..]);
        { assert [r[0]] + rest[..j - 1] == r[..j]; assert rest[j - 1..] == r[j..]; }
        r[..j] + [x] + r[j..];
      }
    }
  }

  /** A sequence holding `r` with `x` placed after the elements of key at
      least its own and before those of lower key is the insertion of `x`. */
  lemma InsertedAt<T>(x: T, r: seq<T>, key: T -> int, j: nat, b: seq<T>)
    requires SortedDesc(r, key) && j <= |r| && |b| == |r| + 1
    requires j > 0 ==> key(r[j - 1]) >= key(x)
    requires forall m :: j <= m < |r| ==> key(r[m]) < key(x)
    requires b[j] == x
    requires forall m :: 0 <= m < j ==> b[m] == r[m]
    requires forall m :: j < m <= |r| ==> b[m] == r[m - 1]
    ensures b == Insert(x, r, key)
  {
    forall m | 0 <= m < j
      ensures key(r[m]) >= key(x)
    {
      assert key(r[m]) >= key(r[j - 1]);
    }
    InsertAt(x, r, key, j);
    assert b == r[..j] + [x] + r[j..];
  }

  /** One insertion step: swaps `a[i]` leftwards past every element of lower key. */
  method InsertLast<T>(a: array<T>, i: nat, key: T -> int)
    requires i < a.Length
    requires SortedDesc(a[..i], key)
    modifies a
    ensures a[..i + 1] == Insert(old(a[i]), old(a[..i]), key)
    ensures a[i + 1..] == old(a[i + 1..])
  {
    ghost var r := a[..i];
    var x := a[i];
    var j := i;
    while j > 0 && key(a[j - 1]) < key(a[j])
      invariant 0 <= j <= i
      invariant a[j] == x
      invariant forall m :: 0 <= m < j ==> a[m] == r[m]
      invariant forall m :: j < m <= i ==> a[m] == r[m - 1]
      invariant forall m :: i < m < a.Length ==> a[m] == old(a[m])
      invariant forall m :: j <= m < i ==> key(r[m]) < key(x)
    {
      a[j - 1], a[j] := a[j], a[j - 1];
      j := j - 1;
    }
    InsertedAt(x, r, key, j, a[..i + 1]);
    assert a[i + 1..] == old(a[i + 1..]);
  }

  /** `list.sort(key=key, reverse=True)`: an in-place stable sort by
      descending key, here an insertion sort by adjacent swaps. */
  method SortByKey<T>(a: array<T>, key: T -> int)
    modifies a
    ensures a[..] == SortDesc(old(a[..]), key)
  {
    ghost var orig := a[..];
    var i := 0;
    while i < a.Length
      invariant 0 <= i <= a.Length
      invariant a[..i] == SortDesc(orig[..i], key)
      invariant a[i..] == orig[i..]
    {
      SortDescSorted(orig[..i], key);
      ghost var prefix := orig[..i + 1];
      assert prefix[..i] == orig[..i] && prefix[i] == orig[i] == a[i];
      assert SortDesc(prefix, key) == Insert(orig[i], SortDesc(orig[..i], key), key);
      InsertLast(a, i, key);
      assert a[i + 1..] == orig[i + 1..] by {
        assert orig[i + 1..] == orig[i..][1..];
      }
      i := i + 1;
    }
    assert a[..] == a[..a.Length];
    assert orig == orig[..a.Length];
  }
}
