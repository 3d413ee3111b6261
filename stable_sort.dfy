/** `list.sort(key=..., reverse=True)` as the report code uses it: a stable sort by an
    integer key, largest first, where elements with equal keys keep their order. The same
    order is what `Counter.most_common(n)` lists (it takes the first `n` of the items
    sorted that way). */
module StableSort {

  predicate SortedDesc<T>(s: seq<T>, key: T -> int)
  {
    forall i, j :: 0 <= i < j < |s| ==> key(s[i]) >= key(s[j])
  }

  /** `s` with `x` placed after every element whose key is at least `x`'s. */
  function Insert<T>(s: seq<T>, x: T, key: T -> int): (r: seq<T>)
    ensures |r| == |s| + 1
  {
    if s == [] || key(s[|s| - 1]) >= key(x) then s + [x]
    else Insert(s[..|s| - 1], x, key) + [s[|s| - 1]]
  }

  /** Insertion sort, one element at a time from the front: the order Python's stable
      `sort(reverse=True)` produces. */
  function SortDesc<T>(s: seq<T>, key: T -> int): (r: seq<T>)
    ensures |r| == |s|
  {
    if s == [] then [] else Insert(SortDesc(s[..|s| - 1], key), s[|s| - 1], key)
  }

  /** The elements of `s` whose key is `k`, in order. */
  function WithKey<T>(s: seq<T>, key: T -> int, k: int): seq<T>
  {
    if s == [] then []
    else WithKey(s[..|s| - 1], key, k) + (if key(s[|s| - 1]) == k then [s[|s| - 1]] else [])
  }

  lemma {:induction false} WithKeyConcat<T>(a: seq<T>, b: seq<T>, key: T -> int, k: int)
    ensures WithKey(a + b, key, k) == WithKey(a, key, k) + WithKey(b, key, k)
    decreases |b|
  {
    if b == [] {
      assert a + b == a;
    } else {
      WithKeyConcat(a, b[..|b| - 1], key, k);
      assert (a + b)[..|a + b| - 1] == a + b[..|b| - 1];
    }
  }

  /** Where `Insert` places `x`: after the longest prefix ending in a key at least `x`'s. */
  function InsertionPoint<T>(s: seq<T>, x: T, key: T -> int): (j: nat)
    ensures j <= |s|
    ensures j > 0 ==> key(s[j - 1]) >= key(x)
    ensures forall m :: j <= m < |s| ==> key(s[m]) < key(x)
  {
    if s == [] || key(s[|s| - 1]) >= key(x) then |s| else InsertionPoint(s[..|s| - 1], x, key)
  }

  lemma {:induction false} InsertSplits<T>(s: seq<T>, x: T, key: T -> int)
    ensures Insert(s, x, key) == s[..InsertionPoint(s, x, key)] + [x] + s[InsertionPoint(s, x, key)..]
    decreases |s|
  {
    var j := InsertionPoint(s, x, key);
    if j < |s| {
      var init := s[..|s| - 1];
      InsertSplits(init, x, key);
      assert init[..j] == s[..j];
      assert init[j..] + [s[|s| - 1]] == s[j..];
    } else {
      assert s[..j] == s;
    }
  }

  lemma {:induction false} WithKeyNone<T>(s: seq<T>, key: T -> int, k: int)
    requires forall m :: 0 <= m < |s| ==> key(s[m]) != k
    ensures WithKey(s, key, k) == []
    decreases |s|
  {
    if s != [] {
      WithKeyNone(s[..|s| - 1], key, k);
    }
  }

  lemma WithKeySingle<T>(x: T, key: T -> int, k: int)
    ensures WithKey([x], key, k) == (if key(x) == k then [x] else [])
  {
    assert [x][..0] == [];
  }

  /** The elements before the insertion point of a sorted sequence all have keys at least
      `x`'s. */
  lemma PrefixKeysAtLeast<T>(s: seq<T>, x: T, key: T -> int)
    requires SortedDesc(s, key)
    ensures forall m :: 0 <= m < InsertionPoint(s, x, key) ==> key(s[m]) >= key(x)
  {
    var j := InsertionPoint(s, x, key);
    forall m | 0 <= m < j ensures key(s[m]) >= key(x) {
      assert key(s[m]) >= key(s[j - 1]);
    }
  }

  lemma InsertSorted<T>(s: seq<T>, x: T, key: T -> int)
    requires SortedDesc(s, key)
    ensures SortedDesc(Insert(s, x, key), key)
  {
    var j := InsertionPoint(s, x, key);
    InsertSplits(s, x, key);
    PrefixKeysAtLeast(s, x, key);
    var r := Insert(s, x, key);
    assert forall m :: 0 <= m < j ==> r[m] == s[m];
    assert r[j] == x;
    assert forall m :: j < m < |r| ==> r[m] == s[m - 1];
    forall p, q | 0 <= p < q < |r| ensures key(r[p]) >= key(r[q]) {
      if q < j {
      } else if q == j {
      } else if p < j {
        assert key(s[p]) >= key(s[q - 1]);
      } else if p == j {
      } else {
        assert key(s[p - 1]) >= key(s[q - 1]);
      }
    }
  }

  lemma InsertAddsOne<T>(s: seq<T>, x: T, key: T -> int)
    ensures multiset(Insert(s, x, key)) == multiset(s) + multiset{x}
  {
    var j := InsertionPoint(s, x, key);
    InsertSplits(s, x, key);
    var a, b := s[..j], s[j..];
    assert s == a + b;
    assert multiset(Insert(s, x, key)) == multiset(a + [x]) + multiset(b);
    assert multiset(a + [x]) == multiset(a) + multiset{x};
  }

  lemma InsertStable<T>(s: seq<T>, x: T, key: T -> int)
    ensures forall k :: WithKey(Insert(s, x, key), key, k) == WithKey(s + [x], key, k)
  {
    forall k ensures WithKey(Insert(s, x, key), key, k) == WithKey(s + [x], key, k) {
      InsertStableFor(s, x, key, k);
    }
  }

  lemma InsertStableFor<T>(s: seq<T>, x: T, key: T -> int, k: int)
    ensures WithKey(Insert(s, x, key), key, k) == WithKey(s + [x], key, k)
  {
    var j := InsertionPoint(s, x, key);
    InsertSplits(s, x, key);
    var a, b := s[..j], s[j..];
    assert s == a + b;
    if key(x) == k {
      NoneOfKeyAfterInsertionPoint(s, x, key);
    }
    StableSplice(a, x, b, key, k);
  }

  lemma StableSplice<T>(a: seq<T>, x: T, b: seq<T>, key: T -> int, k: int)
    requires key(x) == k ==> WithKey(b, key, k) == []
    ensures WithKey(a + [x] + b, key, k) == WithKey(a + b + [x], key, k)
  {
    WithKeyAround(a, x, b, key, k);
  }

  /** No element after the insertion point has `x`'s key. */
  lemma NoneOfKeyAfterInsertionPoint<T>(s: seq<T>, x: T, key: T -> int)
    ensures WithKey(s[InsertionPoint(s, x, key)..], key, key(x)) == []
  {
    var b := s[InsertionPoint(s, x, key)..];
    forall m | 0 <= m < |b| ensures key(b[m]) != key(x) {
      assert b[m] == s[InsertionPoint(s, x, key) + m];
    }
    WithKeyNone(b, key, key(x));
  }

  /** The elements of key `k` in `a + [x] + b` against those of `a + b + [x]`. */
  lemma WithKeyAround<T>(a: seq<T>, x: T, b: seq<T>, key: T -> int, k: int)
    ensures WithKey(a + [x] + b, key, k) == WithKey(a, key, k) + WithKey([x], key, k) + WithKey(b, key, k)
    ensures WithKey(a + b + [x], key, k) == WithKey(a, key, k) + WithKey(b, key, k) + WithKey([x], key, k)
    ensures WithKey([x], key, k) == (if key(x) == k then [x] else [])
  {
    WithKeyConcat(a + [x], b, key, k);
    WithKeyConcat(a, [x], key, k);
    WithKeyConcat(a + b, [x], key, k);
    WithKeyConcat(a, b, key, k);
    WithKeySingle(x, key, k);
  }

  /** Inserting keeps the sequence sorted, adds exactly `x`, and puts `x` after the
      elements of its own key that were already there. */
  lemma InsertProperties<T>(s: seq<T>, x: T, key: T -> int)
    requires SortedDesc(s, key)
    ensures SortedDesc(Insert(s, x, key), key)
    ensures multiset(Insert(s, x, key)) == multiset(s) + multiset{x}
    ensures forall k :: WithKey(Insert(s, x, key), key, k) == WithKey(s + [x], key, k)
  {
    InsertSorted(s, x, key);
    InsertAddsOne(s, x, key);
    InsertStable(s, x, key);
  }

  /** The result is sorted largest first, holds the same elements, and keeps the input
      order among elements with the same key (stability). */
  lemma {:induction false} SortDescProperties<T>(s: seq<T>, key: T -> int)
    ensures SortedDesc(SortDesc(s, key), key)
    ensures multiset(SortDesc(s, key)) == multiset(s)
    ensures forall k :: WithKey(SortDesc(s, key), key, k) == WithKey(s, key, k)
    decreases |s|
  {
    if s != [] {
      var init := s[..|s| - 1];
      SortDescProperties(init, key);
      InsertProperties(SortDesc(init, key), s[|s| - 1], key);
      assert s == init + [s[|s| - 1]];
      forall k ensures WithKey(SortDesc(s, key), key, k) == WithKey(s, key, k) {
        WithKeyConcat(SortDesc(init, key), [s[|s| - 1]], key, k);
        WithKeyConcat(init, [s[|s| - 1]], key, k);
      }
    }
  }

  /** The inner loop of the array sort: `a[i]` moves left past the elements of the sorted
      prefix `a[..i]` whose key is strictly smaller, which places it where `Insert` does. */
  method InsertInPlace<T>(a: array<T>, i: nat, key: T -> int)
    requires i < a.Length
    modifies a
    ensures a[..i + 1] == Insert(old(a[..i]), old(a[i]), key)
    ensures a[i + 1..] == old(a[i + 1..])
  {
    ghost var sorted := a[..i];
    var x := a[i];
    var j := i;
    while j > 0 && key(a[j - 1]) < key(x)
      invariant 0 <= j <= i
      invariant forall m :: 0 <= m < j ==> a[m] == sorted[m]
      invariant forall m :: j < m <= i ==> a[m] == sorted[m - 1]
      invariant forall m :: j <= m < i ==> key(sorted[m]) < key(x)
      invariant forall m :: i < m < a.Length ==> a[m] == old(a[m])
    {
      a[j] := a[j - 1];
      j := j - 1;
    }
    a[j] := x;
    InsertionPointUnique(sorted, x, key, j);
    InsertSplits(sorted, x, key);
    SplicedAt(a[..i + 1], sorted, x, j);
  }

  /** A sequence that agrees with `s` before `j`, holds `x` at `j` and agrees with `s`
      shifted by one after `j` is `s` with `x` spliced in at `j`. */
  lemma SplicedAt<T>(r: seq<T>, s: seq<T>, x: T, j: nat)
    requires j <= |s| && |r| == |s| + 1
    requires forall m :: 0 <= m < j ==> r[m] == s[m]
    requires r[j] == x
    requires forall m :: j < m < |r| ==> r[m] == s[m - 1]
    ensures r == s[..j] + [x] + s[j..]
  {
  }

  lemma InsertionPointUnique<T>(s: seq<T>, x: T, key: T -> int, j: nat)
    requires j <= |s|
    requires j > 0 ==> key(s[j - 1]) >= key(x)
    requires forall m :: j <= m < |s| ==> key(s[m]) < key(x)
    ensures j == InsertionPoint(s, x, key)
  {
  }

  /** Sorts `a` in place, largest key first and stable, by insertion. */
  method SortInPlace<T>(a: array<T>, key: T -> int)
    modifies a
    ensures a[..] == SortDesc(old(a[..]), key)
  {
    ghost var orig := a[..];
    for i := 0 to a.Length
      invariant a[..i] == SortDesc(orig[..i], key)
      invariant a[i..] == orig[i..]
    {
      InsertInPlace(a, i, key);
      assert orig[..i + 1][..i] == orig[..i];
    }
    assert orig[..a.Length] == orig;
  }

  /** Sorting neither adds nor drops an element. */
  lemma SortDescMembers<T>(s: seq<T>, key: T -> int)
    ensures forall x :: x in SortDesc(s, key) <==> x in s
  {
    SortDescProperties(s, key);
    forall x ensures x in SortDesc(s, key) <==> x in s {
      assert x in SortDesc(s, key) <==> x in multiset(SortDesc(s, key));
      assert x in s <==> x in multiset(s);
    }
  }
}
