/** Python's `collections.Counter` as the report code uses it: the counter's keys are
    the distinct values in order of first appearance, each with its number of
    occurrences, and `most_common(1)[0][0]` is the first key (in that order) whose count
    is largest, because `max` keeps the first of equal maxima. */
module Tally {

  /** The values of `xs` in order of first appearance: the key order of a `Counter` or a
      dict filled from `xs`. */
  function Distinct<T(==)>(xs: seq<T>): (d: seq<T>)
    decreases |xs|
  {
    if xs == [] then []
    else
      var d := Distinct(xs[..|xs| - 1]);
      if xs[|xs| - 1] in d then d else d + [xs[|xs| - 1]]
  }

  predicate NoDuplicates<T(==)>(s: seq<T>)
  {
    forall i, j :: 0 <= i < j < |s| ==> s[i] != s[j]
  }

  lemma {:induction false} DistinctMembers<T>(xs: seq<T>)
    ensures forall x :: x in Distinct(xs) <==> x in xs
    ensures NoDuplicates(Distinct(xs))
    decreases |xs|
  {
    if xs != [] {
      var init := xs[..|xs| - 1];
      DistinctMembers(init);
      assert xs == init + [xs[|xs| - 1]];
    }
  }

  /** The distinct values of a prefix come first among the distinct values of the whole. */
  lemma {:induction false} DistinctPrefix<T>(xs: seq<T>, n: nat)
    requires n <= |xs|
    ensures |Distinct(xs[..n])| <= |Distinct(xs)|
    ensures Distinct(xs[..n]) == Distinct(xs)[..|Distinct(xs[..n])|]
    decreases |xs|
  {
    if n < |xs| {
      var init := xs[..|xs| - 1];
      assert init[..n] == xs[..n];
      DistinctPrefix(init, n);
    } else {
      assert xs[..n] == xs;
    }
  }

  lemma {:induction false} DistinctNonEmpty<T>(xs: seq<T>)
    requires xs != []
    ensures Distinct(xs) != []
  {
    DistinctMembers(xs);
    assert xs[0] in Distinct(xs);
  }

  /** Index of the first occurrence of `x` in `xs`. */
  function FirstIndex<T(==)>(xs: seq<T>, x: T): (i: nat)
    requires x in xs
    ensures i < |xs| && xs[i] == x
    ensures forall j :: 0 <= j < i ==> xs[j] != x
  {
    if xs[0] == x then 0 else 1 + FirstIndex(xs[1..], x)
  }

  lemma {:induction false} FirstIndexOfExtension<T>(xs: seq<T>, x: T, y: T)
    requires y in xs
    ensures FirstIndex(xs + [x], y) == FirstIndex(xs, y)
  {
    var i := FirstIndex(xs, y);
    var k := FirstIndex(xs + [x], y);
    assert (xs + [x])[i] == y;
  }

  /** A counter's keys come in order of first appearance. */
  lemma {:induction false} DistinctInFirstAppearanceOrder<T>(xs: seq<T>)
    ensures forall x :: x in Distinct(xs) ==> x in xs
    ensures forall i, j :: 0 <= i < j < |Distinct(xs)| ==>
      FirstIndex(xs, Distinct(xs)[i]) < FirstIndex(xs, Distinct(xs)[j])
    decreases |xs|
  {
    DistinctMembers(xs);
    if xs != [] {
      var init := xs[..|xs| - 1];
      var x := xs[|xs| - 1];
      assert xs == init + [x];
      DistinctInFirstAppearanceOrder(init);
      DistinctMembers(init);
      var d := Distinct(init);
      forall y | y in d ensures FirstIndex(xs, y) == FirstIndex(init, y) {
        FirstIndexOfExtension(init, x, y);
      }
      if x !in d {
        assert x !in init;
        assert FirstIndex(xs, x) == |xs| - 1;
      }
    }
  }

  /** Number of occurrences of `x` in `xs`. */
  function Occurrences<T(==)>(xs: seq<T>, x: T): nat
  {
    multiset(xs)[x]
  }

  lemma OccurrencesOfMember<T>(xs: seq<T>, x: T)
    requires x in xs
    ensures Occurrences(xs, x) >= 1
  {
    assert x in multiset(xs);
  }

  /** Sum of the counts of the keys `ks` in `xs`. */
  function SumCounts<T(==)>(ks: seq<T>, xs: seq<T>): nat
  {
    if ks == [] then 0 else SumCounts(ks[..|ks| - 1], xs) + Occurrences(xs, ks[|ks| - 1])
  }

  lemma {:induction false} SumCountsAppendOne<T>(ks: seq<T>, xs: seq<T>, x: T)
    ensures SumCounts(ks, xs + [x]) == SumCounts(ks, xs) + (if x in ks then multiset(ks)[x] else 0)
    decreases |ks|
  {
    if ks != [] {
      var init := ks[..|ks| - 1];
      SumCountsAppendOne(init, xs, x);
      assert ks == init + [ks[|ks| - 1]];
      assert multiset(ks) == multiset(init) + multiset{ks[|ks| - 1]};
      assert multiset(xs + [x]) == multiset(xs) + multiset{x};
    }
  }

  /** Every value is counted once under its own key: the counts of a counter add up to the
      length of the list it was built from. */
  lemma {:induction false} SumOfCountsIsLength<T>(xs: seq<T>)
    ensures SumCounts(Distinct(xs), xs) == |xs|
    decreases |xs|
  {
    if xs != [] {
      var init := xs[..|xs| - 1];
      var x := xs[|xs| - 1];
      assert xs == init + [x];
      SumOfCountsIsLength(init);
      var d := Distinct(init);
      DistinctMembers(init);
      SumCountsAppendOne(d, init, x);
      if x in d {
        MultiplicityOneOfNoDuplicates(d, x);
      } else {
        assert Distinct(xs) == d + [x];
        assert Distinct(xs)[..|Distinct(xs)| - 1] == d;
        assert multiset(xs)[x] == 1 by {
          assert x !in init;
          assert multiset(xs) == multiset(init) + multiset{x};
        }
      }
    }
  }

  lemma {:induction false} MultiplicityOneOfNoDuplicates<T>(s: seq<T>, x: T)
    requires NoDuplicates(s) && x in s
    ensures multiset(s)[x] == 1
    decreases |s|
  {
    var init := s[..|s| - 1];
    assert s == init + [s[|s| - 1]];
    assert multiset(s) == multiset(init) + multiset{s[|s| - 1]};
    if s[|s| - 1] == x {
      assert x !in init;
    } else {
      MultiplicityOneOfNoDuplicates(init, x);
    }
  }

  /** Two positions holding the same value count it twice. */
  lemma RepeatCountsTwice<T>(s: seq<T>, i: nat, j: nat)
    requires i < j < |s| && s[i] == s[j]
    ensures multiset(s)[s[i]] >= 2
  {
    var a, b := s[..j], s[j + 1..];
    assert s == a + [s[j]] + b;
    assert a[i] == s[i];
    assert multiset(s) == multiset(a) + multiset{s[j]} + multiset(b);
  }

  /** Reordering a list without duplicates gives a list without duplicates. */
  lemma PermutationKeepsNoDuplicates<T>(a: seq<T>, b: seq<T>)
    requires multiset(a) == multiset(b) && NoDuplicates(a)
    ensures NoDuplicates(b)
  {
    forall i, j | 0 <= i < j < |b| ensures b[i] != b[j] {
      if b[i] == b[j] {
        RepeatCountsTwice(b, i, j);
        assert b[i] in multiset(a);
        MultiplicityOneOfNoDuplicates(a, b[i]);
      }
    }
  }

  /** A list without duplicates has as many elements as the set of its values. */
  lemma {:induction false} CardinalityOfNoDuplicates<T>(s: seq<T>)
    requires NoDuplicates(s)
    ensures |set x | x in s| == |s|
    decreases |s|
  {
    if s != [] {
      var init, last := s[..|s| - 1], s[|s| - 1];
      assert NoDuplicates(init);
      CardinalityOfNoDuplicates(init);
      assert last !in init;
      assert (set x | x in s) == (set x | x in init) + {last};
    }
  }

  /** Index in `ks` of the first key with the largest count in `xs`. */
  function FirstMaxIndex<T(==)>(ks: seq<T>, xs: seq<T>): (i: nat)
    requires ks != []
    ensures i < |ks|
    decreases |ks|
  {
    if |ks| == 1 then 0
    else
      var best := FirstMaxIndex(ks[..|ks| - 1], xs);
      if Occurrences(xs, ks[|ks| - 1]) > Occurrences(xs, ks[best]) then |ks| - 1 else best
  }

  /** `Counter(xs).most_common(1)[0][0]`. */
  function MostCommon<T(==)>(xs: seq<T>): T
    requires xs != []
  {
    DistinctNonEmpty(xs);
    var d := Distinct(xs);
    d[FirstMaxIndex(d, xs)]
  }

  /** No key counts more than the chosen one, and every key before it counts less. */
  lemma {:induction false} FirstMaxIsFirstLargest<T>(ks: seq<T>, xs: seq<T>)
    requires ks != []
    ensures forall j :: 0 <= j < |ks| ==> Occurrences(xs, ks[j]) <= Occurrences(xs, ks[FirstMaxIndex(ks, xs)])
    ensures forall j :: 0 <= j < FirstMaxIndex(ks, xs) ==> Occurrences(xs, ks[j]) < Occurrences(xs, ks[FirstMaxIndex(ks, xs)])
    decreases |ks|
  {
    if |ks| > 1 {
      var init := ks[..|ks| - 1];
      FirstMaxIsFirstLargest(init, xs);
      assert forall j :: 0 <= j < |init| ==> init[j] == ks[j];
    }
  }

  /** The most common value occurs in the list, no value occurs more often, and no value
      that occurs as often is met before it: ties go to the value seen first. */
  lemma MostCommonIsFirstMode<T>(xs: seq<T>)
    requires xs != []
    ensures MostCommon(xs) in xs
    ensures forall y :: y in xs ==> Occurrences(xs, y) <= Occurrences(xs, MostCommon(xs))
    ensures forall i :: 0 <= i < |xs| && Occurrences(xs, xs[i]) == Occurrences(xs, MostCommon(xs)) ==>
      MostCommon(xs) in xs[..i + 1]
  {
    var d := Distinct(xs);
    DistinctNonEmpty(xs);
    DistinctMembers(xs);
    FirstMaxIsFirstLargest(d, xs);
    var k := FirstMaxIndex(d, xs);
    var m := d[k];
    forall y | y in xs ensures Occurrences(xs, y) <= Occurrences(xs, m) {
      var j :| 0 <= j < |d| && d[j] == y;
    }
    forall i | 0 <= i < |xs| && Occurrences(xs, xs[i]) == Occurrences(xs, m)
      ensures m in xs[..i + 1]
    {
      TieSeenFirst(xs, i, k);
    }
  }

  lemma TieSeenFirst<T>(xs: seq<T>, i: nat, k: nat)
    requires i < |xs| && k < |Distinct(xs)|
    requires forall j :: 0 <= j < k ==> Occurrences(xs, Distinct(xs)[j]) < Occurrences(xs, Distinct(xs)[k])
    requires Occurrences(xs, xs[i]) == Occurrences(xs, Distinct(xs)[k])
    ensures Distinct(xs)[k] in xs[..i + 1]
  {
    var d := Distinct(xs);
    var p := Distinct(xs[..i + 1]);
    DistinctPrefix(xs, i + 1);
    DistinctMembers(xs[..i + 1]);
    DistinctMembers(xs);
    assert xs[..i + 1][i] == xs[i];
    var jj :| 0 <= jj < |p| && p[jj] == xs[i];
    assert d[jj] == xs[i];
    assert k <= jj;
    assert d[k] == p[k];
  }

  /** Builds a counter over `xs` the way `Counter(xs)` does, one value at a time: the keys
      in first-appearance order and the count of each. */
  method Count(xs: seq<string>) returns (keys: seq<string>, counts: map<string, nat>)
    ensures keys == Distinct(xs)
    ensures forall k :: k in counts <==> k in xs
    ensures forall k :: k in counts ==> counts[k] == Occurrences(xs, k)
  {
    keys, counts := [], map[];
    for i := 0 to |xs|
      invariant keys == Distinct(xs[..i])
      invariant forall k :: k in counts <==> k in xs[..i]
      invariant forall k :: k in counts ==> counts[k] == Occurrences(xs[..i], k)
    {
      var x := xs[i];
      assert xs[..i + 1] == xs[..i] + [x];
      assert xs[..i + 1][..i] == xs[..i];
      DistinctMembers(xs[..i]);
      if x in counts {
        counts := counts[x := counts[x] + 1];
      } else {
        keys := keys + [x];
        counts := counts[x := 1];
      }
    }
    assert xs[..|xs|] == xs;
  }

  /** One more key either takes the lead with a strictly larger count or leaves it. */
  lemma FirstMaxStep<T>(ks: seq<T>, xs: seq<T>, j: nat, best: nat)
    requires best < j < |ks| && best == FirstMaxIndex(ks[..j], xs)
    ensures FirstMaxIndex(ks[..j + 1], xs) ==
      if Occurrences(xs, ks[j]) > Occurrences(xs, ks[best]) then j else best
  {
    assert ks[..j + 1][..j] == ks[..j];
  }

  /** `Counter(xs).most_common(1)[0][0]`, computed as Python does: count, then scan the
      items in key order keeping the first strictly larger count. */
  method MostCommonValue(xs: seq<string>) returns (m: string)
    requires xs != []
    ensures m == MostCommon(xs)
  {
    var keys, counts := Count(xs);
    DistinctNonEmpty(xs);
    DistinctMembers(xs);
    var best := 0;
    for j := 1 to |keys|
      invariant best < j
      invariant best == FirstMaxIndex(keys[..j], xs)
    {
      FirstMaxStep(keys, xs, j, best);
      assert keys[j] in keys && keys[best] in keys;
      if counts[keys[j]] > counts[keys[best]] {
        best := j;
      }
    }
    assert keys[..|keys|] == keys;
    m := keys[best];
  }
}
