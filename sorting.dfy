/** `rues.sort((a, b) => keyA.localeCompare(keyB))`: the in-place sort of the
    list by sort key, specified by a functional insertion sort whose order,
    permutation and stability are proved. */
module Sorting {
  import opened Voies
  import opened StringOrder
  import opened Sequences

  /** The comparator does not put `a` after `b`. */
  predicate KeyLe(a: Voie, b: Voie) {
    Below(SortKey(a), SortKey(b))
  }

  predicate SortedByKey(s: seq<Voie>) {
    forall i, j :: 0 <= i < j < |s| ==> KeyLe(s[i], s[j])
  }

  /** `x` placed into `s` after the last element, scanning from the end, whose key
      is not greater than its own. */
  function Insert(x: Voie, s: seq<Voie>): (r: seq<Voie>)
    ensures |r| == |s| + 1
  {
    if s == [] || KeyLe(s[|s| - 1], x) then s + [x]
    else Insert(x, s[..|s| - 1]) + [s[|s| - 1]]
  }

  /** The list in ascending order of sort key, equal keys in their original order. */
  function SortByKey(s: seq<Voie>): (r: seq<Voie>)
    ensures |r| == |s|
  {
    if s == [] then [] else Insert(s[|s| - 1], SortByKey(s[..|s| - 1]))
  }

  /** The records that have sort key `k`. */
  function HasKey(k: string): Voie -> bool {
    v => SortKey(v) == k
  }

  // ---------------------------------------------------------------------------
  // Permutation

  lemma {:induction false} InsertPermutes(x: Voie, s: seq<Voie>)
    ensures multiset(Insert(x, s)) == multiset(s) + multiset{x}
  {
    if s != [] && !KeyLe(s[|s| - 1], x) {
      InsertPermutes(x, s[..|s| - 1]);
      assert s == s[..|s| - 1] + [s[|s| - 1]];
    }
  }

  /** The sort only reorders: every record keeps its number of occurrences. */
  lemma {:induction false} SortByKeyPermutes(s: seq<Voie>)
    ensures multiset(SortByKey(s)) == multiset(s)
  {
    if s != [] {
      SortByKeyPermutes(s[..|s| - 1]);
      InsertPermutes(s[|s| - 1], SortByKey(s[..|s| - 1]));
      assert s == s[..|s| - 1] + [s[|s| - 1]];
    }
  }

  // ---------------------------------------------------------------------------
  // Order

  lemma {:induction false} InsertSorted(x: Voie, s: seq<Voie>)
    requires SortedByKey(s)
    ensures SortedByKey(Insert(x, s))
  {
    if s == [] {
    } else if KeyLe(s[|s| - 1], x) {
      forall i | 0 <= i < |s| ensures KeyLe(s[i], x) {
        if i < |s| - 1 {
          BelowTransitive(SortKey(s[i]), SortKey(s[|s| - 1]), SortKey(x));
        }
      }
    } else {
      var last, init := s[|s| - 1], s[..|s| - 1];
      InsertSorted(x, init);
      InsertPermutes(x, init);
      BelowTotal(SortKey(last), SortKey(x));
      var r := Insert(x, init);
      forall i | 0 <= i < |r| ensures KeyLe(r[i], last) {
        assert r[i] in multiset(r);
        assert r[i] == x || r[i] in init;
      }
    }
  }

  /** The sort's result is in ascending order of sort key. */
  lemma {:induction false} SortByKeySorted(s: seq<Voie>)
    ensures SortedByKey(SortByKey(s))
  {
    if s != [] {
      SortByKeySorted(s[..|s| - 1]);
      InsertSorted(s[|s| - 1], SortByKey(s[..|s| - 1]));
    }
  }

  // ---------------------------------------------------------------------------
  // Stability

  lemma {:induction false} InsertStable(x: Voie, s: seq<Voie>, k: string)
    ensures Filter(HasKey(k), Insert(x, s)) == Filter(HasKey(k), s) + Filter(HasKey(k), [x])
    decreases |s|, 1
  {
    if s == [] || KeyLe(s[|s| - 1], x) {
      assert Insert(x, s) == s + [x];
      FilterConcat(HasKey(k), s, [x]);
    } else {
      InsertStablePast(x, s, k);
    }
  }

  /** The step where `x` is moved past a last element with a greater key. */
  lemma {:induction false} InsertStablePast(x: Voie, s: seq<Voie>, k: string)
    requires s != [] && !KeyLe(s[|s| - 1], x)
    ensures Filter(HasKey(k), Insert(x, s)) == Filter(HasKey(k), s) + Filter(HasKey(k), [x])
    decreases |s|, 0
  {
    var p := HasKey(k);
    var last, init := s[|s| - 1], s[..|s| - 1];
    var A, X, L := Filter(p, init), Filter(p, [x]), Filter(p, [last]);
    assert X == [] || L == [] by {
      BelowReflexive(SortKey(x));
      assert SortKey(last) != SortKey(x);
      FilterSingle(k, x);
      FilterSingle(k, last);
    }
    calc {
      Filter(p, Insert(x, s));
      { assert Insert(x, s) == Insert(x, init) + [last];
        FilterConcat(p, Insert(x, init), [last]); }
      Filter(p, Insert(x, init)) + L;
      { InsertStable(x, init, k); }
      A + X + L;
      A + L + X;
      { assert s == init + [last];
        FilterConcat(p, init, [last]); }
      Filter(p, s) + X;
    }
  }

  lemma FilterSingle(k: string, y: Voie)
    ensures Filter(HasKey(k), [y]) == if SortKey(y) == k then [y] else []
  {
    assert [y][1..] == [];
  }

  /** The sort is stable: the records that share a sort key keep their order. */
  lemma {:induction false} SortByKeyStable(s: seq<Voie>, k: string)
    ensures Filter(HasKey(k), SortByKey(s)) == Filter(HasKey(k), s)
  {
    if s != [] {
      var last, init := s[|s| - 1], s[..|s| - 1];
      SortByKeyStable(init, k);
      InsertStable(last, SortByKey(init), k);
      FilterConcat(HasKey(k), init, [last]);
      assert s == init + [last];
    }
  }

  /** A list already in order is left as it is. */
  lemma {:induction false} SortByKeyOfSorted(s: seq<Voie>)
    requires SortedByKey(s)
    ensures SortByKey(s) == s
  {
    if s != [] {
      var init := s[..|s| - 1];
      assert SortedByKey(init);
      SortByKeyOfSorted(init);
      assert s == init + [s[|s| - 1]];
    }
  }

  /** Filtering a sorted list leaves it sorted. */
  lemma {:induction false} FilterSorted(p: Voie -> bool, s: seq<Voie>)
    requires SortedByKey(s)
    ensures SortedByKey(Filter(p, s))
  {
    if s != [] && p(s[0]) {
      var tail := s[1..];
      assert SortedByKey(tail);
      FilterSorted(p, tail);
      var rest := Filter(p, tail);
      assert forall y :: y in tail ==> KeyLe(s[0], y);
      FilterCounts(p, tail);
      assert forall y :: y in rest ==> KeyLe(s[0], y);
      FirstThenSorted(s[0], rest);
    } else if s != [] {
      assert SortedByKey(s[1..]);
      FilterSorted(p, s[1..]);
    }
  }

  lemma FirstThenSorted(x: Voie, s: seq<Voie>)
    requires SortedByKey(s) && forall y :: y in s ==> KeyLe(x, y)
    ensures SortedByKey([x] + s)
  {
    var r := [x] + s;
    forall i, j | 0 <= i < j < |r| ensures KeyLe(r[i], r[j]) {
      assert r[j] == s[j - 1];
      if i > 0 {
        assert r[i] == s[i - 1];
      }
    }
  }

  // ---------------------------------------------------------------------------
  // The in-place sort

  /** `x` goes in right after the elements up to `j`, when every element from `j` on
      has a greater key than `x` and the one before `j` does not. */
  lemma {:induction false} InsertAt(x: Voie, t: seq<Voie>, j: nat)
    requires j <= |t| && (j == 0 || KeyLe(t[j - 1], x))
    requires forall k :: j <= k < |t| ==> !KeyLe(t[k], x)
    ensures Insert(x, t) == t[..j] + [x] + t[j..]
  {
    if j < |t| {
      var init, last := t[..|t| - 1], t[|t| - 1];
      assert init[..j] == t[..j] && (j == 0 || init[j - 1] == t[j - 1]);
      assert forall k :: j <= k < |init| ==> init[k] == t[k];
      calc {
        Insert(x, t);
        { assert !KeyLe(last, x); }
        Insert(x, init) + [last];
        { InsertAt(x, init, j); }
        init[..j] + [x] + init[j..] + [last];
        { assert init[j..] + [last] == t[j..]; }
        t[..j] + [x] + t[j..];
      }
    } else {
      assert t[..j] == t && t[j..] == [];
    }
  }

  lemma SortByKeyStep(s: seq<Voie>, i: nat)
    requires i < |s|
    ensures SortByKey(s[..i + 1]) == Insert(s[i], SortByKey(s[..i]))
  {
    assert s[..i + 1][..i] == s[..i];
  }

  /** The array once the shifting loop has put `x` at `j`. */
  lemma ShiftedShape(s: seq<Voie>, s0: seq<Voie>, sorted: seq<Voie>, x: Voie, i: nat, j: nat)
    requires |sorted| == i < |s| == |s0| && sorted == s0[..i] && j <= i && s[j] == x
    requires forall k :: 0 <= k < |s| && (k < j || i < k) ==> s[k] == s0[k]
    requires forall k :: j < k <= i ==> s[k] == sorted[k - 1]
    ensures s[..i + 1] == sorted[..j] + [x] + sorted[j..]
    ensures s[i + 1..] == s0[i + 1..]
  {
    var r := sorted[..j] + [x] + sorted[j..];
    assert |r| == i + 1;
    forall k | 0 <= k <= i ensures s[k] == r[k] {
      if k < j {
        assert r[k] == sorted[k] == s0[k];
      } else if k > j {
        assert r[k] == sorted[k - 1];
      }
    }
  }

  /** Moves `a[i]` left into the sorted prefix `a[..i]`. */
  method InsertInPlace(a: array<Voie>, i: nat)
    requires i < a.Length
    modifies a
    ensures a[..i + 1] == Insert(old(a[i]), old(a[..i]))
    ensures a[i + 1..] == old(a[i + 1..])
  {
    var x := a[i];
    ghost var sorted, orig := a[..i], a[..];
    var j := i;
    while j > 0 && !KeyLe(a[j - 1], x)
      invariant 0 <= j <= i
      invariant forall k :: 0 <= k < a.Length && (k < j || i < k) ==> a[k] == orig[k]
      invariant forall k :: j < k <= i ==> a[k] == sorted[k - 1]
      invariant forall k :: j <= k < i ==> !KeyLe(sorted[k], x)
    {
      a[j] := a[j - 1];
      j := j - 1;
    }
    a[j] := x;
    InsertAt(x, sorted, j);
    ShiftedShape(a[..], orig, sorted, x, i, j);
  }

  /** `rues.sort(...)` on the array itself, by insertion: each element in turn is
      moved left past the elements whose key is greater than its own. */
  method SortInPlace(a: array<Voie>)
    modifies a
    ensures a[..] == SortByKey(old(a[..]))
  {
    ghost var input := a[..];
    var i := 0;
    while i < a.Length
      invariant 0 <= i <= a.Length
      invariant a[..i] == SortByKey(input[..i])
      invariant a[i..] == input[i..]
    {
      SortByKeyStep(input, i);
      assert a[i] == input[i];
      InsertInPlace(a, i);
      assert a[i + 1..] == input[i + 1..];
      i := i + 1;
    }
    assert a[..] == a[..a.Length] && input == input[..a.Length];
  }
}
