/** `Array.prototype.sort(comparator)`: a stable sort in place, driven only by
    the sign of the comparator. Specified by a functional insertion sort on
    sequences, which is stable: elements the comparator ties keep their
    relative order. */
module JsSort {
  import opened JsArray

  /** Where `x` goes in `t`: after the last element the comparator does not
      put after `x`, scanning from the right. */
  function InsertPos<T>(t: seq<T>, x: T, cmp: (T, T) -> int): (p: nat)
    ensures p <= |t|
    ensures forall j :: p <= j < |t| ==> cmp(t[j], x) > 0
    ensures p > 0 ==> cmp(t[p - 1], x) <= 0
  {
    if t == [] || cmp(t[|t| - 1], x) <= 0 then |t| else InsertPos(t[..|t| - 1], x, cmp)
  }

  function Insert<T>(t: seq<T>, x: T, cmp: (T, T) -> int): seq<T> {
    var p := InsertPos(t, x, cmp);
    t[..p] + [x] + t[p..]
  }

  /** Sort the prefix, then insert the last element. */
  function InsertionSort<T>(s: seq<T>, cmp: (T, T) -> int): seq<T> {
    if s == [] then [] else Insert(InsertionSort(s[..|s| - 1], cmp), s[|s| - 1], cmp)
  }

  /** No element is put after a later one. */
  ghost predicate SortedBy<T>(s: seq<T>, cmp: (T, T) -> int) {
    forall i, j :: 0 <= i < j < |s| ==> cmp(s[i], s[j]) <= 0
  }

  /** The comparator is a total preorder on the elements of `s`: "not after"
      is transitive, and of two elements one is not after the other. */
  ghost predicate ConsistentOn<T>(s: seq<T>, cmp: (T, T) -> int) {
    && (forall a, b, c :: a in s && b in s && c in s && cmp(a, b) <= 0 && cmp(b, c) <= 0
          ==> cmp(a, c) <= 0)
    && (forall a, b :: a in s && b in s && cmp(a, b) > 0 ==> cmp(b, a) <= 0)
  }

  lemma InsertPermutes<T>(t: seq<T>, x: T, cmp: (T, T) -> int)
    ensures |Insert(t, x, cmp)| == |t| + 1
    ensures multiset(Insert(t, x, cmp)) == multiset(t) + multiset{x}
  {
    var p := InsertPos(t, x, cmp);
    calc {
      multiset(Insert(t, x, cmp));
      multiset(t[..p]) + multiset{x} + multiset(t[p..]);
      { assert t == t[..p] + t[p..]; }
      multiset(t) + multiset{x};
    }
  }

  /** Sorting only rearranges: the result is a permutation of the input. */
  lemma {:induction false} InsertionSortPermutes<T>(s: seq<T>, cmp: (T, T) -> int)
    ensures |InsertionSort(s, cmp)| == |s|
    ensures multiset(InsertionSort(s, cmp)) == multiset(s)
  {
    if s != [] {
      var init := s[..|s| - 1];
      InsertionSortPermutes(init, cmp);
      InsertPermutes(InsertionSort(init, cmp), s[|s| - 1], cmp);
      assert s == init + [s[|s| - 1]];
    }
  }

  /** Dropping the last element keeps a sequence sorted. */
  lemma SortedPrefix<T>(s: seq<T>, cmp: (T, T) -> int)
    requires s != [] && SortedBy(s, cmp)
    ensures SortedBy(s[..|s| - 1], cmp)
  {
    var init := s[..|s| - 1];
    forall i, j | 0 <= i < j < |init| ensures cmp(init[i], init[j]) <= 0 {
      assert init[i] == s[i] && init[j] == s[j];
    }
  }

  /** An input in which no element is put after a later one comes back unchanged. */
  lemma {:induction false} InsertionSortKeepsSorted<T>(s: seq<T>, cmp: (T, T) -> int)
    requires SortedBy(s, cmp)
    ensures InsertionSort(s, cmp) == s
  {
    if s != [] {
      var init := s[..|s| - 1];
      var x := s[|s| - 1];
      SortedPrefix(s, cmp);
      InsertionSortKeepsSorted(init, cmp);
      if |init| > 0 {
        assert init[|init| - 1] == s[|s| - 2];
        assert cmp(s[|s| - 2], s[|s| - 1]) <= 0;
      }
      InsertPosIs(init, x, cmp, |init|);
      assert Insert(init, x, cmp) == init + [x];
      assert s == init + [x];
    }
  }

  /** The element at each position of `Insert(t, x, cmp)`. */
  lemma InsertAt<T>(t: seq<T>, x: T, cmp: (T, T) -> int, m: int)
    requires 0 <= m <= |t|
    ensures |Insert(t, x, cmp)| == |t| + 1
    ensures var p := InsertPos(t, x, cmp);
      Insert(t, x, cmp)[m] == if m < p then t[m] else if m == p then x else t[m - 1]
  {
  }

  /** Two positions of `Insert(t, x, cmp)` are in order, given the two
      facts about `x` that a total preorder supplies. */
  lemma InsertPairOrdered<T>(t: seq<T>, x: T, cmp: (T, T) -> int, i: int, j: int)
    requires SortedBy(t, cmp)
    requires forall m :: 0 <= m < |t| && cmp(t[m], x) > 0 ==> cmp(x, t[m]) <= 0
    requires forall m, n :: 0 <= m < n < |t| && cmp(t[n], x) <= 0 ==> cmp(t[m], x) <= 0
    requires 0 <= i < j <= |t|
    ensures |Insert(t, x, cmp)| == |t| + 1
    ensures cmp(Insert(t, x, cmp)[i], Insert(t, x, cmp)[j]) <= 0
  {
    var p := InsertPos(t, x, cmp);
    InsertAt(t, x, cmp, i);
    InsertAt(t, x, cmp, j);
    if j < p {
      assert cmp(t[i], t[j]) <= 0;
    } else if j == p {
      if i < p - 1 {
        assert cmp(t[p - 1], x) <= 0;
      }
    } else if i == p {
      assert cmp(t[j - 1], x) > 0;
    } else if i < p {
      assert cmp(t[i], t[j - 1]) <= 0;
    } else {
      assert cmp(t[i - 1], t[j - 1]) <= 0;
    }
  }

  /** Inserting into a sorted sequence keeps it sorted when the comparator is
      a total preorder on the elements involved. */
  lemma InsertKeepsSorted<T>(t: seq<T>, x: T, cmp: (T, T) -> int)
    requires SortedBy(t, cmp)
    requires ConsistentOn(t + [x], cmp)
    ensures SortedBy(Insert(t, x, cmp), cmp)
  {
    var u := t + [x];
    assert x in u;
    forall m | 0 <= m < |t| && cmp(t[m], x) > 0 ensures cmp(x, t[m]) <= 0 {
      assert t[m] == u[m];
    }
    forall m, n | 0 <= m < n < |t| && cmp(t[n], x) <= 0 ensures cmp(t[m], x) <= 0 {
      assert t[m] == u[m] && t[n] == u[n];
      assert cmp(t[m], t[n]) <= 0;
    }
    var r := Insert(t, x, cmp);
    InsertAt(t, x, cmp, 0);
    forall i, j | 0 <= i < j < |r| ensures cmp(r[i], r[j]) <= 0 {
      InsertPairOrdered(t, x, cmp, i, j);
    }
  }

  lemma ConsistentOnSub<T>(s: seq<T>, t: seq<T>, cmp: (T, T) -> int)
    requires ConsistentOn(s, cmp)
    requires forall x :: x in t ==> x in s
    ensures ConsistentOn(t, cmp)
  {
  }

  /** When the comparator is a total preorder on the input, the result is sorted. */
  lemma {:induction false} InsertionSortSorts<T>(s: seq<T>, cmp: (T, T) -> int)
    requires ConsistentOn(s, cmp)
    ensures SortedBy(InsertionSort(s, cmp), cmp)
  {
    if s != [] {
      var init := s[..|s| - 1];
      var x := s[|s| - 1];
      ConsistentOnSub(s, init, cmp);
      InsertionSortSorts(init, cmp);
      var t := InsertionSort(init, cmp);
      InsertionSortPermutes(init, cmp);
      forall y | y in t + [x] ensures y in s {
        if y in t {
          assert y in multiset(init);
        }
      }
      ConsistentOnSub(s, t + [x], cmp);
      InsertKeepsSorted(t, x, cmp);
    }
  }

  // ---------------------------------------------------------------------
  // Stability

  /** Accepts the elements the comparator ties with `e`: neither is put
      after the other. */
  function TiesWith<T>(e: T, cmp: (T, T) -> int): T -> bool {
    x => cmp(x, e) <= 0 && cmp(e, x) <= 0
  }

  /** A filter of an insertion and of the appended sequence, both split at
      the insertion point. */
  lemma FilterInsert<T>(t: seq<T>, x: T, cmp: (T, T) -> int, keep: T -> bool)
    ensures var p := InsertPos(t, x, cmp);
      && Filter(Insert(t, x, cmp), keep) == Filter(t[..p], keep) + Filter([x], keep) + Filter(t[p..], keep)
      && Filter(t + [x], keep) == Filter(t[..p], keep) + Filter(t[p..], keep) + Filter([x], keep)
  {
    var p := InsertPos(t, x, cmp);
    var left, right := t[..p], t[p..];
    assert t + [x] == left + right + [x];
    FilterAppend(left + [x], right, keep);
    FilterAppend(left, [x], keep);
    FilterAppend(left + right, [x], keep);
    FilterAppend(left, right, keep);
  }

  /** When `x` ties with `e`, no element the comparator puts after `x` does. */
  lemma NoTiesAfter<T>(right: seq<T>, x: T, cmp: (T, T) -> int, e: T)
    requires forall m :: 0 <= m < |right| ==> cmp(right[m], x) > 0
    requires forall m :: 0 <= m < |right| && cmp(right[m], e) <= 0 && cmp(e, x) <= 0 ==> cmp(right[m], x) <= 0
    requires TiesWith(e, cmp)(x)
    ensures Filter(right, TiesWith(e, cmp)) == []
  {
    FilterKeepsNone(right, TiesWith(e, cmp));
  }

  /** The facts about the elements from `p` on, re-indexed from 0. */
  lemma DropFacts<T>(t: seq<T>, p: nat, x: T, cmp: (T, T) -> int, e: T)
    requires p <= |t|
    requires forall j :: p <= j < |t| ==> cmp(t[j], x) > 0
    requires forall m :: 0 <= m < |t| && cmp(t[m], e) <= 0 && cmp(e, x) <= 0 ==> cmp(t[m], x) <= 0
    ensures forall m :: 0 <= m < |t[p..]| ==> cmp(t[p..][m], x) > 0
    ensures forall m :: 0 <= m < |t[p..]| && cmp(t[p..][m], e) <= 0 && cmp(e, x) <= 0 ==> cmp(t[p..][m], x) <= 0
  {
  }

  /** Inserting `x` adds it to the elements tied with `e` exactly where
      appending it would. */
  lemma InsertTies<T>(t: seq<T>, x: T, cmp: (T, T) -> int, e: T)
    requires forall m :: 0 <= m < |t| && cmp(t[m], e) <= 0 && cmp(e, x) <= 0 ==> cmp(t[m], x) <= 0
    ensures Filter(Insert(t, x, cmp), TiesWith(e, cmp)) == Filter(t + [x], TiesWith(e, cmp))
  {
    var keep := TiesWith(e, cmp);
    FilterInsert(t, x, cmp, keep);
    var p := InsertPos(t, x, cmp);
    if keep(x) {
      var right := t[p..];
      DropFacts(t, p, x, cmp, e);
      NoTiesAfter(right, x, cmp, e);
    } else {
      assert Filter([x], keep) == [] by {
        assert [x][1..] == [];
      }
    }
    SwapEmpty(Filter(t[..p], keep), Filter([x], keep), Filter(t[p..], keep));
  }

  /** Two parts of which one is empty can be swapped. */
  lemma SwapEmpty<T>(a: seq<T>, b: seq<T>, c: seq<T>)
    requires b == [] || c == []
    ensures a + b + c == a + c + b
  {
    if b == [] {
      assert a + b + c == a + c;
    } else {
      assert a + b + c == a + b;
    }
  }

  /** The elements tied with `e` come out of the sort in their input order,
      for any `e` on which, with the input, the comparator is a total preorder. */
  lemma {:induction false} InsertionSortKeepsTies<T>(s: seq<T>, cmp: (T, T) -> int, e: T)
    requires ConsistentOn(s + [e], cmp)
    ensures Filter(InsertionSort(s, cmp), TiesWith(e, cmp)) == Filter(s, TiesWith(e, cmp))
  {
    if s != [] {
      var init := s[..|s| - 1];
      var x := s[|s| - 1];
      assert s == init + [x];
      ConsistentOnSub(s + [e], init + [e], cmp);
      InsertionSortKeepsTies(init, cmp, e);
      var t := InsertionSort(init, cmp);
      InsertionSortPermutes(init, cmp);
      assert x in s + [e] && e in s + [e];
      forall m | 0 <= m < |t| ensures t[m] in s + [e] {
        assert t[m] in multiset(init);
      }
      InsertTies(t, x, cmp, e);
      FilterAppend(t, [x], TiesWith(e, cmp));
      FilterAppend(init, [x], TiesWith(e, cmp));
    }
  }

  /** The sort is stable: when the comparator is a total preorder on the
      input, the elements tied with any one of them keep their relative order. */
  lemma InsertionSortStable<T>(s: seq<T>, cmp: (T, T) -> int, e: T)
    requires ConsistentOn(s, cmp) && e in s
    ensures Filter(InsertionSort(s, cmp), TiesWith(e, cmp)) == Filter(s, TiesWith(e, cmp))
  {
    ConsistentOnSub(s, s + [e], cmp);
    InsertionSortKeepsTies(s, cmp, e);
  }

  /** The insertion point is the one position with only "after" elements to
      its right and a "not after" element (or the start) to its left. */
  lemma {:induction false} InsertPosIs<T>(t: seq<T>, x: T, cmp: (T, T) -> int, j: nat)
    requires j <= |t|
    requires forall m :: j <= m < |t| ==> cmp(t[m], x) > 0
    requires j > 0 ==> cmp(t[j - 1], x) <= 0
    ensures InsertPos(t, x, cmp) == j
  {
    if j < |t| {
      assert cmp(t[|t| - 1], x) > 0;
      InsertPosIs(t[..|t| - 1], x, cmp, j);
    }
  }

  /** The sort of a prefix one element longer inserts that element. */
  lemma InsertionSortStep<T>(s: seq<T>, i: nat, cmp: (T, T) -> int)
    requires i < |s|
    ensures InsertionSort(s[..i + 1], cmp) == Insert(InsertionSort(s[..i], cmp), s[i], cmp)
  {
    assert s[..i + 1][..i] == s[..i];
  }

  /** `x` placed at `j`, with the elements of `t` from `j` on shifted one
      place right, is the insertion of `x` when `j` is the insertion point. */
  lemma ShiftedIsInsert<T>(t: seq<T>, x: T, cmp: (T, T) -> int, j: nat, r: seq<T>)
    requires j <= |t| && |r| == |t| + 1
    requires forall m :: 0 <= m < j ==> r[m] == t[m]
    requires r[j] == x
    requires forall m :: j < m <= |t| ==> r[m] == t[m - 1]
    requires forall m :: j <= m < |t| ==> cmp(t[m], x) > 0
    requires j > 0 ==> cmp(t[j - 1], x) <= 0
    ensures r == Insert(t, x, cmp)
  {
    InsertPosIs(t, x, cmp, j);
    InsertAt(t, x, cmp, 0);
    forall m | 0 <= m <= |t| ensures r[m] == Insert(t, x, cmp)[m] {
      InsertAt(t, x, cmp, m);
    }
  }

  /** Move `a[i]` left, past every element of `a[..i]` the comparator puts
      after it, shifting those one place right. */
  method InsertLast<T>(a: array<T>, i: nat, cmp: (T, T) -> int)
    requires i < a.Length
    modifies a
    ensures a[..i + 1] == Insert(old(a[..i]), old(a[i]), cmp)
    ensures a[i + 1..] == old(a[i + 1..])
  {
    ghost var sorted := a[..i];
    ghost var rest := a[i + 1..];
    var x := a[i];
    var j := i;
    while j > 0 && cmp(a[j - 1], x) > 0
      invariant 0 <= j <= i
      invariant forall m :: 0 <= m < j ==> a[m] == sorted[m]
      invariant forall m :: j < m <= i ==> a[m] == sorted[m - 1]
      invariant a[i + 1..] == rest
      invariant forall m :: j <= m < i ==> cmp(sorted[m], x) > 0
    {
      a[j] := a[j - 1];
      j := j - 1;
    }
    a[j] := x;
    assert j > 0 ==> cmp(sorted[j - 1], x) <= 0;
    ShiftedIsInsert(sorted, x, cmp, j, a[..i + 1]);
  }

  /** Sort `a` in place: insert each element into the sorted prefix before it. */
  method SortInPlace<T>(a: array<T>, cmp: (T, T) -> int)
    modifies a
    ensures a[..] == InsertionSort(old(a[..]), cmp)
  {
    ghost var input := a[..];
    var i := 0;
    while i < a.Length
      invariant 0 <= i <= a.Length
      invariant a[..i] == InsertionSort(input[..i], cmp)
      invariant a[i..] == input[i..]
    {
      assert a[i] == input[i];
      assert a[i + 1..] == input[i + 1..] by {
        assert a[i + 1..] == a[i..][1..] && input[i + 1..] == input[i..][1..];
      }
      InsertLast(a, i, cmp);
      InsertionSortStep(input, i, cmp);
      i := i + 1;
    }
    assert input[..a.Length] == input;
    assert a[..a.Length] == a[..];
  }
}
