/**
 * Array.prototype.sort with a comparator, as both dashboards call it. The sort is
 * stable (ECMAScript 2019 onwards), so for a consistent comparator its result is
 * the stable sorted permutation of the input; `StableSort` defines that result as
 * insertion sort from the right, and `InsertionSort` computes it in place.
 *
 * A comparator `cmp` is represented by `le(a, b) == (cmp(a, b) <= 0)`: `a` may stay
 * in front of `b`.
 */
module Sorting {
  import opened Seqs

  /** The comparator is consistent: any two elements compare, and comparing chains. */
  ghost predicate TotalPreorder<T(!new)>(le: (T, T) -> bool)
  {
    && (forall a, b :: le(a, b) || le(b, a))
    && (forall a, b, c :: le(a, b) && le(b, c) ==> le(a, c))
  }

  ghost predicate SortedBy<T>(s: seq<T>, le: (T, T) -> bool)
  {
    forall i, j :: 0 <= i < j < |s| ==> le(s[i], s[j])
  }

  /** Insert `x` after the last element that may precede it, scanning from the right. */
  function InsertR<T>(s: seq<T>, x: T, le: (T, T) -> bool): (r: seq<T>)
    ensures |r| == |s| + 1
  {
    if s == [] || le(s[|s| - 1], x) then s + [x]
    else InsertR(s[..|s| - 1], x, le) + [s[|s| - 1]]
  }

  /** The stable sort of `s`: insert each element, in input order, into the sorted front. */
  function StableSort<T>(s: seq<T>, le: (T, T) -> bool): (r: seq<T>)
    ensures |r| == |s|
  {
    if s == [] then [] else InsertR(StableSort(s[..|s| - 1], le), s[|s| - 1], le)
  }

  lemma {:induction false} InsertRMultiset<T>(s: seq<T>, x: T, le: (T, T) -> bool)
    ensures multiset(InsertR(s, x, le)) == multiset(s) + multiset{x}
  {
    if s != [] && !le(s[|s| - 1], x) {
      var n := |s| - 1;
      InsertRMultiset(s[..n], x, le);
      assert s == s[..n] + [s[n]];
    }
  }

  /** Sorting only rearranges: the result is a permutation of the input. */
  lemma {:induction false} StableSortPermutation<T>(s: seq<T>, le: (T, T) -> bool)
    ensures multiset(StableSort(s, le)) == multiset(s)
  {
    if s != [] {
      var n := |s| - 1;
      StableSortPermutation(s[..n], le);
      InsertRMultiset(StableSort(s[..n], le), s[n], le);
      assert s == s[..n] + [s[n]];
    }
  }

  lemma {:induction false} InsertRSorted<T(!new)>(s: seq<T>, x: T, le: (T, T) -> bool)
    requires TotalPreorder(le) && SortedBy(s, le)
    ensures SortedBy(InsertR(s, x, le), le)
  {
    if s != [] {
      var n := |s| - 1;
      var last := s[n];
      if le(last, x) {
        var r := s + [x];
        forall i, j | 0 <= i < j < |r| ensures le(r[i], r[j]) {
          if j == n + 1 && i < n {
            assert le(s[i], last);
          }
        }
      } else {
        var front := InsertR(s[..n], x, le);
        InsertRSorted(s[..n], x, le);
        InsertRMultiset(s[..n], x, le);
        var r := front + [last];
        forall i, j | 0 <= i < j < |r| ensures le(r[i], r[j]) {
          if j == n + 1 {
            assert r[i] in multiset(front);
            if r[i] != x {
              assert r[i] in multiset(s[..n]);
              var k :| 0 <= k < n && s[..n][k] == r[i];
              assert le(s[k], s[n]);
            }
          }
        }
      }
    }
  }

  /** With a consistent comparator the result is ordered. */
  lemma {:induction false} StableSortSorted<T(!new)>(s: seq<T>, le: (T, T) -> bool)
    requires TotalPreorder(le)
    ensures SortedBy(StableSort(s, le), le)
  {
    if s != [] {
      var n := |s| - 1;
      StableSortSorted(s[..n], le);
      InsertRSorted(StableSort(s[..n], le), s[n], le);
    }
  }

  /** An input already in order comes back unchanged: equal elements are never swapped. */
  lemma {:induction false} StableSortOfSorted<T>(s: seq<T>, le: (T, T) -> bool)
    requires SortedBy(s, le)
    ensures StableSort(s, le) == s
  {
    if s != [] {
      var n := |s| - 1;
      assert SortedBy(s[..n], le);
      StableSortOfSorted(s[..n], le);
      assert s == s[..n] + [s[n]];
    }
  }

  /** The elements `le` ranks equal to `e`: each may precede the other. */
  function SameRank<T>(le: (T, T) -> bool, e: T): T -> bool
  {
    y => le(e, y) && le(y, e)
  }

  /** InsertR puts `x` just before the back of `s` whose elements may not precede it. */
  lemma {:induction false} InsertRSplit<T>(s: seq<T>, x: T, le: (T, T) -> bool) returns (j: nat)
    ensures j <= |s| && InsertR(s, x, le) == s[..j] + [x] + s[j..]
    ensures forall k :: j <= k < |s| ==> !le(s[k], x)
  {
    if s == [] || le(s[|s| - 1], x) {
      j := |s|;
      assert s[..j] == s && s[j..] == [];
    } else {
      var n := |s| - 1;
      j := InsertRSplit(s[..n], x, le);
      assert s[..n][..j] == s[..j];
      assert s[j..] == s[..n][j..] + [s[n]];
    }
  }

  /**
   * Inserting `x` keeps the elements a test `q` selects in place and, when `x` passes
   * it, adds `x` after them, provided every selected element may precede a selected `x`.
   */
  lemma InsertRFilter<T(!new)>(s: seq<T>, x: T, le: (T, T) -> bool, q: T -> bool)
    requires q(x) ==> forall y :: q(y) ==> le(y, x)
    ensures Filter(InsertR(s, x, le), q) == Filter(s, q) + (if q(x) then [x] else [])
  {
    var j := InsertRSplit(s, x, le);
    if q(x) {
      var back := s[j..];
      forall k | 0 <= k < |back| ensures !q(back[k]) {
        assert !le(s[j + k], x);
      }
      FilterNone(back, q);
    }
    InsertRFilterAt(s, InsertR(s, x, le), x, q, j);
  }

  lemma InsertRFilterAt<T(!new)>(s: seq<T>, ins: seq<T>, x: T, q: T -> bool, j: nat)
    requires j <= |s| && ins == s[..j] + [x] + s[j..]
    requires q(x) ==> Filter(s[j..], q) == []
    ensures Filter(ins, q) == Filter(s, q) + (if q(x) then [x] else [])
  {
    FilterInsertAt(s, x, j, q);
    var front, back := Filter(s[..j], q), Filter(s[j..], q);
    if q(x) {
      assert back == [];
      assert Filter(s, q) == front;
      assert Filter(ins, q) == front + [x];
    } else {
      assert Filter(ins, q) == front + back;
    }
  }

  /** Under a consistent comparator, elements ranked equal to the same `e` may precede each other. */
  lemma SameRankPrecedes<T(!new)>(le: (T, T) -> bool, e: T, x: T)
    requires TotalPreorder(le)
    ensures SameRank(le, e)(x) ==> forall y :: SameRank(le, e)(y) ==> le(y, x)
  {
    if SameRank(le, e)(x) {
      forall y | SameRank(le, e)(y) ensures le(y, x) {
        assert le(y, e) && le(e, x);
      }
    }
  }

  /**
   * Stability: the elements ranked equal to any `e` come out in their input order.
   * Together with StableSortPermutation and StableSortSorted this pins the result
   * down as the stable sort.
   */
  lemma {:induction false} StableSortStable<T(!new)>(s: seq<T>, le: (T, T) -> bool, e: T)
    requires TotalPreorder(le)
    ensures Filter(StableSort(s, le), SameRank(le, e)) == Filter(s, SameRank(le, e))
  {
    if s != [] {
      var n := |s| - 1;
      StableSortStable(s[..n], le, e);
      SameRankPrecedes(le, e, s[n]);
      InsertRFilter(StableSort(s[..n], le), s[n], le, SameRank(le, e));
    }
  }

  /** Where the inner loop of InsertionSort stops, InsertR puts `x`. */
  lemma {:induction false} InsertRAt<T>(s: seq<T>, x: T, j: nat, le: (T, T) -> bool)
    requires j <= |s|
    requires j > 0 ==> le(s[j - 1], x)
    requires forall k :: j <= k < |s| ==> !le(s[k], x)
    ensures InsertR(s, x, le) == s[..j] + [x] + s[j..]
  {
    if j < |s| {
      var n := |s| - 1;
      InsertRAt(s[..n], x, j, le);
      assert s[..n][..j] == s[..j];
      assert s[j..] == s[..n][j..] + [s[n]];
    }
  }

  /** One step of insertion sort: move `a[i]` left past the elements that must follow it. */
  method InsertStep<T>(a: array<T>, i: nat, le: (T, T) -> bool)
    requires i < a.Length
    modifies a
    ensures a[..i + 1] == InsertR(old(a[..i]), old(a[i]), le)
    ensures a[i + 1..] == old(a[i + 1..])
  {
    ghost var sorted := a[..i];
    ghost var rest := a[i + 1..];
    var x := a[i];
    var j := i;
    while j > 0 && !le(a[j - 1], x)
      invariant 0 <= j <= i
      invariant a[..j] == sorted[..j]
      invariant a[j + 1..i + 1] == sorted[j..i]
      invariant a[i + 1..] == rest
      invariant forall k :: j <= k < i ==> !le(sorted[k], x)
    {
      a[j] := a[j - 1];
      j := j - 1;
    }
    a[j] := x;
    InsertRAt(sorted, x, j, le);
    assert a[..i + 1] == a[..j] + [x] + a[j + 1..i + 1];
  }

  /** Insertion sort of `a` in place, comparing with `le`. */
  method InsertionSort<T>(a: array<T>, le: (T, T) -> bool)
    modifies a
    ensures a[..] == StableSort(old(a[..]), le)
  {
    ghost var input := a[..];
    var i := 0;
    while i < a.Length
      invariant 0 <= i <= a.Length
      invariant a[..i] == StableSort(input[..i], le)
      invariant a[i..] == input[i..]
    {
      assert a[i] == input[i];
      InsertStep(a, i, le);
      assert input[..i + 1][..i] == input[..i];
      assert a[i + 1..] == input[i + 1..];
      i := i + 1;
    }
    assert input[..a.Length] == input;
  }

  /** Sort a copy of `s`, as `list.slice()` followed by `.sort(...)` does. */
  method SortCopy<T>(s: seq<T>, le: (T, T) -> bool) returns (r: seq<T>)
    ensures r == StableSort(s, le)
  {
    if s == [] {
      return [];
    }
    var a := new T[|s|](i requires 0 <= i < |s| => s[i]);
    assert a[..] == s;
    InsertionSort(a, le);
    r := a[..];
  }
}
