/**
 * Sequence operations shared by the PHP and JavaScript models: order-preserving
 * filtering (Array.prototype.filter, PHP foreach-with-continue), first-seen
 * de-duplication (a JavaScript Set, a PHP array keyed by label), substring search
 * (String.prototype.includes) and joining (Array.prototype.join, implode).
 */
module Seqs {
  import opened Wrappers

  /** `idx` lists, in increasing order, the positions of `s` from which `r` is taken. */
  ghost predicate Picks<A, B>(r: seq<B>, s: seq<A>, idx: seq<int>, f: A -> Option<B>)
  {
    && |idx| == |r|
    && (forall k :: 0 <= k < |idx| ==> 0 <= idx[k] < |s| && f(s[idx[k]]) == Some(r[k]))
    && (forall k, l :: 0 <= k < l < |idx| ==> idx[k] < idx[l])
  }

  /** Keep the elements `f` accepts, replaced by what `f` makes of them, in order. */
  function FilterMap<A, B>(s: seq<A>, f: A -> Option<B>): (r: seq<B>)
    ensures |r| <= |s|
  {
    if s == [] then []
    else
      var last := s[|s| - 1];
      FilterMap(s[..|s| - 1], f) + (if f(last).Some? then [f(last).value] else [])
  }

  /**
   * FilterMap picks exactly the positions that `f` accepts, in increasing order:
   * it is an order-preserving image of a subsequence, and nothing accepted is lost.
   */
  lemma {:induction false} FilterMapPicks<A, B>(s: seq<A>, f: A -> Option<B>) returns (idx: seq<int>)
    ensures Picks(FilterMap(s, f), s, idx, f)
    ensures forall i :: 0 <= i < |s| ==> (f(s[i]).Some? <==> i in idx)
  {
    if s == [] {
      idx := [];
    } else {
      var n := |s| - 1;
      var front := s[..n];
      assert s == front + [s[n]];
      var idx0 := FilterMapPicks(front, f);
      idx := PicksAppend(FilterMap(front, f), front, idx0, f, s[n]);
    }
  }

  /** One more element extends the picks of the front by its own position when `f` accepts it. */
  lemma PicksAppend<A, B>(r: seq<B>, s: seq<A>, idx: seq<int>, f: A -> Option<B>, x: A) returns (idx': seq<int>)
    requires Picks(r, s, idx, f)
    requires forall i :: 0 <= i < |s| ==> (f(s[i]).Some? <==> i in idx)
    ensures var r' := r + (if f(x).Some? then [f(x).value] else []);
      Picks(r', s + [x], idx', f)
    ensures forall i :: 0 <= i < |s| + 1 ==> (f((s + [x])[i]).Some? <==> i in idx')
  {
    var t := s + [x];
    assert forall i :: 0 <= i < |s| ==> t[i] == s[i];
    if f(x).Some? {
      idx' := idx + [|s|];
      var r' := r + [f(x).value];
      forall k | 0 <= k < |idx'| ensures 0 <= idx'[k] < |t| && f(t[idx'[k]]) == Some(r'[k]) {
        if k < |idx| {
          assert idx'[k] == idx[k] && r'[k] == r[k];
        }
      }
    } else {
      idx' := idx;
      assert r + [] == r;
    }
  }

  /** Splitting off the head of a non-empty front. */
  lemma ConsFront<T>(a: seq<T>, b: seq<T>, c: seq<T>)
    requires a != []
    ensures a + b == [a[0]] + (a[1..] + b)
    ensures [a[0]] + (a[1..] + c) == a + c
  {
    assert a == [a[0]] + a[1..];
  }

  /** Splitting off the last element of a non-empty back. */
  lemma SnocBack<T>(a: seq<T>, b: seq<T>, x: seq<T>, y: seq<T>, z: seq<T>)
    requires b != []
    ensures (a + b)[..|a + b| - 1] == a + b[..|b| - 1] && (a + b)[|a + b| - 1] == b[|b| - 1]
    ensures (x + y) + z == x + (y + z)
  {
  }

  /** A non-empty sequence is its front followed by its last element. */
  lemma LastSplit<T>(s: seq<T>)
    requires s != []
    ensures s[..|s| - 1] + [s[|s| - 1]] == s
  {
  }

  /** FilterMap distributes over concatenation: what comes first stays first. */
  lemma {:induction false} FilterMapAppend<A, B>(s: seq<A>, t: seq<A>, f: A -> Option<B>)
    ensures FilterMap(s + t, f) == FilterMap(s, f) + FilterMap(t, f)
  {
    if t == [] {
      assert s + t == s;
    } else {
      var n := |t| - 1;
      assert (s + t)[..|s + t| - 1] == s + t[..n];
      FilterMapAppend(s, t[..n], f);
    }
  }

  /** Two choosers that agree on every element choose the same. */
  lemma {:induction false} FilterMapSame<A, B>(s: seq<A>, f: A -> Option<B>, g: A -> Option<B>)
    requires forall i :: 0 <= i < |s| ==> f(s[i]) == g(s[i])
    ensures FilterMap(s, f) == FilterMap(s, g)
  {
    if s != [] {
      var n := |s| - 1;
      assert forall i :: 0 <= i < n ==> s[..n][i] == s[i];
      FilterMapSame(s[..n], f, g);
    }
  }

  /** Order-preserving filter. */
  function Filter<T(!new)>(s: seq<T>, p: T -> bool): (r: seq<T>)
    ensures |r| <= |s|
    ensures forall x :: x in r <==> x in s && p(x)
  {
    if s == [] then []
    else
      var last := s[|s| - 1];
      var front := Filter(s[..|s| - 1], p);
      assert forall x :: x in s <==> x in s[..|s| - 1] || x == last;
      front + (if p(last) then [last] else [])
  }

  /**
   * Filter keeps exactly the positions whose element passes, in increasing order:
   * `idx` lists them, and the k-th kept element is the element at `idx[k]`.
   */
  lemma FilterPicks<T(!new)>(s: seq<T>, p: T -> bool) returns (idx: seq<int>)
    ensures |idx| == |Filter(s, p)|
    ensures forall k :: 0 <= k < |idx| ==> 0 <= idx[k] < |s| && Filter(s, p)[k] == s[idx[k]]
    ensures forall k, l :: 0 <= k < l < |idx| ==> idx[k] < idx[l]
    ensures forall i :: 0 <= i < |s| ==> (p(s[i]) <==> i in idx)
  {
    FilterIsFilterMap(s, p);
    idx := FilterMapPicks(s, KeepIf(p));
  }

  /** The chooser that keeps an element exactly when it passes `p`. */
  function KeepIf<T>(p: T -> bool): T -> Option<T>
  {
    x => if p(x) then Some(x) else None
  }

  lemma {:induction false} FilterIsFilterMap<T(!new)>(s: seq<T>, p: T -> bool)
    ensures Filter(s, p) == FilterMap(s, KeepIf(p))
  {
    if s != [] {
      FilterIsFilterMap(s[..|s| - 1], p);
    }
  }

  /** Filtering distributes over concatenation. */
  lemma {:induction false} FilterConcat<T(!new)>(a: seq<T>, b: seq<T>, p: T -> bool)
    ensures Filter(a + b, p) == Filter(a, p) + Filter(b, p)
  {
    if b == [] {
      assert a + b == a;
    } else {
      var n := |b| - 1;
      FilterConcat(a, b[..n], p);
      var last := if p(b[n]) then [b[n]] else [];
      SnocBack(a, b, Filter(a, p), Filter(b[..n], p), last);
    }
  }

  /** A test no element passes keeps nothing. */
  lemma {:induction false} FilterNone<T(!new)>(s: seq<T>, p: T -> bool)
    requires forall i :: 0 <= i < |s| ==> !p(s[i])
    ensures Filter(s, p) == []
  {
    if s != [] {
      var n := |s| - 1;
      assert forall i :: 0 <= i < n ==> s[..n][i] == s[i];
      FilterNone(s[..n], p);
    }
  }

  /** Filtering around one element: the front, then the element if it passes, then the back. */
  lemma FilterAround<T(!new)>(front: seq<T>, x: T, back: seq<T>, p: T -> bool)
    ensures Filter(front + [x] + back, p) == Filter(front, p) + (if p(x) then [x] else []) + Filter(back, p)
    ensures Filter(front + back, p) == Filter(front, p) + Filter(back, p)
  {
    FilterConcat(front + [x], back, p);
    FilterConcat(front, back, p);
    assert (front + [x])[..|front|] == front;
  }

  /** Filtering a sequence with `x` inserted at position `j`. */
  lemma FilterInsertAt<T(!new)>(s: seq<T>, x: T, j: nat, p: T -> bool)
    requires j <= |s|
    ensures Filter(s[..j] + [x] + s[j..], p) == Filter(s[..j], p) + (if p(x) then [x] else []) + Filter(s[j..], p)
    ensures Filter(s, p) == Filter(s[..j], p) + Filter(s[j..], p)
  {
    assert s == s[..j] + s[j..];
    FilterAround(s[..j], x, s[j..], p);
  }

  /** A test every element passes keeps the whole sequence. */
  lemma {:induction false} FilterAll<T(!new)>(s: seq<T>, p: T -> bool)
    requires forall i :: 0 <= i < |s| ==> p(s[i])
    ensures Filter(s, p) == s
  {
    if s != [] {
      var n := |s| - 1;
      var front := s[..n];
      assert forall i :: 0 <= i < n ==> front[i] == s[i];
      FilterAll(front, p);
      assert Filter(s, p) == front + [s[n]];
      LastSplit(s);
    }
  }

  /** A filtered sequence is a sub-multiset of its source. */
  lemma {:induction false} FilterSubMultiset<T(!new)>(s: seq<T>, p: T -> bool)
    ensures multiset(Filter(s, p)) <= multiset(s)
  {
    if s != [] {
      var n := |s| - 1;
      FilterSubMultiset(s[..n], p);
      assert s == s[..n] + [s[n]];
    }
  }

  /** The positions of `x` in `s` start at the first one; `x` must occur. */
  function FirstIndex<T(==)>(s: seq<T>, x: T): (i: nat)
    requires x in s
    ensures i < |s| && s[i] == x && x !in s[..i]
  {
    if s[0] == x then 0 else 1 + FirstIndex(s[1..], x)
  }

  /** First-seen de-duplication: every element once, at the place it first occurs. */
  function Dedup<T(==,!new)>(s: seq<T>): (r: seq<T>)
    ensures forall x :: x in r <==> x in s
    ensures Distinct(r)
  {
    if s == [] then []
    else
      var last := s[|s| - 1];
      var front := Dedup(s[..|s| - 1]);
      assert forall x :: x in s <==> x in s[..|s| - 1] || x == last;
      if last in front then front else front + [last]
  }

  /** Adding an element: a new one goes last, a repeated one changes nothing. */
  lemma DedupAppend<T(!new)>(s: seq<T>, x: T)
    ensures Dedup(s + [x]) == if x in s then Dedup(s) else Dedup(s) + [x]
  {
    assert (s + [x])[..|s|] == s;
  }

  ghost predicate Distinct<T>(s: seq<T>)
  {
    forall i, j :: 0 <= i < j < |s| ==> s[i] != s[j]
  }

  /** An element occurs at most once in a sequence without repeats. */
  lemma {:induction false} DistinctCount<T>(s: seq<T>, x: T)
    requires Distinct(s)
    ensures multiset(s)[x] <= 1
  {
    if s != [] {
      var n := |s| - 1;
      var front := s[..n];
      DistinctCount(front, x);
      assert s == front + [s[n]];
      assert s[n] !in front;
    }
  }

  /** A rearrangement of a sequence without repeats has none either. */
  lemma DistinctPermutation<T>(a: seq<T>, b: seq<T>)
    requires multiset(a) == multiset(b) && Distinct(a)
    ensures Distinct(b)
  {
    forall i, j | 0 <= i < j < |b| ensures b[i] != b[j] {
      assert b == b[..j] + [b[j]] + b[j + 1..];
      assert b[i] in b[..j];
      DistinctCount(a, b[j]);
    }
  }

  lemma FirstIndexPrefix<T>(s: seq<T>, t: seq<T>, x: T)
    requires x in s
    ensures x in s + t && FirstIndex(s + t, x) == FirstIndex(s, x)
  {
    var i := FirstIndex(s, x);
    assert (s + t)[i] == x;
    assert (s + t)[..i] == s[..i];
    FirstIndexUnique(s + t, x, i);
  }

  lemma FirstIndexUnique<T>(s: seq<T>, x: T, i: nat)
    requires i < |s| && s[i] == x && x !in s[..i]
    ensures FirstIndex(s, x) == i
  {
  }

  /** Dedup keeps elements in the order of their first occurrence. */
  lemma {:induction false} DedupFirstSeenOrder<T(!new)>(s: seq<T>)
    ensures forall k, l :: 0 <= k < l < |Dedup(s)| ==>
      FirstIndex(s, Dedup(s)[k]) < FirstIndex(s, Dedup(s)[l])
  {
    if s != [] {
      var n := |s| - 1;
      var front := s[..n];
      var last := s[n];
      DedupFirstSeenOrder(front);
      var d0 := Dedup(front);
      var d := Dedup(s);
      assert s == front + [last];
      forall k, l | 0 <= k < l < |d|
        ensures FirstIndex(s, d[k]) < FirstIndex(s, d[l])
      {
        assert d[k] == d0[k];
        FirstIndexPrefix(front, [last], d[k]);
        if l < |d0| {
          assert d[l] == d0[l];
          FirstIndexPrefix(front, [last], d[l]);
        } else {
          assert d[l] == last && last !in front;
          FirstIndexUnique(s, last, n);
        }
      }
    }
  }

  /** JavaScript String.prototype.includes / a substring test. */
  predicate Contains(hay: string, needle: string)
    decreases |hay|
  {
    needle <= hay || (hay != [] && Contains(hay[1..], needle))
  }

  /** `needle` occurs in `hay` starting at position `i`. */
  ghost predicate OccursAt(hay: string, needle: string, i: int)
  {
    0 <= i && i + |needle| <= |hay| && hay[i..i + |needle|] == needle
  }

  /** `Contains` finds exactly the needles that occur at some position. */
  lemma {:induction false} ContainsAt(hay: string, needle: string)
    ensures Contains(hay, needle) <==> exists i :: OccursAt(hay, needle, i)
  {
    if needle <= hay {
      assert OccursAt(hay, needle, 0);
    } else if hay == [] {
    } else {
      ContainsAt(hay[1..], needle);
      if exists i :: OccursAt(hay, needle, i) {
        var i :| OccursAt(hay, needle, i);
        assert i != 0;
        assert OccursAt(hay[1..], needle, i - 1);
      }
      if Contains(hay[1..], needle) {
        var i :| OccursAt(hay[1..], needle, i);
        assert OccursAt(hay, needle, i + 1);
      }
    }
  }

  /** Whatever contains a needle contains each of its prefixes. */
  lemma ContainsPrefix(hay: string, needle: string, k: nat)
    requires Contains(hay, needle) && k <= |needle|
    ensures Contains(hay, needle[..k])
  {
    ContainsAt(hay, needle);
    var i :| OccursAt(hay, needle, i);
    assert hay[i..i + k] == needle[..k];
    assert OccursAt(hay, needle[..k], i);
    ContainsAt(hay, needle[..k]);
  }

  /** Array.prototype.join / implode: the parts with `sep` between neighbours. */
  function Join(parts: seq<string>, sep: string): (r: string)
  {
    if parts == [] then ""
    else if |parts| == 1 then parts[0]
    else Join(parts[..|parts| - 1], sep) + sep + parts[|parts| - 1]
  }

  /** The length of a join: all the parts plus one separator between each two. */
  lemma {:induction false} JoinLength(parts: seq<string>, sep: string)
    requires parts != []
    ensures |Join(parts, sep)| == SumLengths(parts) + (|parts| - 1) * |sep|
  {
    if |parts| > 1 {
      var n := |parts| - 1;
      var front := parts[..n];
      JoinLength(front, sep);
      assert |Join(parts, sep)| == |Join(front, sep)| + |sep| + |parts[n]|;
      assert SumLengths(parts) == SumLengths(front) + |parts[n]|;
      assert n * |sep| == (n - 1) * |sep| + |sep|;
    }
  }

  function SumLengths(parts: seq<string>): nat
  {
    if parts == [] then 0 else SumLengths(parts[..|parts| - 1]) + |parts[|parts| - 1]|
  }
}
