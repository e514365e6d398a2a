/**
 * The aggregates the dashboards compute over lists: sums of a column, the number of
 * elements that satisfy a test, and the latest timestamp that is set (PHP's
 * "if (!empty($ts) && (null === $max || $ts > $max)) $max = $ts").
 * Each is a left-to-right fold, written so that appending one element is one step.
 */
module Folds {
  import opened Wrappers
  import opened WpValues

  /** The sum of `f` over `s`. */
  function SumOf<T>(s: seq<T>, f: T -> int): int
  {
    if s == [] then 0 else SumOf(s[..|s| - 1], f) + f(s[|s| - 1])
  }

  lemma SumOfAppend<T>(s: seq<T>, x: T, f: T -> int)
    ensures SumOf(s + [x], f) == SumOf(s, f) + f(x)
  {
    assert (s + [x])[..|s|] == s;
  }

  /** Summing is additive over concatenation. */
  lemma {:induction false} SumOfConcat<T>(s: seq<T>, t: seq<T>, f: T -> int)
    ensures SumOf(s + t, f) == SumOf(s, f) + SumOf(t, f)
  {
    if t == [] {
      assert s + t == s;
    } else {
      var n := |t| - 1;
      assert s + t == (s + t[..n]) + [t[n]];
      assert t == t[..n] + [t[n]];
      SumOfConcat(s, t[..n], f);
      SumOfAppend(s + t[..n], t[n], f);
      SumOfAppend(t[..n], t[n], f);
    }
  }

  /** A sum of terms that are each at least `m`. */
  lemma {:induction false} SumOfAtLeast<T>(s: seq<T>, f: T -> int, m: int)
    requires forall i :: 0 <= i < |s| ==> f(s[i]) >= m
    ensures SumOf(s, f) >= m * |s|
  {
    if s != [] {
      var n := |s| - 1;
      assert forall i :: 0 <= i < n ==> s[..n][i] == s[i];
      SumOfAtLeast(s[..n], f, m);
    }
  }

  /** The number of elements of `s` that satisfy `p`. */
  function CountWhere<T>(s: seq<T>, p: T -> bool): (n: nat)
    ensures n <= |s|
  {
    if s == [] then 0 else CountWhere(s[..|s| - 1], p) + (if p(s[|s| - 1]) then 1 else 0)
  }

  lemma CountWhereAppend<T>(s: seq<T>, x: T, p: T -> bool)
    ensures CountWhere(s + [x], p) == CountWhere(s, p) + (if p(x) then 1 else 0)
  {
    assert (s + [x])[..|s|] == s;
  }

  /** Two tests that never hold together count at most every element once. */
  lemma {:induction false} CountDisjoint<T>(s: seq<T>, p: T -> bool, q: T -> bool)
    requires forall i :: 0 <= i < |s| ==> !(p(s[i]) && q(s[i]))
    ensures CountWhere(s, p) + CountWhere(s, q) <= |s|
  {
    if s != [] {
      var n := |s| - 1;
      assert forall i :: 0 <= i < n ==> s[..n][i] == s[i];
      CountDisjoint(s[..n], p, q);
    }
  }

  /** A weaker test counts at least as many elements. */
  lemma {:induction false} CountWhereImplies<T>(s: seq<T>, p: T -> bool, q: T -> bool)
    requires forall i :: 0 <= i < |s| ==> p(s[i]) ==> q(s[i])
    ensures CountWhere(s, p) <= CountWhere(s, q)
  {
    if s != [] {
      var n := |s| - 1;
      assert forall i :: 0 <= i < n ==> s[..n][i] == s[i];
      CountWhereImplies(s[..n], p, q);
    }
  }

  /** Two tests that agree on every element count the same. */
  lemma {:induction false} CountWhereSame<T>(s: seq<T>, p: T -> bool, q: T -> bool)
    requires forall i :: 0 <= i < |s| ==> p(s[i]) == q(s[i])
    ensures CountWhere(s, p) == CountWhere(s, q)
  {
    CountWhereImplies(s, p, q);
    CountWhereImplies(s, q, p);
  }

  /** One fold step of the latest set timestamp: `t` replaces `prev` when set and later. */
  function Later(prev: Option<int>, t: Option<int>): Option<int>
  {
    if Present(t) && (prev.None? || t.value > prev.value) then t else prev
  }

  /**
   * The latest timestamp of `s` that is set, or None when none is: it is one of the
   * set timestamps, and no set timestamp is later.
   */
  function LatestTs<T>(s: seq<T>, ts: T -> Option<int>): (r: Option<int>)
    ensures r.None? <==> forall i :: 0 <= i < |s| ==> !Present(ts(s[i]))
    ensures r.Some? ==> Present(r)
    ensures r.Some? ==> forall i :: 0 <= i < |s| && Present(ts(s[i])) ==> ts(s[i]).value <= r.value
  {
    if s == [] then None
    else
      var n := |s| - 1;
      var prev := LatestTs(s[..n], ts);
      assert forall i :: 0 <= i < n ==> s[..n][i] == s[i];
      Later(prev, ts(s[n]))
  }

  /** The latest timestamp, when set, is the timestamp of one of the elements. */
  lemma {:induction false} LatestTsAttained<T>(s: seq<T>, ts: T -> Option<int>)
    ensures var r := LatestTs(s, ts);
      r.Some? ==> exists i :: 0 <= i < |s| && ts(s[i]) == r
  {
    if s != [] {
      var n := |s| - 1;
      var prev := LatestTs(s[..n], ts);
      LatestTsAttained(s[..n], ts);
      if LatestTs(s, ts) == prev && prev.Some? {
        var i :| 0 <= i < n && ts(s[..n][i]) == prev;
        assert s[..n][i] == s[i];
      } else if LatestTs(s, ts).Some? {
        assert ts(s[n]) == LatestTs(s, ts);
      }
    }
  }

  lemma LatestTsAppend<T>(s: seq<T>, x: T, ts: T -> Option<int>)
    ensures LatestTs(s + [x], ts) == Later(LatestTs(s, ts), ts(x))
  {
    assert (s + [x])[..|s|] == s;
  }
}
