/**
 * `Array.prototype.filter` on sequences, and the order-preserving
 * sub-list relation it produces.
 */
module Seqs {

  /** The elements of `s` that satisfy `p`, in their original order. */
  function Filter<T(==)>(s: seq<T>, p: T -> bool): (r: seq<T>)
    ensures |r| <= |s|
    ensures forall i :: 0 <= i < |r| ==> r[i] in s && p(r[i])
    ensures forall i :: 0 <= i < |s| && p(s[i]) ==> s[i] in r
  {
    if s == [] then [] else (if p(s[0]) then [s[0]] else []) + Filter(s[1..], p)
  }

  /** Filtering a non-empty list: its head counts once if it passes. */
  lemma FilterLengthCons<T>(s: seq<T>, p: T -> bool)
    requires s != []
    ensures |Filter(s, p)| == (if p(s[0]) then 1 else 0) + |Filter(s[1..], p)|
  {
  }

  /** A left fold from `acc` that adds one for each element satisfying `p`
      (the shape of `reduce((n, x) => n + (p(x) ? 1 : 0), acc)`). */
  function CountWhere<T>(acc: nat, s: seq<T>, p: T -> bool): nat
    decreases |s|
  {
    if s == [] then acc else CountWhere(acc + (if p(s[0]) then 1 else 0), s[1..], p)
  }

  /** The fold counts exactly the elements the filter keeps. */
  lemma {:induction false} CountWhereIsFilterLength<T>(acc: nat, s: seq<T>, p: T -> bool)
    ensures CountWhere(acc, s, p) == acc + |Filter(s, p)|
    decreases |s|
  {
    if s != [] {
      CountWhereIsFilterLength(acc + (if p(s[0]) then 1 else 0), s[1..], p);
      FilterLengthCons(s, p);
    }
  }

  /** Two lists of equal length whose elements pass their tests at the same
      positions keep equally many elements. */
  lemma {:induction false} FilterLengthAcross<S, T>(xs: seq<S>, ys: seq<T>, q: S -> bool, p: T -> bool)
    requires |xs| == |ys|
    requires forall i :: 0 <= i < |xs| ==> q(xs[i]) == p(ys[i])
    ensures |Filter(xs, q)| == |Filter(ys, p)|
    decreases |xs|
  {
    if xs != [] {
      FilterLengthAcross(xs[1..], ys[1..], q, p);
      FilterLengthCons(xs, q);
      FilterLengthCons(ys, p);
    }
  }

  /** `Array.prototype.some`: some element satisfies `p`. */
  function Any<T>(s: seq<T>, p: T -> bool): (r: bool)
    ensures r <==> exists i :: 0 <= i < |s| && p(s[i])
  {
    if s == [] then false
    else
      var rest := Any(s[1..], p);
      assert rest <==> exists i :: 1 <= i < |s| && p(s[i]) by {
        if rest {
          var j :| 0 <= j < |s[1..]| && p(s[1..][j]);
          assert p(s[j + 1]);
        }
        if exists i :: 1 <= i < |s| && p(s[i]) {
          var i :| 1 <= i < |s| && p(s[i]);
          assert s[1..][i - 1] == s[i];
        }
      }
      p(s[0]) || rest
  }

  /** `a` is obtained from `b` by deleting elements, keeping the order of the rest. */
  predicate IsSubsequence<T(==)>(a: seq<T>, b: seq<T>)
    decreases |b|
  {
    a == [] || (b != [] && ((a[0] == b[0] && IsSubsequence(a[1..], b[1..])) || IsSubsequence(a, b[1..])))
  }

  lemma {:induction false} FilterIsSubsequence<T>(s: seq<T>, p: T -> bool)
    ensures IsSubsequence(Filter(s, p), s)
  {
    if s != [] {
      FilterIsSubsequence(s[1..], p);
      var r := Filter(s, p);
      if p(s[0]) {
        assert r == [s[0]] + Filter(s[1..], p);
        assert r[0] == s[0] && r[1..] == Filter(s[1..], p);
      } else {
        assert r == Filter(s[1..], p);
      }
    }
  }

  /** Filtering keeps everything when every element passes. */
  lemma {:induction false} FilterAll<T>(s: seq<T>, p: T -> bool)
    requires forall i :: 0 <= i < |s| ==> p(s[i])
    ensures Filter(s, p) == s
  {
    if s != [] {
      FilterAll(s[1..], p);
      assert [s[0]] + s[1..] == s;
    }
  }

  /** Filtering keeps nothing when no element passes. */
  lemma {:induction false} FilterNone<T>(s: seq<T>, p: T -> bool)
    requires forall i :: 0 <= i < |s| ==> !p(s[i])
    ensures Filter(s, p) == []
  {
    if s != [] { FilterNone(s[1..], p); }
  }

  /** Filtering with two tests that agree on the elements gives the same list. */
  lemma {:induction false} FilterExt<T>(s: seq<T>, p: T -> bool, q: T -> bool)
    requires forall i :: 0 <= i < |s| ==> p(s[i]) == q(s[i])
    ensures Filter(s, p) == Filter(s, q)
  {
    if s != [] { FilterExt(s[1..], p, q); }
  }

  lemma {:induction false} FilterConcat<T>(a: seq<T>, b: seq<T>, p: T -> bool)
    ensures Filter(a + b, p) == Filter(a, p) + Filter(b, p)
  {
    if a == [] {
      assert a + b == b;
    } else {
      assert (a + b)[1..] == a[1..] + b;
      FilterConcat(a[1..], b, p);
    }
  }

  /** Filtering out an element that fails the test makes the list shorter. */
  lemma {:induction false} FilterShrinks<T>(s: seq<T>, p: T -> bool, i: nat)
    requires i < |s| && !p(s[i])
    ensures |Filter(s, p)| < |s|
  {
    if i > 0 {
      FilterShrinks(s[1..], p, i - 1);
    }
  }
}
