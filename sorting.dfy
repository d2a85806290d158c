/**
 * The stable sort that `[...xs].sort(cmp)` performs (ECMAScript requires
 * `Array.prototype.sort` to be stable). `le(a, b)` stands for `cmp(a, b) <= 0`.
 * The sort is modelled as insertion sort: a definition of the result, not
 * of the engine's algorithm.
 */
module Sorting {
  import opened Seqs

  ghost predicate TotalPreorder<T(!new)>(le: (T, T) -> bool) {
    && (forall a, b :: le(a, b) || le(b, a))
    && (forall a, b, c :: le(a, b) && le(b, c) ==> le(a, c))
  }

  /** Every earlier element is `le` every later one. */
  ghost predicate Sorted<T>(s: seq<T>, le: (T, T) -> bool) {
    forall i, j :: 0 <= i < j < |s| ==> le(s[i], s[j])
  }

  /** The elements that compare as equal to `x` (comparator result 0). */
  function Ties<T>(le: (T, T) -> bool, x: T): T -> bool {
    y => le(x, y) && le(y, x)
  }

  /** Places `x` in front of the first element it is `le`. */
  function Insert<T>(x: T, s: seq<T>, le: (T, T) -> bool): (r: seq<T>)
    ensures multiset(r) == multiset(s) + multiset{x}
  {
    if s == [] then [x]
    else if le(x, s[0]) then [x] + s
    else
      assert s == [s[0]] + s[1..];
      [s[0]] + Insert(x, s[1..], le)
  }

  function SortBy<T>(s: seq<T>, le: (T, T) -> bool): (r: seq<T>)
    ensures multiset(r) == multiset(s)
  {
    if s == [] then []
    else
      assert s == [s[0]] + s[1..];
      Insert(s[0], SortBy(s[1..], le), le)
  }

  lemma {:induction false} InsertSorted<T(!new)>(x: T, s: seq<T>, le: (T, T) -> bool)
    requires TotalPreorder(le) && Sorted(s, le)
    ensures Sorted(Insert(x, s, le), le)
  {
    if s != [] && !le(x, s[0]) {
      InsertSorted(x, s[1..], le);
      var r := Insert(x, s, le);
      var t := Insert(x, s[1..], le);
      assert r == [s[0]] + t;
      // s[0] comes before every element of t: those are x and the rest of s.
      forall j | 0 <= j < |t| ensures le(s[0], t[j]) {
        assert t[j] in multiset(t);
        assert t[j] in multiset(s[1..]) || t[j] == x;
        if t[j] != x {
          var k :| 0 <= k < |s[1..]| && s[1..][k] == t[j];
          assert s[k + 1] == t[j];
        }
      }
    }
  }

  lemma {:induction false} SortBySorted<T(!new)>(s: seq<T>, le: (T, T) -> bool)
    requires TotalPreorder(le)
    ensures Sorted(SortBy(s, le), le)
  {
    if s != [] {
      SortBySorted(s[1..], le);
      InsertSorted(s[0], SortBy(s[1..], le), le);
    }
  }

  /** Inserting `x` never moves it past an element that ties with it. */
  lemma {:induction false} InsertStable<T(!new)>(x: T, s: seq<T>, le: (T, T) -> bool, e: T)
    requires TotalPreorder(le)
    ensures Filter(Insert(x, s, le), Ties(le, e)) == Filter([x] + s, Ties(le, e))
  {
    var p := Ties(le, e);
    if s != [] && !le(x, s[0]) {
      InsertStable(x, s[1..], le, e);
      assert Insert(x, s, le)[1..] == Insert(x, s[1..], le);
      assert ([x] + s)[1..] == s;
      assert ([x] + s[1..])[1..] == s[1..];
      // s[0] is strictly smaller than x, so it cannot tie with e when x does.
      assert p(x) ==> !p(s[0]);
      assert s == [s[0]] + s[1..];
    }
  }

  /** Stability: among elements that tie, the sorted list keeps the input order. */
  lemma {:induction false} SortByStable<T(!new)>(s: seq<T>, le: (T, T) -> bool, e: T)
    requires TotalPreorder(le)
    ensures Filter(SortBy(s, le), Ties(le, e)) == Filter(s, Ties(le, e))
  {
    if s != [] {
      SortByStable(s[1..], le, e);
      InsertStable(s[0], SortBy(s[1..], le), le, e);
      FilterConcat([s[0]], SortBy(s[1..], le), Ties(le, e));
      FilterConcat([s[0]], s[1..], Ties(le, e));
      assert [s[0]] + s[1..] == s;
    }
  }
}
