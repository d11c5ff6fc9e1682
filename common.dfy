/**
 * Shared vocabulary: an optional value (JavaScript's null/undefined), and the
 * array operations the code base leans on (`filter`, `indexOf`, `splice`,
 * `includes`, `new Set(...)`), stated once with their contracts.
 */
module Common {

  /** A value that may be absent (JavaScript `null` or `undefined`). */
  datatype Option<+T> = None | Some(value: T) {
    function GetOr(default: T): T {
      match this
      case Some(v) => v
      case None => default
    }
  }

  /** `Array.prototype.filter`: the elements satisfying `p`, in their original order. */
  function Filter<T>(s: seq<T>, p: T -> bool): (r: seq<T>)
    ensures |r| <= |s|
    ensures forall i :: 0 <= i < |r| ==> r[i] in s && p(r[i])
    ensures forall i :: 0 <= i < |s| && p(s[i]) ==> s[i] in r
    decreases |s|
  {
    if s == [] then []
    else (if p(s[0]) then [s[0]] else []) + Filter(s[1..], p)
  }

  /** The positions `filter` keeps, in increasing order: exactly those whose element satisfies `p`. */
  function KeptPositions<T>(s: seq<T>, p: T -> bool): (idx: seq<nat>)
    ensures forall k :: 0 <= k < |idx| ==> idx[k] < |s| && p(s[idx[k]])
    ensures forall k, l :: 0 <= k < l < |idx| ==> idx[k] < idx[l]
    ensures forall i :: 0 <= i < |s| ==> (p(s[i]) <==> i in idx)
    decreases |s|
  {
    if s == [] then []
    else
      var n := |s| - 1;
      KeptPositions(s[..n], p) + (if p(s[n]) then [n] else [])
  }

  /** `r` is the elements of `s` at the positions whose element satisfies `p`, once each, in increasing position order. */
  predicate KeptInOrder<T(==)>(r: seq<T>, s: seq<T>, p: T -> bool) {
    |r| == |KeptPositions(s, p)| && forall k :: 0 <= k < |r| ==> r[k] == s[KeptPositions(s, p)[k]]
  }

  /**
   * `filter` keeps order and multiplicity: its result is the elements at the kept positions,
   * one for each position, in increasing position order.
   */
  lemma {:induction false} FilterIsKept<T>(s: seq<T>, p: T -> bool)
    ensures |Filter(s, p)| == |KeptPositions(s, p)|
    ensures forall k :: 0 <= k < |Filter(s, p)| ==> Filter(s, p)[k] == s[KeptPositions(s, p)[k]]
    ensures KeptInOrder(Filter(s, p), s, p)
    decreases |s|
  {
    if s != [] {
      var n := |s| - 1;
      var front := s[..n];
      var last := if p(s[n]) then [s[n]] else [];
      assert s == front + [s[n]];
      FilterConcat(front, [s[n]], p);
      assert [s[n]][1..] == [];
      assert Filter(s, p) == Filter(front, p) + last;
      FilterIsKept(front, p);
      var kept := KeptPositions(front, p);
      assert KeptPositions(s, p) == kept + (if p(s[n]) then [n] else []);
      forall k | 0 <= k < |Filter(s, p)|
        ensures Filter(s, p)[k] == s[KeptPositions(s, p)[k]]
      {
        if k < |kept| {
          assert Filter(s, p)[k] == Filter(front, p)[k] == front[kept[k]];
        }
      }
    }
  }

  lemma {:induction false} FilterConcat<T>(a: seq<T>, b: seq<T>, p: T -> bool)
    ensures Filter(a + b, p) == Filter(a, p) + Filter(b, p)
    decreases |a|
  {
    if a == [] {
      assert a + b == b;
    } else {
      assert (a + b)[1..] == a[1..] + b;
      FilterConcat(a[1..], b, p);
    }
  }

  /** Filtering keeps everything exactly when every element passes. */
  lemma {:induction false} FilterAll<T>(s: seq<T>, p: T -> bool)
    ensures Filter(s, p) == s <==> forall i :: 0 <= i < |s| ==> p(s[i])
    decreases |s|
  {
    if s != [] {
      FilterAll(s[1..], p);
      if !p(s[0]) {
        assert |Filter(s, p)| < |s|;
      }
    }
  }

  /** Filtering by two tests that agree on every element gives the same result. */
  lemma {:induction false} FilterAgrees<T>(s: seq<T>, p: T -> bool, q: T -> bool)
    requires forall i :: 0 <= i < |s| ==> p(s[i]) == q(s[i])
    ensures Filter(s, p) == Filter(s, q)
    decreases |s|
  {
    if s != [] {
      FilterAgrees(s[1..], p, q);
    }
  }

  /** Filtering keeps nothing when no element passes. */
  lemma {:induction false} FilterNone<T>(s: seq<T>, p: T -> bool)
    requires forall i :: 0 <= i < |s| ==> !p(s[i])
    ensures Filter(s, p) == []
    decreases |s|
  {
    if s != [] {
      FilterNone(s[1..], p);
    }
  }

  /** A filtered sequence is a sub-multiset of the original. */
  lemma {:induction false} FilterMultiset<T>(s: seq<T>, p: T -> bool)
    ensures multiset(Filter(s, p)) <= multiset(s)
    decreases |s|
  {
    if s != [] {
      FilterMultiset(s[1..], p);
      assert s == [s[0]] + s[1..];
    }
  }

  /** Number of elements equal to `x`. */
  function Count<T(==)>(s: seq<T>, x: T): (n: nat)
    ensures n <= |s|
    ensures n == 0 <==> x !in s
    decreases |s|
  {
    if s == [] then 0 else (if s[0] == x then 1 else 0) + Count(s[1..], x)
  }

  predicate Distinct<T(==)>(s: seq<T>) {
    forall i, j :: 0 <= i < j < |s| ==> s[i] != s[j]
  }

  /** `Array.prototype.indexOf`: the first position of `x`, or -1. */
  function IndexOf<T(==)>(s: seq<T>, x: T): (i: int)
    ensures -1 <= i < |s|
    ensures i == -1 <==> x !in s
    ensures 0 <= i ==> s[i] == x && x !in s[..i]
    decreases |s|
  {
    if s == [] then -1
    else if s[0] == x then 0
    else
      var j := IndexOf(s[1..], x);
      assert j >= 0 ==> s[..j + 1] == [s[0]] + s[1..][..j];
      if j == -1 then -1 else j + 1
  }

  /** `splice(indexOf(x), 1)` guarded by `indexOf > -1`: drop the first `x`, if any. */
  function RemoveFirst<T(==)>(s: seq<T>, x: T): (r: seq<T>)
    ensures x !in s ==> r == s
    ensures x in s ==> r == s[..IndexOf(s, x)] + s[IndexOf(s, x) + 1..]
  {
    var i := IndexOf(s, x);
    if i == -1 then s else s[..i] + s[i + 1..]
  }

  /** Removing the first occurrence lowers the count of `x` by one and keeps every other count. */
  lemma RemoveFirstCounts<T>(s: seq<T>, x: T)
    ensures multiset(RemoveFirst(s, x)) == multiset(s) - multiset{x}
  {
    var i := IndexOf(s, x);
    if i != -1 {
      var before, after := s[..i], s[i + 1..];
      assert s == before + [x] + after;
      assert multiset(s) == multiset(before) + multiset{x} + multiset(after);
      assert RemoveFirst(s, x) == before + after;
      assert multiset(before + after) == multiset(before) + multiset(after);
    } else {
      assert multiset(s)[x] == 0;
    }
  }

  /** The elements in order of first appearance, without repetitions (iteration order of `new Set(s)`). */
  function Dedup<T(==)>(s: seq<T>): (r: seq<T>)
    ensures Distinct(r)
    ensures forall i :: 0 <= i < |r| ==> r[i] in s
    ensures forall i :: 0 <= i < |s| ==> s[i] in r
    ensures |r| <= |s|
    decreases |s|
  {
    if s == [] then []
    else
      var d := Dedup(s[..|s| - 1]);
      var last := s[|s| - 1];
      assert s == s[..|s| - 1] + [last];
      if last in d then d else d + [last]
  }

  /** `Dedup` lists the values in the order in which they first occur. */
  lemma {:induction false} DedupFirstSeenOrder<T>(s: seq<T>, i: nat, j: nat)
    requires i < j < |Dedup(s)|
    ensures IndexOf(s, Dedup(s)[i]) < IndexOf(s, Dedup(s)[j])
    decreases |s|
  {
    var init := s[..|s| - 1];
    var d := Dedup(init);
    var last := s[|s| - 1];
    assert s == init + [last];
    forall y | y in init ensures IndexOf(s, y) == IndexOf(init, y) {
      PrefixIndexOf(init, [last], y);
    }
    if last in d {
      DedupFirstSeenOrder(init, i, j);
    } else if j < |d| {
      DedupFirstSeenOrder(init, i, j);
    } else {
      assert Dedup(s)[j] == last && last !in init;
      assert IndexOf(s, last) == |s| - 1;
    }
  }

  lemma {:induction false} PrefixIndexOf<T>(a: seq<T>, b: seq<T>, y: T)
    requires y in a
    ensures IndexOf(a + b, y) == IndexOf(a, y)
    decreases |a|
  {
    if a[0] != y {
      assert (a + b)[1..] == a[1..] + b;
      PrefixIndexOf(a[1..], b, y);
    }
  }

  /** Σ over `u` of the number of occurrences in `s`. */
  function SumCounts<T(==)>(u: seq<T>, s: seq<T>): nat
    decreases |u|
  {
    if u == [] then 0 else Count(s, u[0]) + SumCounts(u[1..], s)
  }

  lemma {:induction false} SumCountsCons<T>(u: seq<T>, x: T, rest: seq<T>)
    ensures SumCounts(u, [x] + rest) == Count(u, x) + SumCounts(u, rest)
    decreases |u|
  {
    if u != [] {
      assert ([x] + rest)[1..] == rest;
      SumCountsCons(u[1..], x, rest);
    }
  }

  lemma {:induction false} CountInDistinct<T>(u: seq<T>, x: T)
    requires Distinct(u) && x in u
    ensures Count(u, x) == 1
    decreases |u|
  {
    if u[0] == x {
      assert x !in u[1..];
    } else {
      CountInDistinct(u[1..], x);
    }
  }

  /** Counting every value of a duplicate-free cover of `s` counts every element of `s` once. */
  lemma {:induction false} SumCountsCover<T>(u: seq<T>, s: seq<T>)
    requires Distinct(u)
    requires forall i :: 0 <= i < |s| ==> s[i] in u
    ensures SumCounts(u, s) == |s|
    decreases |s|
  {
    if s == [] {
      SumCountsEmpty(u);
    } else {
      assert s == [s[0]] + s[1..];
      SumCountsCons(u, s[0], s[1..]);
      CountInDistinct(u, s[0]);
      SumCountsCover(u, s[1..]);
    }
  }

  lemma {:induction false} SumCountsEmpty<T>(u: seq<T>)
    ensures SumCounts(u, []) == 0
    decreases |u|
  {
    if u != [] {
      SumCountsEmpty(u[1..]);
    }
  }

  /** Appending one element adds one to its own count and leaves the other counts alone. */
  lemma {:induction false} CountAppend<T>(s: seq<T>, x: T, y: T)
    ensures Count(s + [x], y) == Count(s, y) + (if x == y then 1 else 0)
    decreases |s|
  {
    if s == [] {
      assert [x][1..] == [];
    } else {
      assert (s + [x])[1..] == s[1..] + [x];
      CountAppend(s[1..], x, y);
    }
  }

  /** Filtering a duplicate-free sequence keeps it duplicate-free. */
  lemma {:induction false} FilterDistinct<T>(s: seq<T>, p: T -> bool)
    requires Distinct(s)
    ensures Distinct(Filter(s, p))
    decreases |s|
  {
    if s != [] {
      FilterDistinct(s[1..], p);
      assert s[0] !in s[1..];
    }
  }

  /** The tail of a duplicate-free sequence is duplicate-free and does not hold the head. */
  lemma DistinctCons<T>(s: seq<T>)
    requires s != [] && Distinct(s)
    ensures Distinct(s[1..]) && s[0] !in s[1..]
  {
    var tail := s[1..];
    forall i, j | 0 <= i < j < |tail| ensures tail[i] != tail[j] {
      assert tail[i] == s[i + 1] && tail[j] == s[j + 1];
    }
    forall j | 0 <= j < |tail| ensures tail[j] != s[0] {
      assert tail[j] == s[j + 1];
    }
  }

  /** A sequence whose elements a function maps back to a duplicate-free sequence is itself duplicate-free. */
  lemma LeftInverseDistinct<A, B>(xs: seq<A>, ys: seq<B>, g: B -> A)
    requires |xs| == |ys| && Distinct(xs)
    requires forall i :: 0 <= i < |ys| ==> g(ys[i]) == xs[i]
    ensures Distinct(ys)
  {
    forall i, j | 0 <= i < j < |ys| ensures ys[i] != ys[j] {
      assert g(ys[i]) != g(ys[j]);
    }
  }

  /** Two duplicate-free sequences with no value in common concatenate to a duplicate-free one. */
  lemma DistinctConcat<T>(a: seq<T>, b: seq<T>)
    requires Distinct(a) && Distinct(b)
    requires forall i :: 0 <= i < |b| ==> b[i] !in a
    ensures Distinct(a + b)
  {
    forall i, j | 0 <= i < j < |a + b| ensures (a + b)[i] != (a + b)[j] {
      if j >= |a| && i < |a| {
        assert (a + b)[j] == b[j - |a|];
      }
    }
  }
}
