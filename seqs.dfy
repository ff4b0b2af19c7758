/** `Array.prototype.filter(...).length` and the sums the aggregations rely on. */
module Seqs {

  /** `s.filter(p)`: the elements satisfying `p`, in their original order. */
  function Filter<T(!new)>(s: seq<T>, p: T -> bool): (r: seq<T>)
    ensures |r| <= |s|
  {
    if s == [] then []
    else if p(s[0]) then [s[0]] + Filter(s[1..], p)
    else Filter(s[1..], p)
  }

  /** The filter keeps exactly the elements that satisfy the predicate, each no more often
      than it occurs in the input. */
  lemma {:induction false} FilterMembers<T(!new)>(s: seq<T>, p: T -> bool)
    ensures forall x :: x in Filter(s, p) <==> x in s && p(x)
    ensures multiset(Filter(s, p)) <= multiset(s)
    ensures forall x :: x in multiset(s) && p(x) ==> multiset(Filter(s, p))[x] == multiset(s)[x]
  {
    if s != [] {
      FilterMembers(s[1..], p);
      assert s == [s[0]] + s[1..];
    }
  }

  /** `s.filter(p).length` */
  function Count<T(!new)>(s: seq<T>, p: T -> bool): nat {
    |Filter(s, p)|
  }

  lemma {:induction false} FilterAppend<T(!new)>(a: seq<T>, b: seq<T>, p: T -> bool)
    ensures Filter(a + b, p) == Filter(a, p) + Filter(b, p)
  {
    if a == [] {
      assert a + b == b;
    } else {
      var ab := a + b;
      assert ab[0] == a[0] && ab[1..] == a[1..] + b;
      FilterAppend(a[1..], b, p);
      var head := if p(a[0]) then [a[0]] else [];
      assert Filter(ab, p) == head + Filter(a[1..] + b, p);
      assert Filter(a, p) == head + Filter(a[1..], p);
    }
  }

  /** Counting one more element adds one exactly when it satisfies the predicate. */
  lemma CountSnoc<T(!new)>(s: seq<T>, x: T, p: T -> bool)
    ensures Count(s + [x], p) == Count(s, p) + (if p(x) then 1 else 0)
  {
    FilterAppend(s, [x], p);
    assert Filter([x], p) == if p(x) then [x] else [];
  }

  /** A weaker predicate counts at least as many elements. */
  lemma {:induction false} CountMonotonic<T(!new)>(s: seq<T>, p: T -> bool, q: T -> bool)
    requires forall x :: p(x) ==> q(x)
    ensures Count(s, p) <= Count(s, q)
  {
    if s != [] {
      CountMonotonic(s[1..], p, q);
    }
  }

  /** Three predicates that split every element exactly one way split the count. */
  lemma {:induction false} CountPartition3<T(!new)>(s: seq<T>, p: T -> bool, q: T -> bool, r: T -> bool)
    requires forall x :: (if p(x) then 1 else 0) + (if q(x) then 1 else 0) + (if r(x) then 1 else 0) == 1
    ensures Count(s, p) + Count(s, q) + Count(s, r) == |s|
  {
    if s != [] {
      CountPartition3(s[1..], p, q, r);
    }
  }

  /** The sum of a sequence of naturals. */
  function Sum(s: seq<nat>): nat {
    if s == [] then 0 else s[0] + Sum(s[1..])
  }

  lemma {:induction false} SumAppend(a: seq<nat>, b: seq<nat>)
    ensures Sum(a + b) == Sum(a) + Sum(b)
  {
    if a == [] {
      assert a + b == b;
    } else {
      assert (a + b)[1..] == a[1..] + b;
      SumAppend(a[1..], b);
    }
  }

  /** The elements of `s` are pairwise different. */
  predicate Distinct<T(==)>(s: seq<T>) {
    forall i, j :: 0 <= i < j < |s| ==> s[i] != s[j]
  }

  /** An element of a sequence without repeats occurs in it at most once. */
  lemma {:induction false} DistinctOnce<T>(s: seq<T>, x: T)
    requires Distinct(s)
    ensures multiset(s)[x] <= 1
  {
    if s != [] {
      assert s == [s[0]] + s[1..];
      assert Distinct(s[1..]) by {
        forall i, j | 0 <= i < j < |s| - 1 ensures s[1..][i] != s[1..][j] {
          assert s[1..][i] == s[i + 1] && s[1..][j] == s[j + 1];
        }
      }
      DistinctOnce(s[1..], x);
      if x == s[0] {
        assert x !in s[1..] by {
          forall k | 0 <= k < |s| - 1 ensures s[1..][k] != x {
            assert s[1..][k] == s[k + 1];
          }
        }
      }
    }
  }

  /** An element at two positions occurs at least twice. */
  lemma {:induction false} RepeatedTwice<T>(s: seq<T>, i: nat, j: nat)
    requires i < j < |s| && s[i] == s[j]
    ensures multiset(s)[s[i]] >= 2
  {
    assert s == s[..j] + [s[j]] + s[j + 1..];
    assert s[..j][i] == s[i];
    assert s[i] in multiset(s[..j]);
  }

  /** A permutation of a sequence without repeats has none either. */
  lemma {:induction false} DistinctPermutation<T>(a: seq<T>, b: seq<T>)
    requires multiset(a) == multiset(b) && Distinct(b)
    ensures Distinct(a)
  {
    forall i, j | 0 <= i < j < |a| ensures a[i] != a[j] {
      DistinctOnce(b, a[i]);
      if a[i] == a[j] {
        RepeatedTwice(a, i, j);
      }
    }
  }

  /** `s.slice(0, n)` */
  function Take<T>(s: seq<T>, n: nat): (r: seq<T>)
    ensures |r| <= n && |r| <= |s|
    ensures r == s[..|r|]
    ensures |s| <= n ==> r == s
  {
    if |s| <= n then s else s[..n]
  }

  /** Two predicates that never hold together count their disjunction between them. */
  lemma {:induction false} CountDisjointUnion<T(!new)>(s: seq<T>, p: T -> bool, q: T -> bool, r: T -> bool)
    requires forall x :: r(x) == (p(x) || q(x))
    requires forall x :: !(p(x) && q(x))
    ensures Count(s, r) == Count(s, p) + Count(s, q)
  {
    if s != [] {
      CountDisjointUnion(s[1..], p, q, r);
    }
  }

  /** No element satisfies `p`: nothing is counted. */
  lemma {:induction false} CountNone<T(!new)>(s: seq<T>, p: T -> bool)
    requires forall x :: !p(x)
    ensures Count(s, p) == 0
  {
    if s != [] {
      CountNone(s[1..], p);
    }
  }

  // ---- A sort for `Array.prototype.sort` with a consistent comparator ----

  /** `le(a, b)`: `a` may stay in front of `b`, the comparator not asking to swap them. */
  ghost predicate TotalPreorder<T(!new)>(le: (T, T) -> bool) {
    && (forall a, b :: le(a, b) || le(b, a))
    && (forall a, b, c :: le(a, b) && le(b, c) ==> le(a, c))
  }

  predicate Sorted<T>(s: seq<T>, le: (T, T) -> bool) {
    forall i, j :: 0 <= i < j < |s| ==> le(s[i], s[j])
  }

  /** Puts `x` behind every element it need not precede. */
  function InsertBy<T(!new)>(x: T, s: seq<T>, le: (T, T) -> bool): (r: seq<T>)
    requires TotalPreorder(le) && Sorted(s, le)
    ensures Sorted(r, le)
    ensures multiset(r) == multiset(s) + multiset{x}
  {
    if s == [] then [x]
    else if le(s[0], x) then
      var rest := InsertBy(x, s[1..], le);
      BoundedInsert(s[0], x, s[1..], rest, le);
      SortedCons(s[0], rest, le);
      assert s == [s[0]] + s[1..];
      [s[0]] + rest
    else
      assert le(x, s[0]);
      SortedCons(x, s, le);
      [x] + s
  }

  /** A bound below `x` and below every element of `s` is below everything in their merge. */
  lemma BoundedInsert<T>(b: T, x: T, s: seq<T>, r: seq<T>, le: (T, T) -> bool)
    requires multiset(r) == multiset(s) + multiset{x}
    requires le(b, x) && forall i :: 0 <= i < |s| ==> le(b, s[i])
    ensures forall y :: y in r ==> le(b, y)
  {
    forall y | y in r ensures le(b, y) {
      assert y in multiset(r);
      if y != x {
        assert y in multiset(s);
        var j :| 0 <= j < |s| && s[j] == y;
      }
    }
  }

  /** An element below everything in a sorted sequence may go in front of it. */
  lemma SortedCons<T>(a: T, r: seq<T>, le: (T, T) -> bool)
    requires Sorted(r, le) && forall y :: y in r ==> le(a, y)
    ensures Sorted([a] + r, le)
  {
    var t := [a] + r;
    forall i, j | 0 <= i < j < |t| ensures le(t[i], t[j]) {
      assert t[j] == r[j - 1];
      if i > 0 {
        assert t[i] == r[i - 1];
      }
    }
  }

  /** Insertion sort: the elements in order, as a permutation of the input. */
  function SortBy<T(!new)>(s: seq<T>, le: (T, T) -> bool): (r: seq<T>)
    requires TotalPreorder(le)
    ensures Sorted(r, le)
    ensures multiset(r) == multiset(s)
    ensures |r| == |s|
  {
    if s == [] then []
    else
      var init := s[..|s| - 1];
      assert s == init + [s[|s| - 1]];
      var r := InsertBy(s[|s| - 1], SortBy(init, le), le);
      assert |r| == |multiset(r)| == |s|;
      r
  }

  // ---- Stability ----

  /** The elements the comparator cannot tell apart from `x`: neither asks to go behind the other. */
  function Tied<T>(le: (T, T) -> bool, x: T): T -> bool {
    (y: T) => le(x, y) && le(y, x)
  }

  /** Inserting `a` keeps the elements tied with any `x` in their order, with `a` behind them. */
  lemma {:induction false} InsertByStable<T(!new)>(a: T, s: seq<T>, le: (T, T) -> bool, x: T)
    requires TotalPreorder(le) && Sorted(s, le)
    ensures Filter(InsertBy(a, s, le), Tied(le, x)) == Filter(s, Tied(le, x)) + Filter([a], Tied(le, x))
  {
    if s == [] {
      assert InsertBy(a, s, le) == [a];
    } else if le(s[0], a) {
      InsertByBehind(a, s, le);
      InsertByStable(a, s[1..], le, x);
      ConsFilter(s[0], InsertBy(a, s[1..], le), s[1..], Filter([a], Tied(le, x)), Tied(le, x));
      assert s == [s[0]] + s[1..];
    } else {
      InsertInFront(a, s, le, x);
    }
  }

  /** Putting the same head in front of both sides keeps a filtered split. */
  lemma {:induction false} ConsFilter<T(!new)>(h: T, r: seq<T>, t: seq<T>, u: seq<T>, p: T -> bool)
    requires Filter(r, p) == Filter(t, p) + u
    ensures Filter([h] + r, p) == Filter([h] + t, p) + u
  {
    FilterAppend([h], r, p);
    FilterAppend([h], t, p);
  }

  lemma {:induction false} InsertByBehind<T(!new)>(a: T, s: seq<T>, le: (T, T) -> bool)
    requires TotalPreorder(le) && Sorted(s, le) && s != [] && le(s[0], a)
    ensures Sorted(s[1..], le) && InsertBy(a, s, le) == [s[0]] + InsertBy(a, s[1..], le)
  {
    SortedTail(s, le);
  }

  /** The step of `InsertByStable` where `a` goes in front. */
  lemma {:induction false} InsertInFront<T(!new)>(a: T, s: seq<T>, le: (T, T) -> bool, x: T)
    requires TotalPreorder(le) && Sorted(s, le) && s != [] && !le(s[0], a)
    ensures Filter(InsertBy(a, s, le), Tied(le, x)) == Filter(s, Tied(le, x)) + Filter([a], Tied(le, x))
  {
    var p := Tied(le, x);
    assert InsertBy(a, s, le) == [a] + s;
    FilterAppend([a], s, p);
    if p(a) {
      NoTiesBehindLarger(a, s, le, x);
    }
  }

  lemma {:induction false} SortedTail<T>(s: seq<T>, le: (T, T) -> bool)
    requires Sorted(s, le) && s != []
    ensures Sorted(s[1..], le)
  {
    forall i, j | 0 <= i < j < |s| - 1 ensures le(s[1..][i], s[1..][j]) {
      assert s[1..][i] == s[i + 1] && s[1..][j] == s[j + 1];
    }
  }

  /** An element tied with `x` that must precede the head of a sorted sequence leaves nothing in
      the sequence tied with `x`. */
  lemma {:induction false} NoTiesBehindLarger<T(!new)>(a: T, s: seq<T>, le: (T, T) -> bool, x: T)
    requires TotalPreorder(le) && Sorted(s, le) && s != []
    requires !le(s[0], a) && Tied(le, x)(a)
    ensures Filter(s, Tied(le, x)) == []
  {
    var p := Tied(le, x);
    forall y | y in s ensures !p(y) {
      var j :| 0 <= j < |s| && s[j] == y;
      assert le(s[0], y);
    }
    FilterNone(s, p);
  }

  /** Nothing in `s` satisfies `p`: the filter is empty. */
  lemma {:induction false} FilterNone<T(!new)>(s: seq<T>, p: T -> bool)
    requires forall y :: y in s ==> !p(y)
    ensures Filter(s, p) == []
  {
    if s != [] {
      assert s[0] in s;
      FilterNone(s[1..], p);
    }
  }


  /** `SortBy` is stable: elements the comparator ties keep their order in the input. */
  lemma {:induction false} SortByStable<T(!new)>(s: seq<T>, le: (T, T) -> bool, x: T)
    requires TotalPreorder(le)
    ensures Filter(SortBy(s, le), Tied(le, x)) == Filter(s, Tied(le, x))
  {
    if s != [] {
      var init, last := s[..|s| - 1], s[|s| - 1];
      assert s == init + [last];
      SortByStable(init, le, x);
      InsertByStable(last, SortBy(init, le), le, x);
      FilterAppend(init, [last], Tied(le, x));
    }
  }

  /** A prefix keeps a prefix of the elements any predicate selects. */
  lemma {:induction false} FilterPrefix<T(!new)>(s: seq<T>, n: nat, p: T -> bool)
    requires n <= |s|
    ensures |Filter(s[..n], p)| <= |Filter(s, p)|
      && Filter(s[..n], p) == Filter(s, p)[..|Filter(s[..n], p)|]
  {
    assert s == s[..n] + s[n..];
    FilterAppend(s[..n], s[n..], p);
  }
}
