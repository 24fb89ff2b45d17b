/** Sequence helpers shared by the views: the JavaScript array operations `filter`,
    `flatMap` and `slice(0, n)` on immutable sequences, and the first position of an
    element, which specifies what `find` returns and the order keys are inserted in. */
module Seqs {

  /** Position of the first occurrence of `x` in `s`. */
  function FirstIndex<T(==)>(s: seq<T>, x: T): (i: nat)
    requires x in s
    ensures i < |s| && s[i] == x
    ensures forall j :: 0 <= j < i ==> s[j] != x
  {
    if s[0] == x then 0 else 1 + FirstIndex(s[1..], x)
  }

  /** The first occurrence is the only position with no earlier occurrence. */
  lemma FirstIndexUnique<T>(s: seq<T>, x: T, i: nat)
    requires i < |s| && s[i] == x
    requires forall j :: 0 <= j < i ==> s[j] != x
    ensures FirstIndex(s, x) == i
  {
  }

  /** Appending never moves the first occurrence of an element already present. */
  lemma FirstIndexAppend<T>(s: seq<T>, y: T)
    ensures forall x :: x in s ==> FirstIndex(s + [y], x) == FirstIndex(s, x)
  {
    forall x | x in s
      ensures FirstIndex(s + [y], x) == FirstIndex(s, x)
    {
      FirstIndexUnique(s + [y], x, FirstIndex(s, x));
    }
  }

  /** Appending an element not yet present puts its first occurrence at the end. */
  lemma FirstIndexAppendNew<T>(s: seq<T>, y: T)
    requires y !in s
    ensures FirstIndex(s + [y], y) == |s|
  {
    FirstIndexUnique(s + [y], y, |s|);
  }

  /** How many times `x` occurs in `s`. */
  function Occurrences<T(==)>(s: seq<T>, x: T): nat
  {
    multiset(s)[x]
  }

  /** `s.filter(p)`. */
  function Filter<T(==,!new)>(s: seq<T>, p: T -> bool): (r: seq<T>)
    ensures |r| <= |s|
    ensures forall i :: 0 <= i < |r| ==> r[i] in s && p(r[i])
    ensures forall i :: 0 <= i < |s| && p(s[i]) ==> s[i] in r
    ensures forall x {:trigger Occurrences(r, x)} :: Occurrences(r, x) == if p(x) then Occurrences(s, x) else 0
  {
    if |s| == 0 then []
    else
      var head, t := if p(s[0]) then [s[0]] else [], Filter(s[1..], p);
      FilterStepCounts(s, p, head, t);
      head + t
  }

  /** One step of `Filter`: keeping or dropping the head keeps every count right. */
  lemma FilterStepCounts<T(!new)>(s: seq<T>, p: T -> bool, head: seq<T>, t: seq<T>)
    requires |s| > 0 && head == if p(s[0]) then [s[0]] else []
    requires forall x {:trigger Occurrences(t, x)} ::
               Occurrences(t, x) == if p(x) then Occurrences(s[1..], x) else 0
    ensures forall x {:trigger Occurrences(head + t, x)} ::
              Occurrences(head + t, x) == if p(x) then Occurrences(s, x) else 0
  {
    assert s == [s[0]] + s[1..];
    forall x ensures Occurrences(head + t, x) == if p(x) then Occurrences(s, x) else 0 {
      assert multiset(head + t) == multiset(head) + multiset(t);
      assert multiset(s) == multiset([s[0]]) + multiset(s[1..]);
      assert Occurrences(t, x) == if p(x) then Occurrences(s[1..], x) else 0;
    }
  }

  /** Filtering a one-element sequence keeps it exactly when the predicate holds. */
  lemma FilterSingleton<T(!new)>(x: T, p: T -> bool)
    ensures Filter([x], p) == if p(x) then [x] else []
  {
  }

  /** Filtering distributes over concatenation: what is kept from the front comes
      before what is kept from the back, so the filter keeps its input's order, repeats
      included. */
  lemma {:induction false} FilterAppend<T(!new)>(a: seq<T>, b: seq<T>, p: T -> bool)
    ensures Filter(a + b, p) == Filter(a, p) + Filter(b, p)
  {
    if |a| == 0 {
      assert a + b == b;
    } else {
      assert (a + b)[0] == a[0];
      assert (a + b)[1..] == a[1..] + b;
      FilterAppend(a[1..], b, p);
    }
  }

  /** No two elements of `s` share a key. */
  predicate DistinctBy<T, K(==)>(s: seq<T>, key: T -> K)
  {
    forall i, j :: 0 <= i < j < |s| ==> key(s[i]) != key(s[j])
  }

  /** Every pair of elements of `s`, in sequence order, is related by `rel`. */
  ghost predicate Chained<T>(s: seq<T>, rel: (T, T) -> bool)
  {
    forall i, j :: 0 <= i < j < |s| ==> rel(s[i], s[j])
  }

  /** A filter keeps the relative order of what it keeps: a relation that holds between
      every earlier and later element still holds after filtering. */
  lemma {:induction false} FilterKeepsChained<T(!new)>(s: seq<T>, p: T -> bool, rel: (T, T) -> bool)
    requires Chained(s, rel)
    ensures Chained(Filter(s, p), rel)
  {
    if |s| > 0 {
      assert Chained(s[1..], rel) by {
        forall i, j | 0 <= i < j < |s[1..]| ensures rel(s[1..][i], s[1..][j]) {
          assert s[1..][i] == s[i + 1] && s[1..][j] == s[j + 1];
        }
      }
      FilterKeepsChained(s[1..], p, rel);
      var t := Filter(s[1..], p);
      var r := Filter(s, p);
      if p(s[0]) {
        assert r == [s[0]] + t;
        forall i, j | 0 <= i < j < |r|
          ensures rel(r[i], r[j])
        {
          if i == 0 {
            assert r[j] in s[1..];
            var k :| 0 <= k < |s[1..]| && s[1..][k] == r[j];
            assert s[k + 1] == r[j];
          } else {
            assert r[i] == t[i - 1] && r[j] == t[j - 1];
          }
        }
      } else {
        assert r == t;
      }
    }
  }

  /** Two filters in a row keep what satisfies both predicates, in order. */
  lemma {:induction false} FilterFilter<T(!new)>(s: seq<T>, p: T -> bool, q: T -> bool, both: T -> bool)
    requires forall x :: both(x) == (p(x) && q(x))
    ensures Filter(Filter(s, p), q) == Filter(s, both)
  {
    if |s| > 0 {
      FilterFilter(s[1..], p, q, both);
      var f := Filter(s, p);
      if p(s[0]) {
        assert f == [s[0]] + Filter(s[1..], p);
        assert f[1..] == Filter(s[1..], p);
      } else {
        assert f == Filter(s[1..], p);
      }
    }
  }

  /** Filtering with a predicate that holds everywhere returns the sequence unchanged. */
  lemma {:induction false} FilterAllTrue<T(!new)>(s: seq<T>, p: T -> bool)
    requires forall x :: x in s ==> p(x)
    ensures Filter(s, p) == s
  {
    if |s| > 0 {
      FilterAllTrue(s[1..], p);
    }
  }

  /** `s.slice(0, n)`: the first `n` elements, or all of them when there are fewer. */
  function Take<T>(s: seq<T>, n: nat): (r: seq<T>)
    ensures |r| == if |s| < n then |s| else n
    ensures forall i :: 0 <= i < |r| ==> r[i] == s[i]
  {
    if |s| <= n then s else s[..n]
  }

  /** `s.flatMap(f)`: the concatenation of `f` of every element, in order. */
  function FlatMap<A, B>(s: seq<A>, f: A -> seq<B>): (r: seq<B>)
  {
    if |s| == 0 then [] else f(s[0]) + FlatMap(s[1..], f)
  }

  /** An element of a flat map comes from the image of some element, and every image
      element appears. */
  lemma {:induction false} FlatMapMember<A, B>(s: seq<A>, f: A -> seq<B>, y: B)
    ensures y in FlatMap(s, f) <==> exists i :: 0 <= i < |s| && y in f(s[i])
  {
    if |s| > 0 {
      FlatMapMember(s[1..], f, y);
      if y in FlatMap(s[1..], f) {
        var i :| 0 <= i < |s[1..]| && y in f(s[1..][i]);
        assert y in f(s[i + 1]);
      }
      if exists i :: 0 <= i < |s| && y in f(s[i]) {
        var i :| 0 <= i < |s| && y in f(s[i]);
        if i > 0 {
          assert y in f(s[1..][i - 1]);
        }
      }
    }
  }

  lemma {:induction false} FlatMapAppend<A, B>(a: seq<A>, b: seq<A>, f: A -> seq<B>)
    ensures FlatMap(a + b, f) == FlatMap(a, f) + FlatMap(b, f)
  {
    if |a| > 0 {
      assert (a + b)[1..] == a[1..] + b;
      FlatMapAppend(a[1..], b, f);
    } else {
      assert a + b == b;
    }
  }

  /** Removing an element whose image is empty leaves the flat map unchanged. */
  lemma FlatMapSkipsEmpty<A, B>(s: seq<A>, f: A -> seq<B>, i: nat)
    requires i < |s| && f(s[i]) == []
    ensures FlatMap(s[..i] + s[i + 1..], f) == FlatMap(s, f)
  {
    var a, b, c := s[..i], s[i..], s[i + 1..];
    FlatMapAppend(a, c, f);
    FlatMapAppend(a, b, f);
    assert s == a + b;
    assert b[0] == s[i] && b[1..] == c;
    assert FlatMap(b, f) == f(s[i]) + FlatMap(c, f);
    assert FlatMap(b, f) == FlatMap(c, f);
  }
}
