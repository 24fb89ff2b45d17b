/** `Array.prototype.sort` with a comparator `(a, b) => w(b) - w(a)`: a stable sort into
    non-increasing weight. JavaScript engines sort stably, so equal-weight elements keep
    their input order; the result is then fully determined (`StableSortUnique`). */
module StableSort {
  import opened Seqs

  predicate NonIncreasing<T>(s: seq<T>, w: T -> int)
  {
    forall i, j :: 0 <= i < j < |s| ==> w(s[i]) >= w(s[j])
  }

  /** The elements of weight `c`, in their order in `s`. */
  function Keep<T>(s: seq<T>, w: T -> int, c: int): seq<T>
  {
    if |s| == 0 then []
    else if w(s[0]) == c then [s[0]] + Keep(s[1..], w, c)
    else Keep(s[1..], w, c)
  }

  /** `r` is what a stable sort of `s` by non-increasing weight returns: a permutation
      of `s`, non-increasing, and with every weight class in its original order. */
  ghost predicate IsStableSortOf<T(!new)>(r: seq<T>, s: seq<T>, w: T -> int)
  {
    && multiset(r) == multiset(s)
    && NonIncreasing(r, w)
    && forall c :: Keep(r, w, c) == Keep(s, w, c)
  }

  /** Every pair of equal-weight elements, in sequence order, is related by `before`. */
  ghost predicate TiesOrdered<T>(s: seq<T>, w: T -> int, before: (T, T) -> bool)
  {
    forall i, j :: 0 <= i < j < |s| && w(s[i]) == w(s[j]) ==> before(s[i], s[j])
  }

  /** Puts `x` in front of the first element of weight at most its own. */
  function Insert<T>(x: T, t: seq<T>, w: T -> int): (r: seq<T>)
    ensures multiset(r) == multiset(t) + multiset{x}
    ensures |r| == |t| + 1
  {
    if |t| == 0 then [x]
    else if w(t[0]) <= w(x) then [x] + t
    else
      assert t == [t[0]] + t[1..];
      [t[0]] + Insert(x, t[1..], w)
  }

  lemma {:induction false} InsertKeepsOrder<T>(x: T, t: seq<T>, w: T -> int)
    requires NonIncreasing(t, w)
    ensures NonIncreasing(Insert(x, t, w), w)
  {
    if |t| > 0 && w(t[0]) > w(x) {
      var r' := Insert(x, t[1..], w);
      InsertKeepsOrder(x, t[1..], w);
      var r := [t[0]] + r';
      forall j | 0 < j < |r|
        ensures w(r[0]) >= w(r[j])
      {
        assert r[j] == r'[j - 1];
        assert r[j] in multiset(r');
        if r[j] != x {
          assert r[j] in t[1..];
          var k :| 0 <= k < |t[1..]| && t[1..][k] == r[j];
          assert t[k + 1] == r[j];
        }
      }
      forall i, j | 0 <= i < j < |r|
        ensures w(r[i]) >= w(r[j])
      {
        if i > 0 {
          assert r[i] == r'[i - 1] && r[j] == r'[j - 1];
        }
      }
    }
  }

  lemma {:induction false} KeepCons<T>(y: T, s: seq<T>, w: T -> int, c: int)
    ensures Keep([y] + s, w, c) == (if w(y) == c then [y] else []) + Keep(s, w, c)
  {
    assert ([y] + s)[1..] == s;
  }

  lemma {:induction false} InsertKeepsClasses<T>(x: T, t: seq<T>, w: T -> int, c: int)
    ensures Keep(Insert(x, t, w), w, c) == (if w(x) == c then [x] else []) + Keep(t, w, c)
  {
    if |t| == 0 || w(t[0]) <= w(x) {
      KeepCons(x, t, w, c);
    } else {
      var r' := Insert(x, t[1..], w);
      assert Insert(x, t, w) == [t[0]] + r';
      InsertKeepsClasses(x, t[1..], w, c);
      KeepCons(t[0], r', w, c);
      KeepCons(t[0], t[1..], w, c);
      assert t == [t[0]] + t[1..];
      var k := Keep(t[1..], w, c);
      if w(t[0]) == c {
        assert Keep(r', w, c) == k;
        assert Keep(t, w, c) == [t[0]] + k;
      } else if w(x) == c {
        assert Keep(r', w, c) == [x] + k;
        assert Keep(t, w, c) == k;
      } else {
        assert Keep(r', w, c) == k;
        assert Keep(t, w, c) == k;
      }
    }
  }

  function Sort<T>(s: seq<T>, w: T -> int): (r: seq<T>)
    ensures multiset(r) == multiset(s)
    ensures NonIncreasing(r, w)
    ensures forall c :: Keep(r, w, c) == Keep(s, w, c)
  {
    if |s| == 0 then []
    else
      assert s == [s[0]] + s[1..];
      var t := Sort(s[1..], w);
      InsertKeepsOrder(s[0], t, w);
      assert forall c :: Keep(Insert(s[0], t, w), w, c) == Keep(s, w, c) by {
        forall c ensures Keep(Insert(s[0], t, w), w, c) == Keep(s, w, c) {
          InsertKeepsClasses(s[0], t, w, c);
        }
      }
      Insert(s[0], t, w)
  }

  lemma SortIsStable<T(!new)>(s: seq<T>, w: T -> int)
    ensures IsStableSortOf(Sort(s, w), s, w)
  {
  }

  lemma {:induction false} InsertKeepsTiesOrdered<T>(x: T, t: seq<T>, w: T -> int, before: (T, T) -> bool)
    requires TiesOrdered(t, w, before)
    requires forall i :: 0 <= i < |t| && w(t[i]) == w(x) ==> before(x, t[i])
    ensures TiesOrdered(Insert(x, t, w), w, before)
  {
    if |t| > 0 && w(t[0]) > w(x) {
      var r' := Insert(x, t[1..], w);
      InsertKeepsTiesOrdered(x, t[1..], w, before);
      var r := [t[0]] + r';
      assert Insert(x, t, w) == r;
      forall i, j | 0 <= i < j < |r| && w(r[i]) == w(r[j])
        ensures before(r[i], r[j])
      {
        if i == 0 {
          assert r[j] in multiset(r');
          assert r[j] != x;
          assert r[j] in t[1..];
          var k :| 0 <= k < |t[1..]| && t[1..][k] == r[j];
          assert t[k + 1] == r[j];
        } else {
          assert r[i] == r'[i - 1] && r[j] == r'[j - 1];
        }
      }
    }
  }

  /** If every pair of equal-weight elements of `s` is related by `before` in input order,
      the same holds in sorted order: the sort never reorders a tie. */
  lemma {:induction false} SortKeepsTiesOrdered<T>(s: seq<T>, w: T -> int, before: (T, T) -> bool)
    requires TiesOrdered(s, w, before)
    ensures TiesOrdered(Sort(s, w), w, before)
  {
    if |s| > 0 {
      assert TiesOrdered(s[1..], w, before) by {
        forall i, j | 0 <= i < j < |s[1..]| && w(s[1..][i]) == w(s[1..][j])
          ensures before(s[1..][i], s[1..][j])
        {
          assert s[1..][i] == s[i + 1] && s[1..][j] == s[j + 1];
        }
      }
      SortKeepsTiesOrdered(s[1..], w, before);
      var t := Sort(s[1..], w);
      forall i | 0 <= i < |t| && w(t[i]) == w(s[0])
        ensures before(s[0], t[i])
      {
        assert t[i] in multiset(s[1..]);
        var k :| 0 <= k < |s[1..]| && s[1..][k] == t[i];
        assert s[k + 1] == t[i];
      }
      InsertKeepsTiesOrdered(s[0], t, w, before);
    }
  }

  lemma {:induction false} InsertKeepsDistinctKeys<T, K>(x: T, t: seq<T>, w: T -> int, key: T -> K)
    requires DistinctBy(t, key)
    requires forall i :: 0 <= i < |t| ==> key(t[i]) != key(x)
    ensures DistinctBy(Insert(x, t, w), key)
  {
    if |t| > 0 && w(t[0]) > w(x) {
      var r' := Insert(x, t[1..], w);
      InsertKeepsDistinctKeys(x, t[1..], w, key);
      var r := [t[0]] + r';
      assert Insert(x, t, w) == r;
      forall i, j | 0 <= i < j < |r|
        ensures key(r[i]) != key(r[j])
      {
        if i == 0 {
          assert r[j] in multiset(r');
          if r[j] != x {
            assert r[j] in t[1..];
            var k :| 0 <= k < |t[1..]| && t[1..][k] == r[j];
            assert t[k + 1] == r[j];
          }
        } else {
          assert r[i] == r'[i - 1] && r[j] == r'[j - 1];
        }
      }
    }
  }

  /** Sorting never makes two elements share a key. */
  lemma {:induction false} SortKeepsDistinctKeys<T, K>(s: seq<T>, w: T -> int, key: T -> K)
    requires DistinctBy(s, key)
    ensures DistinctBy(Sort(s, w), key)
  {
    if |s| > 0 {
      assert DistinctBy(s[1..], key) by {
        forall i, j | 0 <= i < j < |s[1..]|
          ensures key(s[1..][i]) != key(s[1..][j])
        {
          assert s[1..][i] == s[i + 1] && s[1..][j] == s[j + 1];
        }
      }
      SortKeepsDistinctKeys(s[1..], w, key);
      var t := Sort(s[1..], w);
      forall i | 0 <= i < |t|
        ensures key(t[i]) != key(s[0])
      {
        assert t[i] in multiset(s[1..]);
        var k :| 0 <= k < |s[1..]| && s[1..][k] == t[i];
        assert s[k + 1] == t[i];
      }
      InsertKeepsDistinctKeys(s[0], t, w, key);
    }
  }

  lemma {:induction false} KeepMember<T>(s: seq<T>, w: T -> int, c: int, x: T)
    requires x in Keep(s, w, c)
    ensures x in s && w(x) == c
  {
    if |s| > 0 {
      if x != s[0] || w(s[0]) != c {
        KeepMember(s[1..], w, c, x);
      }
    }
  }

  lemma KeepHead<T>(s: seq<T>, w: T -> int)
    requires |s| > 0
    ensures Keep(s, w, w(s[0])) != []
  {
  }

  /** Two non-increasing sequences with the same elements in every weight class, in the
      same order, are equal. */
  lemma {:induction false} SortedByClassesUnique<T>(r1: seq<T>, r2: seq<T>, w: T -> int)
    requires NonIncreasing(r1, w) && NonIncreasing(r2, w)
    requires forall c :: Keep(r1, w, c) == Keep(r2, w, c)
    ensures r1 == r2
  {
    if |r1| == 0 && |r2| > 0 {
      assert false;
    } else if |r2| == 0 && |r1| > 0 {
      KeepHead(r1, w);
      assert false;
    } else if |r1| > 0 {
      var m1, m2 := w(r1[0]), w(r2[0]);
      assert r2[0] in Keep(r1, w, m2);
      KeepMember(r1, w, m2, r2[0]);
      assert r1[0] in Keep(r2, w, m1);
      KeepMember(r2, w, m1, r1[0]);
      var k1 :| 0 <= k1 < |r1| && r1[k1] == r2[0];
      var k2 :| 0 <= k2 < |r2| && r2[k2] == r1[0];
      assert m1 == m2;
      assert r1[0] == r2[0] by {
        assert Keep(r1, w, m1)[0] == r1[0];
        assert Keep(r2, w, m1)[0] == r2[0];
      }
      forall c ensures Keep(r1[1..], w, c) == Keep(r2[1..], w, c) {
        var a, b := Keep(r1[1..], w, c), Keep(r2[1..], w, c);
        assert Keep(r1, w, c) == Keep(r2, w, c);
        if m1 == c {
          assert Keep(r1, w, c) == [r1[0]] + a;
          assert Keep(r2, w, c) == [r1[0]] + b;
          assert a == ([r1[0]] + a)[1..];
          assert b == ([r1[0]] + b)[1..];
        } else {
          assert Keep(r1, w, c) == a;
          assert Keep(r2, w, c) == b;
        }
      }
      SortedByClassesUnique(r1[1..], r2[1..], w);
      assert r1 == [r1[0]] + r1[1..] && r2 == [r2[0]] + r2[1..];
    }
  }

  /** A stable sort's output is determined by its input: any sequence with the three
      properties of `IsStableSortOf` is the one `Sort` computes. */
  lemma StableSortUnique<T(!new)>(r: seq<T>, s: seq<T>, w: T -> int)
    requires IsStableSortOf(r, s, w)
    ensures r == Sort(s, w)
  {
    SortedByClassesUnique(r, Sort(s, w), w);
  }
}
