/** The keyed tallies the views build with `m[k] = (m[k] || 0) + 1` over a
    `Record<string, number>`, read back with `Object.entries` (which lists keys in the
    order they were first inserted) and optionally sorted by count. */
module Tally {
  import opened Seqs
  import opened StableSort

  /** The counts, and the keys in first-insertion order. */
  datatype Tally<K> = Tally(order: seq<K>, counts: map<K, nat>)

  /** One `m[k] = (m[k] || 0) + 1` step. */
  function Bump<K>(t: Tally<K>, k: K): (r: Tally<K>)
    ensures r.counts.Keys == t.counts.Keys + {k}
    ensures r.counts[k] == (if k in t.counts then t.counts[k] else 0) + 1
    ensures r.counts - {k} == t.counts - {k}
    ensures r.order == if k in t.counts then t.order else t.order + [k]
  {
    if k in t.counts then Tally(t.order, t.counts[k := t.counts[k] + 1])
    else Tally(t.order + [k], t.counts[k := 1])
  }

  /** `Object.entries(t)`: one (key, count) pair per key, in insertion order. */
  function Entries<K>(t: Tally<K>): (es: seq<(K, nat)>)
    requires forall i :: 0 <= i < |t.order| ==> t.order[i] in t.counts
    ensures |es| == |t.order|
    ensures forall i :: 0 <= i < |es| ==> es[i] == (t.order[i], t.counts[t.order[i]])
  {
    seq(|t.order|, i requires 0 <= i < |t.order| => (t.order[i], t.counts[t.order[i]]))
  }

  /** The keys of a list of entries, in order. */
  function Keys<K>(es: seq<(K, nat)>): (ks: seq<K>)
    ensures |ks| == |es|
    ensures forall i :: 0 <= i < |es| ==> ks[i] == es[i].0
  {
    seq(|es|, i requires 0 <= i < |es| => es[i].0)
  }

  /** The sum of the counts of a list of entries. */
  function Total<K>(es: seq<(K, nat)>): nat
  {
    if |es| == 0 then 0 else es[0].1 + Total(es[1..])
  }

  /** The count of an entry, as the weight the sort by count uses. */
  function CountOf<K>(e: (K, nat)): int
  {
    e.1
  }

  lemma {:induction false} TotalAppend<K>(a: seq<(K, nat)>, b: seq<(K, nat)>)
    ensures Total(a + b) == Total(a) + Total(b)
  {
    if |a| > 0 {
      assert (a + b)[1..] == a[1..] + b;
      TotalAppend(a[1..], b);
    } else {
      assert a + b == b;
    }
  }

  /** Raising one count by one raises the total by one. */
  lemma {:induction false} TotalBump<K>(a: seq<(K, nat)>, b: seq<(K, nat)>, i: nat)
    requires |a| == |b| && i < |a|
    requires b[i].1 == a[i].1 + 1
    requires forall j :: 0 <= j < |a| && j != i ==> b[j] == a[j]
    ensures Total(b) == Total(a) + 1
  {
    if i > 0 {
      TotalBump(a[1..], b[1..], i - 1);
    } else {
      assert a[1..] == b[1..];
    }
  }

  /** Tallies `s` left to right, as the `forEach` loops do. */
  function TallyOf<K(==,!new)>(s: seq<K>): (t: Tally<K>)
    ensures forall k :: k in t.counts <==> k in s
    ensures forall k :: k in t.order <==> k in s
    ensures forall k :: k in t.counts ==> t.counts[k] == Occurrences(s, k)
  {
    if |s| == 0 then Tally([], map[])
    else
      assert s == s[..|s| - 1] + [s[|s| - 1]];
      Bump(TallyOf(s[..|s| - 1]), s[|s| - 1])
  }

  /** The elements of `order` occur in `s`, in the order of their first occurrences. */
  ghost predicate FirstOccurrenceOrder<K>(order: seq<K>, s: seq<K>)
  {
    && (forall i :: 0 <= i < |order| ==> order[i] in s)
    && (forall i, j :: 0 <= i < j < |order| ==> FirstIndex(s, order[i]) < FirstIndex(s, order[j]))
  }

  /** One counting step keeps the keys in order of first occurrence. */
  lemma BumpOrder<K(!new)>(t: Tally<K>, p: seq<K>, x: K)
    requires FirstOccurrenceOrder(t.order, p)
    requires forall k :: k in t.counts <==> k in p
    ensures FirstOccurrenceOrder(Bump(t, x).order, p + [x])
  {
    var s, o := p + [x], Bump(t, x).order;
    FirstIndexAppend(p, x);
    if x in p {
      forall i, j | 0 <= i < j < |o|
        ensures FirstIndex(s, o[i]) < FirstIndex(s, o[j])
      {
        assert FirstIndex(s, o[i]) == FirstIndex(p, o[i]);
        assert FirstIndex(s, o[j]) == FirstIndex(p, o[j]);
      }
    } else {
      FirstIndexAppendNew(p, x);
      forall i, j | 0 <= i < j < |o|
        ensures FirstIndex(s, o[i]) < FirstIndex(s, o[j])
      {
        assert o[i] == t.order[i];
        assert FirstIndex(s, o[i]) == FirstIndex(p, o[i]);
        if j < |t.order| {
          assert o[j] == t.order[j];
          assert FirstIndex(s, o[j]) == FirstIndex(p, o[j]);
        }
      }
    }
  }

  /** Keys appear in the tally's order in the order of their first occurrence in `s`. */
  lemma {:induction false} TallyOrder<K(!new)>(s: seq<K>)
    ensures FirstOccurrenceOrder(TallyOf(s).order, s)
  {
    if |s| > 0 {
      var p, x := s[..|s| - 1], s[|s| - 1];
      assert s == p + [x];
      TallyOrder(p);
      assert TallyOf(s) == Bump(TallyOf(p), x);
      BumpOrder(TallyOf(p), p, x);
    }
  }

  lemma OrderDistinct<K>(order: seq<K>, s: seq<K>)
    requires FirstOccurrenceOrder(order, s)
    ensures forall i, j :: 0 <= i < j < |order| ==> order[i] != order[j]
  {
  }

  /** One counting step adds one to the total of the entries. */
  lemma BumpTotal<K>(t: Tally<K>, x: K)
    requires forall i :: 0 <= i < |t.order| ==> t.order[i] in t.counts
    requires forall k :: k in t.counts ==> k in t.order
    requires forall i, j :: 0 <= i < j < |t.order| ==> t.order[i] != t.order[j]
    ensures Total(Entries(Bump(t, x))) == Total(Entries(t)) + 1
  {
    var t' := Bump(t, x);
    var a, b := Entries(t), Entries(t');
    if x in t.counts {
      var i :| 0 <= i < |t.order| && t.order[i] == x;
      forall j | 0 <= j < |a| && j != i
        ensures b[j] == a[j]
      {
        assert t.order[j] != x;
      }
      TotalBump(a, b, i);
    } else {
      forall j | 0 <= j < |a|
        ensures b[j] == a[j]
      {
        assert t'.order[j] == t.order[j];
      }
      assert b == a + [(x, 1)];
      TotalAppend(a, [(x, 1)]);
    }
  }

  /** The counts of the tally of `s` add up to the length of `s`. */
  lemma {:induction false} TallyTotal<K(!new)>(s: seq<K>)
    ensures Total(Entries(TallyOf(s))) == |s|
  {
    if |s| > 0 {
      var p, x := s[..|s| - 1], s[|s| - 1];
      assert s == p + [x];
      var t := TallyOf(p);
      assert TallyOf(s) == Bump(t, x);
      TallyTotal(p);
      TallyOrder(p);
      OrderDistinct(t.order, p);
      BumpTotal(t, x);
    }
  }

  lemma EntriesKeys<K>(t: Tally<K>)
    requires forall i :: 0 <= i < |t.order| ==> t.order[i] in t.counts
    ensures Keys(Entries(t)) == t.order
  {
  }

  /** `Object.entries` of the tally of `s`: each distinct element of `s` once, with its
      number of occurrences, in order of first occurrence. */
  function Frequencies<K(==,!new)>(s: seq<K>): (es: seq<(K, nat)>)
    ensures forall i :: 0 <= i < |es| ==> es[i].0 in s && es[i].1 == Occurrences(s, es[i].0)
    ensures forall k :: k in s <==> k in Keys(es)
    ensures FirstOccurrenceOrder(Keys(es), s)
    ensures Total(es) == |s|
  {
    var t := TallyOf(s);
    TallyOrder(s);
    TallyTotal(s);
    EntriesKeys(t);
    Entries(t)
  }

  /** Two entries whose keys occur in `s`, the first key first seen earlier. */
  ghost function FirstSeenBefore<K(!new)>(s: seq<K>): ((K, nat), (K, nat)) -> bool
  {
    (a: (K, nat), b: (K, nat)) => a.0 in s && b.0 in s && FirstIndex(s, a.0) < FirstIndex(s, b.0)
  }

  lemma PermutationKeys<K>(a: seq<(K, nat)>, b: seq<(K, nat)>)
    requires multiset(a) == multiset(b)
    ensures forall i :: 0 <= i < |a| ==> a[i] in b
    ensures forall k :: k in Keys(a) <==> k in Keys(b)
  {
    forall i | 0 <= i < |a| ensures a[i] in b {
      assert a[i] in multiset(a);
    }
    forall k | k in Keys(a) ensures k in Keys(b) {
      var i :| 0 <= i < |a| && Keys(a)[i] == k;
      assert a[i] in multiset(b);
      var j :| 0 <= j < |b| && b[j] == a[i];
      assert Keys(b)[j] == k;
    }
    forall k | k in Keys(b) ensures k in Keys(a) {
      var i :| 0 <= i < |b| && Keys(b)[i] == k;
      assert b[i] in multiset(a);
      var j :| 0 <= j < |a| && a[j] == b[i];
      assert Keys(a)[j] == k;
    }
  }

  lemma FrequenciesTiesOrdered<K(!new)>(s: seq<K>)
    ensures TiesOrdered(Frequencies(s), CountOf, FirstSeenBefore(s))
  {
    var fs := Frequencies(s);
    forall i, j | 0 <= i < j < |fs| && CountOf(fs[i]) == CountOf(fs[j])
      ensures FirstSeenBefore(s)(fs[i], fs[j])
    {
      assert Keys(fs)[i] == fs[i].0 && Keys(fs)[j] == fs[j].0;
    }
  }

  /** What a permutation of the frequencies that is sorted by count, ties kept in order
      of first occurrence, satisfies. */
  lemma {:induction false} RankedFacts<K(!new)>(s: seq<K>, r: seq<(K, nat)>)
    requires multiset(r) == multiset(Frequencies(s))
    requires NonIncreasing(r, CountOf)
    requires TiesOrdered(r, CountOf, FirstSeenBefore(s))
    ensures forall i :: 0 <= i < |r| ==> r[i].0 in s && r[i].1 == Occurrences(s, r[i].0)
    ensures forall k :: k in s <==> k in Keys(r)
    ensures forall i, j :: 0 <= i < j < |r| ==> r[i].1 >= r[j].1
    ensures forall i, j :: 0 <= i < j < |r| && r[i].1 == r[j].1 ==>
              FirstIndex(s, r[i].0) < FirstIndex(s, r[j].0)
    ensures forall i, j :: 0 <= i < j < |r| ==> r[i].0 != r[j].0
  {
    var fs := Frequencies(s);
    PermutationKeys(r, fs);
    forall i, j | 0 <= i < j < |r|
      ensures r[i].1 >= r[j].1
      ensures r[i].1 == r[j].1 ==> FirstIndex(s, r[i].0) < FirstIndex(s, r[j].0)
    {
      assert CountOf(r[i]) >= CountOf(r[j]);
      if r[i].1 == r[j].1 {
        assert FirstSeenBefore(s)(r[i], r[j]);
      }
    }
  }

  /** `Object.entries(m).sort((a, b) => b[1] - a[1])` for the tally `m` of `s`: the
      distinct elements of `s` with their counts, by non-increasing count, ties in order
      of first occurrence. */
  function Ranked<K(==,!new)>(s: seq<K>): (es: seq<(K, nat)>)
    ensures forall i :: 0 <= i < |es| ==> es[i].0 in s && es[i].1 == Occurrences(s, es[i].0)
    ensures forall k :: k in s <==> k in Keys(es)
    ensures forall i, j :: 0 <= i < j < |es| ==> es[i].1 >= es[j].1
    ensures forall i, j :: 0 <= i < j < |es| && es[i].1 == es[j].1 ==>
              FirstIndex(s, es[i].0) < FirstIndex(s, es[j].0)
    ensures forall i, j :: 0 <= i < j < |es| ==> es[i].0 != es[j].0
  {
    var fs := Frequencies(s);
    var r := Sort(fs, CountOf);
    FrequenciesTiesOrdered(s);
    SortKeepsTiesOrdered(fs, CountOf, FirstSeenBefore(s));
    RankedFacts(s, r);
    r
  }

  /** `w` is the element the head of a ranking names: it occurs, no element occurs more
      often, and every other element occurring as often is first seen later. */
  ghost predicate IsMostFrequent<K>(s: seq<K>, w: K)
  {
    && w in s
    && (forall k :: k in s ==> Occurrences(s, k) <= Occurrences(s, w))
    && (forall k :: k in s && k != w && Occurrences(s, k) == Occurrences(s, w) ==>
          FirstIndex(s, w) < FirstIndex(s, k))
  }

  /** At most one element is the most frequent. */
  lemma MostFrequentUnique<K>(s: seq<K>, v: K, w: K)
    requires IsMostFrequent(s, v) && IsMostFrequent(s, w)
    ensures v == w
  {
  }

  /** Ranking finds nothing exactly when there is nothing to rank. */
  lemma RankedEmpty<K(!new)>(s: seq<K>)
    ensures |Ranked(s)| == 0 <==> |s| == 0
  {
    if |s| > 0 {
      assert s[0] in Keys(Ranked(s));
    }
  }

  /** The first row of a ranking is the most frequent element. */
  lemma RankedHeadIsMostFrequent<K(!new)>(s: seq<K>)
    requires |s| > 0
    ensures |Ranked(s)| > 0 && IsMostFrequent(s, Ranked(s)[0].0)
  {
    var r := Ranked(s);
    RankedEmpty(s);
    var w := r[0].0;
    forall k | k in s && k != w
      ensures Occurrences(s, k) <= Occurrences(s, w)
      ensures Occurrences(s, k) == Occurrences(s, w) ==> FirstIndex(s, w) < FirstIndex(s, k)
    {
      var j :| 0 <= j < |r| && Keys(r)[j] == k;
      assert r[j].0 == k;
    }
  }
}
