/** The Suggestions view's list: every suggestion of the history once per title (the
    first one seen wins), narrowed by the priority and category selectors, ordered High,
    Medium, Low with ties in first-seen order. */
module Suggestions {
  import opened Types
  import opened Seqs
  import opened StableSort
  import opened Store

  /** The comparator's `{ High: 3, Medium: 2, Low: 1 }`. */
  function Weight(p: Priority): (w: int)
    ensures 1 <= w <= 3
  {
    match p
    case High => 3
    case Medium => 2
    case Low => 1
  }

  /** Distinct priorities weigh differently, so a weight class is a priority. */
  lemma WeightInjective(p: Priority, q: Priority)
    ensures Weight(p) == Weight(q) <==> p == q
  {
  }

  /** The comparator puts High before Medium before Low. */
  lemma WeightOrder()
    ensures Weight(High) > Weight(Medium) > Weight(Low)
  {
  }

  function PriorityWeight(s: Suggestion): int
  {
    Weight(s.priority)
  }

  function TitleOf(s: Suggestion): string
  {
    s.title
  }

  /** The titles of a list of suggestions, in order. */
  function Titles(s: seq<Suggestion>): (ts: seq<string>)
    ensures |ts| == |s|
    ensures forall i :: 0 <= i < |s| ==> ts[i] == s[i].title
  {
    seq(|s|, i requires 0 <= i < |s| => s[i].title)
  }

  /** `x` is the first suggestion of `s` with its title. */
  ghost predicate IsFirstWithTitle(x: Suggestion, s: seq<Suggestion>)
  {
    x.title in Titles(s) && x == s[FirstIndex(Titles(s), x.title)]
  }

  /** `r` is `s` with every suggestion whose title was already seen dropped: one
      suggestion per title of `s`, the first one with that title, in order of first
      occurrence. */
  ghost predicate IsDedupOf(r: seq<Suggestion>, s: seq<Suggestion>)
  {
    && DistinctBy(r, TitleOf)
    && (forall t :: t in Titles(s) <==> t in Titles(r))
    && (forall i :: 0 <= i < |r| ==> IsFirstWithTitle(r[i], s))
    && (forall i, j :: 0 <= i < j < |r| ==>
          r[i].title in Titles(s) && r[j].title in Titles(s) &&
          FirstIndex(Titles(s), r[i].title) < FirstIndex(Titles(s), r[j].title))
  }

  /** Appending to the input moves no first occurrence of a title already present. */
  lemma FirstsSurviveAppend(d: seq<Suggestion>, s: seq<Suggestion>, x: Suggestion)
    requires IsDedupOf(d, s)
    ensures forall i :: 0 <= i < |d| ==> IsFirstWithTitle(d[i], s + [x])
    ensures forall i, j :: 0 <= i < j < |d| ==>
              d[i].title in Titles(s + [x]) && d[j].title in Titles(s + [x]) &&
              FirstIndex(Titles(s + [x]), d[i].title) < FirstIndex(Titles(s + [x]), d[j].title)
  {
    var ts := Titles(s);
    assert Titles(s + [x]) == ts + [x.title];
    FirstIndexAppend(ts, x.title);
    forall i | 0 <= i < |d| ensures IsFirstWithTitle(d[i], s + [x]) {
      assert (s + [x])[FirstIndex(ts, d[i].title)] == s[FirstIndex(ts, d[i].title)];
    }
  }

  /** Extending the input by one suggestion: the deduplication grows by it exactly when
      its title is new. */
  lemma DedupStep(d: seq<Suggestion>, s: seq<Suggestion>, x: Suggestion)
    requires IsDedupOf(d, s)
    ensures x.title in Titles(d) ==> IsDedupOf(d, s + [x])
    ensures x.title !in Titles(d) ==> IsDedupOf(d + [x], s + [x])
  {
    FirstsSurviveAppend(d, s, x);
    assert Titles(s + [x]) == Titles(s) + [x.title];
    if x.title !in Titles(d) {
      DedupStepNew(d, s, x);
    }
  }

  lemma DedupStepNew(d: seq<Suggestion>, s: seq<Suggestion>, x: Suggestion)
    requires IsDedupOf(d, s)
    requires x.title !in Titles(d)
    ensures IsDedupOf(d + [x], s + [x])
  {
    var ts := Titles(s);
    FirstsSurviveAppend(d, s, x);
    assert Titles(s + [x]) == ts + [x.title];
    FirstIndexAppendNew(ts, x.title);
    var r := d + [x];
    assert Titles(r) == Titles(d) + [x.title];
    forall i, j | 0 <= i < j < |r| ensures r[i].title != r[j].title {
      if j == |d| {
        assert r[i].title == Titles(d)[i];
      }
    }
    assert IsFirstWithTitle(x, s + [x]);
  }

  /** The `list` the loop over the history builds: a suggestion is pushed unless one
      with the same title is already in the list. */
  function DedupByTitle(s: seq<Suggestion>): (r: seq<Suggestion>)
    ensures IsDedupOf(r, s)
    ensures |r| <= |s|
  {
    if |s| == 0 then []
    else
      var p, x := s[..|s| - 1], s[|s| - 1];
      assert s == p + [x];
      var d := DedupByTitle(p);
      DedupStep(d, p, x);
      if x.title in Titles(d) then d else d + [x]
  }

  /** A list that already has one suggestion per title is left alone. */
  lemma {:induction false} DedupOfDistinct(s: seq<Suggestion>)
    requires DistinctBy(s, TitleOf)
    ensures DedupByTitle(s) == s
  {
    if |s| > 0 {
      var p, x := s[..|s| - 1], s[|s| - 1];
      assert s == p + [x];
      assert DistinctBy(p, TitleOf);
      DedupOfDistinct(p);
      assert x.title !in Titles(p) by {
        forall k | 0 <= k < |p| ensures Titles(p)[k] != x.title {
          assert TitleOf(s[k]) != TitleOf(s[|s| - 1]);
        }
      }
    }
  }

  /** Deduplicating twice is deduplicating once. */
  lemma DedupIdempotent(s: seq<Suggestion>)
    ensures DedupByTitle(DedupByTitle(s)) == DedupByTitle(s)
  {
    DedupOfDistinct(DedupByTitle(s));
  }

  /** When the last suggestion's title occurs earlier, a deduplication of the whole
      list is one of the list without it. */
  lemma DedupDropRepeat(r: seq<Suggestion>, p: seq<Suggestion>, x: Suggestion)
    requires IsDedupOf(r, p + [x])
    requires x.title in Titles(p)
    ensures IsDedupOf(r, p)
  {
    var s := p + [x];
    var ts, tp := Titles(s), Titles(p);
    assert ts == tp + [x.title];
    FirstIndexAppend(tp, x.title);
    assert forall t :: t in ts <==> t in tp;
    forall i | 0 <= i < |r| ensures r[i] == p[FirstIndex(tp, r[i].title)] {
      assert s[FirstIndex(ts, r[i].title)] == p[FirstIndex(tp, r[i].title)];
    }
  }

  /** When the last suggestion's title is new, every deduplication of the whole list
      ends with it. */
  lemma DedupEndsWithNew(r: seq<Suggestion>, p: seq<Suggestion>, x: Suggestion)
    requires IsDedupOf(r, p + [x])
    requires x.title !in Titles(p)
    ensures |r| > 0 && r[|r| - 1] == x
  {
    var s := p + [x];
    var ts, tp := Titles(s), Titles(p);
    assert ts == tp + [x.title];
    FirstIndexAppend(tp, x.title);
    FirstIndexAppendNew(tp, x.title);
    assert x.title in Titles(r) by { assert ts[|p|] == x.title; }
    var m :| 0 <= m < |r| && Titles(r)[m] == x.title;
    assert r[m] == x by {
      assert r[m] == s[FirstIndex(ts, r[m].title)];
    }
    var n := |r| - 1;
    assert r[n].title in ts;
    assert FirstIndex(ts, r[n].title) <= |p|;
    assert FirstIndex(ts, r[m].title) == |p|;
  }

  /** What precedes the new last suggestion deduplicates the list without it. */
  lemma DedupDropNew(r: seq<Suggestion>, p: seq<Suggestion>, x: Suggestion)
    requires IsDedupOf(r, p + [x])
    requires x.title !in Titles(p)
    requires |r| > 0 && r[|r| - 1] == x
    ensures IsDedupOf(r[..|r| - 1], p)
  {
    var s := p + [x];
    var ts, tp := Titles(s), Titles(p);
    assert ts == tp + [x.title];
    FirstIndexAppend(tp, x.title);
    var q := r[..|r| - 1];
    assert Titles(r) == Titles(q) + [x.title];
    assert forall i :: 0 <= i < |q| ==> q[i].title in tp by {
      forall i | 0 <= i < |q| ensures q[i].title in tp {
        assert TitleOf(r[i]) != TitleOf(r[|r| - 1]);
        assert r[i].title in ts;
      }
    }
    assert forall t :: t in tp <==> t in Titles(q) by {
      forall t ensures t in tp <==> t in Titles(q) {
        if t in tp {
          assert t in Titles(r) && t != x.title;
        }
      }
    }
    forall i | 0 <= i < |q| ensures q[i] == p[FirstIndex(tp, q[i].title)] {
      assert q[i] == r[i];
    }
  }

  /** Any list with the properties of `IsDedupOf` is the one the loop builds. */
  lemma {:induction false} DedupUnique(r: seq<Suggestion>, s: seq<Suggestion>)
    requires IsDedupOf(r, s)
    ensures r == DedupByTitle(s)
  {
    if |s| == 0 {
      assert |r| == 0;
    } else {
      var p, x := s[..|s| - 1], s[|s| - 1];
      assert s == p + [x];
      var d := DedupByTitle(p);
      if x.title in Titles(p) {
        DedupDropRepeat(r, p, x);
        DedupUnique(r, p);
        assert x.title in Titles(d);
      } else {
        DedupEndsWithNew(r, p, x);
        DedupDropNew(r, p, x);
        DedupUnique(r[..|r| - 1], p);
        assert x.title !in Titles(d);
      }
    }
  }

  /** `filterPriority === 'All' || s.priority === filterPriority`, and the same for the
      category. */
  predicate Matches(s: Suggestion, fp: Choice<Priority>, fc: Choice<Category>)
  {
    && (fp.All? || s.priority == fp.value)
    && (fc.All? || s.category == fc.value)
  }

  /** The `list.filter(...)` step. */
  function ApplyFilters(l: seq<Suggestion>, fp: Choice<Priority>, fc: Choice<Category>): (r: seq<Suggestion>)
    ensures forall i :: 0 <= i < |r| ==> r[i] in l && Matches(r[i], fp, fc)
    ensures forall i :: 0 <= i < |l| && Matches(l[i], fp, fc) ==> l[i] in r
    ensures forall x {:trigger Occurrences(r, x)} ::
              Occurrences(r, x) == if Matches(x, fp, fc) then Occurrences(l, x) else 0
    ensures fp.All? && fc.All? ==> r == l
  {
    var r := Filter(l, x => Matches(x, fp, fc));
    if fp.All? && fc.All? then
      FilterAllTrue(l, x => Matches(x, fp, fc));
      r
    else r
  }

  /** The two selectors act independently: narrowing by both at once is narrowing by
      priority and then by category. */
  lemma SelectorsCompose(l: seq<Suggestion>, fp: Choice<Priority>, fc: Choice<Category>)
    ensures ApplyFilters(l, fp, fc) == ApplyFilters(ApplyFilters(l, fp, All), All, fc)
  {
    var a := ApplyFilters(l, fp, All);
    assert a == Filter(l, x => Matches(x, fp, All));
    assert ApplyFilters(a, All, fc) == Filter(a, x => Matches(x, All, fc));
    FilterFilter(l, x => Matches(x, fp, All), x => Matches(x, All, fc), x => Matches(x, fp, fc));
  }

  /** Suggestion `a` is the first with its title before `b` is in `s`. */
  ghost function SeenBefore(s: seq<Suggestion>): (Suggestion, Suggestion) -> bool
  {
    (a: Suggestion, b: Suggestion) =>
      a.title in Titles(s) && b.title in Titles(s) &&
      FirstIndex(Titles(s), a.title) < FirstIndex(Titles(s), b.title)
  }

  ghost function DifferentTitles(): (Suggestion, Suggestion) -> bool
  {
    (a: Suggestion, b: Suggestion) => a.title != b.title
  }

  /** Filtering then sorting the deduplicated list keeps titles distinct and ties in
      order of first occurrence. */
  lemma SortedFacts(d: seq<Suggestion>, s: seq<Suggestion>, fp: Choice<Priority>, fc: Choice<Category>)
    requires IsDedupOf(d, s)
    ensures var f := ApplyFilters(d, fp, fc);
      && DistinctBy(Sort(f, PriorityWeight), TitleOf)
      && TiesOrdered(Sort(f, PriorityWeight), PriorityWeight, SeenBefore(s))
  {
    var f := Filter(d, x => Matches(x, fp, fc));
    assert Chained(d, DifferentTitles()) by {
      forall i, j | 0 <= i < j < |d| ensures DifferentTitles()(d[i], d[j]) {
        assert TitleOf(d[i]) != TitleOf(d[j]);
      }
    }
    FilterKeepsChained(d, x => Matches(x, fp, fc), DifferentTitles());
    FilterKeepsChained(d, x => Matches(x, fp, fc), SeenBefore(s));
    assert DistinctBy(f, TitleOf) by {
      forall i, j | 0 <= i < j < |f| ensures TitleOf(f[i]) != TitleOf(f[j]) {
        assert DifferentTitles()(f[i], f[j]);
      }
    }
    SortKeepsDistinctKeys(f, PriorityWeight, TitleOf);
    SortKeepsTiesOrdered(f, PriorityWeight, SeenBefore(s));
  }

  /** The Suggestions view's `allSuggestions` memo. */
  function AllSuggestions(h: History, fp: Choice<Priority>, fc: Choice<Category>): (r: seq<Suggestion>)
    ensures IsStableSortOf(r, ApplyFilters(DedupByTitle(SuggestionsOf(h)), fp, fc), PriorityWeight)
    ensures DistinctBy(r, TitleOf)
    ensures forall i :: 0 <= i < |r| ==> Matches(r[i], fp, fc) && IsFirstWithTitle(r[i], SuggestionsOf(h))
    ensures forall i, j :: 0 <= i < j < |r| ==> Weight(r[i].priority) >= Weight(r[j].priority)
    ensures forall i, j :: 0 <= i < j < |r| && r[i].priority == r[j].priority ==>
              SeenBefore(SuggestionsOf(h))(r[i], r[j])
  {
    var r := Sort(ApplyFilters(DedupByTitle(SuggestionsOf(h)), fp, fc), PriorityWeight);
    AllSuggestionsFacts(SuggestionsOf(h), fp, fc);
    r
  }

  /** The facts `AllSuggestions` promises, about the pipeline it evaluates. */
  lemma AllSuggestionsFacts(s: seq<Suggestion>, fp: Choice<Priority>, fc: Choice<Category>)
    ensures var f := ApplyFilters(DedupByTitle(s), fp, fc);
      var r := Sort(f, PriorityWeight);
      && IsStableSortOf(r, f, PriorityWeight)
      && DistinctBy(r, TitleOf)
      && (forall i :: 0 <= i < |r| ==> Matches(r[i], fp, fc) && IsFirstWithTitle(r[i], s))
      && (forall i, j :: 0 <= i < j < |r| ==> Weight(r[i].priority) >= Weight(r[j].priority))
      && (forall i, j :: 0 <= i < j < |r| && r[i].priority == r[j].priority ==> SeenBefore(s)(r[i], r[j]))
  {
    var d := DedupByTitle(s);
    var f := ApplyFilters(d, fp, fc);
    var r := Sort(f, PriorityWeight);
    SortIsStable(f, PriorityWeight);
    SortedFacts(d, s, fp, fc);
    SortedDrawnFromFirsts(d, s, fp, fc);
    PriorityOrder(r, s);
  }

  /** Sorting by weight is sorting High, Medium, Low; equal weight is equal priority. */
  lemma PriorityOrder(r: seq<Suggestion>, s: seq<Suggestion>)
    requires NonIncreasing(r, PriorityWeight)
    requires TiesOrdered(r, PriorityWeight, SeenBefore(s))
    ensures forall i, j :: 0 <= i < j < |r| ==> Weight(r[i].priority) >= Weight(r[j].priority)
    ensures forall i, j :: 0 <= i < j < |r| && r[i].priority == r[j].priority ==> SeenBefore(s)(r[i], r[j])
  {
    forall i, j | 0 <= i < j < |r|
      ensures Weight(r[i].priority) >= Weight(r[j].priority)
      ensures r[i].priority == r[j].priority ==> SeenBefore(s)(r[i], r[j])
    {
      assert PriorityWeight(r[i]) >= PriorityWeight(r[j]);
    }
  }

  /** Every listed suggestion matches the selectors and is the first with its title. */
  lemma SortedDrawnFromFirsts(d: seq<Suggestion>, s: seq<Suggestion>, fp: Choice<Priority>, fc: Choice<Category>)
    requires IsDedupOf(d, s)
    ensures var r := Sort(ApplyFilters(d, fp, fc), PriorityWeight);
      forall i :: 0 <= i < |r| ==>
        && Matches(r[i], fp, fc)
        && IsFirstWithTitle(r[i], s)
  {
    var f := ApplyFilters(d, fp, fc);
    var r := Sort(f, PriorityWeight);
    forall i | 0 <= i < |r|
      ensures Matches(r[i], fp, fc) && IsFirstWithTitle(r[i], s)
    {
      assert r[i] in multiset(f);
      SortedElement(d, s, fp, fc, r[i]);
    }
  }

  /** A suggestion that survives the selectors is one of them and the first with its
      title. */
  lemma SortedElement(d: seq<Suggestion>, s: seq<Suggestion>, fp: Choice<Priority>, fc: Choice<Category>, x: Suggestion)
    requires IsDedupOf(d, s)
    requires x in ApplyFilters(d, fp, fc)
    ensures Matches(x, fp, fc) && IsFirstWithTitle(x, s)
  {
    var f := ApplyFilters(d, fp, fc);
    var k :| 0 <= k < |f| && f[k] == x;
    var j :| 0 <= j < |d| && d[j] == x;
  }

  /** With both selectors on All, every title of the history is listed exactly once,
      by its first suggestion. */
  lemma AllTitlesListed(h: History)
    ensures var r := AllSuggestions(h, All, All);
      && multiset(r) == multiset(DedupByTitle(SuggestionsOf(h)))
      && (forall t :: t in Titles(SuggestionsOf(h)) <==> t in Titles(r))
  {
    var s := SuggestionsOf(h);
    var d := DedupByTitle(s);
    var r := AllSuggestions(h, All, All);
    assert multiset(r) == multiset(d);
    forall t ensures t in Titles(s) <==> t in Titles(r) {
      assert t in Titles(s) <==> t in Titles(d);
      SameTitles(d, r, t);
    }
  }

  /** Two permutations of each other list the same titles. */
  lemma SameTitles(a: seq<Suggestion>, b: seq<Suggestion>, t: string)
    requires multiset(a) == multiset(b)
    ensures t in Titles(a) <==> t in Titles(b)
  {
    if t in Titles(a) {
      var i :| 0 <= i < |a| && Titles(a)[i] == t;
      assert a[i] in multiset(b);
      var j :| 0 <= j < |b| && b[j] == a[i];
      assert Titles(b)[j] == t;
    }
    if t in Titles(b) {
      var j :| 0 <= j < |b| && Titles(b)[j] == t;
      assert b[j] in multiset(a);
      var i :| 0 <= i < |a| && a[i] == b[j];
      assert Titles(a)[i] == t;
    }
  }
}
