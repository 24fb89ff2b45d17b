/** The Reports view's aggregates: the emotion distribution, the category mix of the
    suggestions, and the twelve most frequent keywords. */
module Reports {
  import opened Types
  import opened Seqs
  import opened Tally
  import opened Store

  /** The `emotionDistribution` memo: every emotion mentioned in the history with its
      number of mentions, in order of first mention. */
  function EmotionDistribution(h: History): (es: seq<(Emotion, nat)>)
    ensures forall i :: 0 <= i < |es| ==> es[i].1 == Occurrences(EmotionsOf(h), es[i].0) && es[i].1 > 0
    ensures forall m :: m in EmotionsOf(h) <==> m in Keys(es)
    ensures FirstOccurrenceOrder(Keys(es), EmotionsOf(h))
    ensures Total(es) == |EmotionsOf(h)|
  {
    Frequencies(EmotionsOf(h))
  }

  /** An emotion is listed exactly when some analysed entry names it. */
  lemma EmotionListed(h: History, m: Emotion)
    ensures m in Keys(EmotionDistribution(h)) <==>
              exists i :: 0 <= i < |h| && h[i].result.Some? && m in h[i].result.value.emotions
  {
    EmotionsMember(h, m);
  }

  /** The category of every suggestion of the history, in order. */
  function CategoriesOf(h: History): (cs: seq<Category>)
    ensures |cs| == |SuggestionsOf(h)|
    ensures forall i :: 0 <= i < |cs| ==> cs[i] == SuggestionsOf(h)[i].category
  {
    var ss := SuggestionsOf(h);
    seq(|ss|, i requires 0 <= i < |ss| => ss[i].category)
  }

  /** The `categoryMix` memo: every category used by a suggestion with the number of
      suggestions in it, in order of first use; the counts add up to the number of
      suggestions, duplicates included. */
  function CategoryMix(h: History): (es: seq<(Category, nat)>)
    ensures forall i :: 0 <= i < |es| ==> es[i].1 == Occurrences(CategoriesOf(h), es[i].0) && es[i].1 > 0
    ensures forall c :: c in CategoriesOf(h) <==> c in Keys(es)
    ensures FirstOccurrenceOrder(Keys(es), CategoriesOf(h))
    ensures Total(es) == |SuggestionsOf(h)|
  {
    Frequencies(CategoriesOf(h))
  }

  /** A category is listed exactly when some suggestion of the history has it. */
  lemma CategoryListed(h: History, c: Category)
    ensures c in Keys(CategoryMix(h)) <==> exists s :: s in SuggestionsOf(h) && s.category == c
  {
    var cs := CategoriesOf(h);
    if c in cs {
      var i :| 0 <= i < |cs| && cs[i] == c;
      assert SuggestionsOf(h)[i] in SuggestionsOf(h);
    }
    if exists s :: s in SuggestionsOf(h) && s.category == c {
      var s :| s in SuggestionsOf(h) && s.category == c;
      var i :| 0 <= i < |SuggestionsOf(h)| && SuggestionsOf(h)[i] == s;
      assert cs[i] == c;
    }
  }

  /** The keyword cloud's row limit. */
  const KeywordLimit := 12

  /** The keyword cloud: keywords by number of mentions, most mentioned first, ties in
      order of first mention, at most twelve. */
  function TopKeywords(h: History): (es: seq<(string, nat)>)
    ensures |es| == if |Ranked(KeywordsOf(h))| < KeywordLimit then |Ranked(KeywordsOf(h))| else KeywordLimit
  {
    Take(Ranked(KeywordsOf(h)), KeywordLimit)
  }

  /** Every row of the cloud is a keyword with its mention count, no keyword twice, by
      non-increasing count, ties in order of first mention. */
  lemma TopKeywordsRanked(h: History)
    ensures var es, s := TopKeywords(h), KeywordsOf(h);
      && (forall i :: 0 <= i < |es| ==> es[i].0 in s && es[i].1 == Occurrences(s, es[i].0))
      && (forall i, j :: 0 <= i < j < |es| ==> es[i].0 != es[j].0)
      && (forall i, j :: 0 <= i < j < |es| ==> es[i].1 >= es[j].1)
      && (forall i, j :: 0 <= i < j < |es| && es[i].1 == es[j].1 ==>
            FirstIndex(s, es[i].0) < FirstIndex(s, es[j].0))
  {
    TakeRanked(KeywordsOf(h), TopKeywords(h));
  }

  /** A prefix of a ranking keeps every property of the ranking. */
  lemma TakeRanked(s: seq<string>, t: seq<(string, nat)>)
    requires t == Take(Ranked(s), KeywordLimit)
    ensures forall i :: 0 <= i < |t| ==> t[i].0 in s && t[i].1 == Occurrences(s, t[i].0)
    ensures forall i, j :: 0 <= i < j < |t| ==> t[i].0 != t[j].0
    ensures forall i, j :: 0 <= i < j < |t| ==> t[i].1 >= t[j].1
    ensures forall i, j :: 0 <= i < j < |t| && t[i].1 == t[j].1 ==> FirstIndex(s, t[i].0) < FirstIndex(s, t[j].0)
  {
    var r := Ranked(s);
    forall i, j | 0 <= i < j < |t|
      ensures t[i].0 != t[j].0 && t[i].1 >= t[j].1
      ensures t[i].1 == t[j].1 ==> FirstIndex(s, t[i].0) < FirstIndex(s, t[j].0)
    {
      assert t[i] == r[i] && t[j] == r[j];
    }
    forall i | 0 <= i < |t| ensures t[i].0 in s && t[i].1 == Occurrences(s, t[i].0) {
      assert t[i] == r[i];
    }
  }

  /** A keyword left out of the cloud lost to all twelve listed ones: it is mentioned
      less often than the last, or as often but first mentioned later. */
  lemma UnlistedKeywordRanksLower(h: History, k: string)
    requires k in KeywordsOf(h) && k !in Keys(TopKeywords(h))
    ensures |TopKeywords(h)| == KeywordLimit
    ensures var last := TopKeywords(h)[KeywordLimit - 1];
      || Occurrences(KeywordsOf(h), k) < last.1
      || (Occurrences(KeywordsOf(h), k) == last.1 &&
          FirstIndex(KeywordsOf(h), last.0) < FirstIndex(KeywordsOf(h), k))
  {
    var s := KeywordsOf(h);
    var r := Ranked(s);
    var j := KeyIndex(r, k);
    TakeOmitsIndex(r, KeywordLimit, k, j);
    assert TopKeywords(h)[KeywordLimit - 1] == r[KeywordLimit - 1];
    RankedPair(s, KeywordLimit - 1, j);
  }

  /** A position of a listed key. */
  lemma KeyIndex<K>(r: seq<(K, nat)>, k: K) returns (j: nat)
    requires k in Keys(r)
    ensures j < |r| && r[j].0 == k
  {
    j :| 0 <= j < |r| && Keys(r)[j] == k;
  }

  /** A key missing from a prefix sits at or after the cut. */
  lemma TakeOmitsIndex<K>(r: seq<(K, nat)>, n: nat, k: K, j: nat)
    requires j < |r| && r[j].0 == k && k !in Keys(Take(r, n))
    ensures j >= n
  {
  }

  /** Two rows of a ranking: the earlier one has at least the later one's count, and
      on a tie it was seen first. */
  lemma RankedPair<K(!new)>(s: seq<K>, i: nat, j: nat)
    requires i < j < |Ranked(s)|
    ensures var r := Ranked(s);
      && r[j].1 == Occurrences(s, r[j].0)
      && r[i].1 >= r[j].1
      && (r[i].1 == r[j].1 ==> FirstIndex(s, r[i].0) < FirstIndex(s, r[j].0))
  {
  }

  /** A keyword mentioned at all is listed whenever fewer than twelve keywords exist. */
  lemma FewKeywordsAllListed(h: History, k: string)
    requires k in KeywordsOf(h)
    requires |Ranked(KeywordsOf(h))| <= KeywordLimit
    ensures k in Keys(TopKeywords(h))
  {
    var r := Ranked(KeywordsOf(h));
    assert TopKeywords(h) == r;
  }

  /** Prepending an entry adds its emotions, keywords and suggestion categories to the
      counts and changes nothing else. */
  lemma AddFeedbackCounts(h: History, e: FeedbackEntry, m: Emotion, w: string, c: Category)
    ensures Occurrences(EmotionsOf(AddFeedback(h, e)), m) ==
              Occurrences(EmotionsOf(h), m) + Occurrences(EntryEmotions(e), m)
    ensures Occurrences(KeywordsOf(AddFeedback(h, e)), w) ==
              Occurrences(KeywordsOf(h), w) + Occurrences(EntryKeywords(e), w)
    ensures Occurrences(CategoriesOf(AddFeedback(h, e)), c) ==
              Occurrences(CategoriesOf(h), c) + Occurrences(CategoriesOf([e]), c)
  {
    AddFeedbackContributes(h, e);
    var h' := AddFeedback(h, e);
    AddFeedbackContributes([], e);
    assert AddFeedback([], e) == [e];
    assert CategoriesOf(h') == CategoriesOf([e]) + CategoriesOf(h);
  }
}
