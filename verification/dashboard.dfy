/** The Dashboard view's derived data: the four summary statistics, the sentiment mix,
    the seven-day trend and the high-priority preview. */
module Dashboard {
  import opened Types
  import opened Seqs
  import opened Rounding
  import opened Tally
  import opened Store

  /** Sum of the sentiment scores of a list of results. */
  function ScoreSum(rs: seq<AnalysisResult>): int
  {
    if |rs| == 0 then 0 else rs[0].sentimentScore + ScoreSum(rs[1..])
  }

  /** `rs.reduce((acc, r) => acc + r.sentimentScore, acc)`: a fold from the left. */
  function ReduceScores(rs: seq<AnalysisResult>, acc: int): int
  {
    if |rs| == 0 then acc else ReduceScores(rs[1..], acc + rs[0].sentimentScore)
  }

  /** The views' left-to-right `reduce` from 0 computes the score sum. */
  lemma {:induction false} ScoreSumIsReduce(rs: seq<AnalysisResult>, acc: int)
    ensures ReduceScores(rs, acc) == acc + ScoreSum(rs)
  {
    if |rs| > 0 {
      ScoreSumIsReduce(rs[1..], acc + rs[0].sentimentScore);
    }
  }

  /** The sentiment labels of a list of results, in order. */
  function Labels(rs: seq<AnalysisResult>): (ls: seq<Sentiment>)
    ensures |ls| == |rs|
    ensures forall i :: 0 <= i < |rs| ==> ls[i] == rs[i].sentimentLabel
  {
    seq(|rs|, i requires 0 <= i < |rs| => rs[i].sentimentLabel)
  }

  /** How many analysed entries of `h` carry label `l`. */
  function LabelCount(h: History, l: Sentiment): nat
  {
    Occurrences(Labels(Results(h)), l)
  }

  /** The count of a label is the length of the results filtered to it, the way the
      positive ratio computes `posCount`. */
  lemma {:induction false} LabelCountIsFilterLength(rs: seq<AnalysisResult>, l: Sentiment)
    ensures Occurrences(Labels(rs), l) == |Filter(rs, (r: AnalysisResult) => r.sentimentLabel == l)|
  {
    if |rs| > 0 {
      LabelCountIsFilterLength(rs[1..], l);
      assert Labels(rs) == [rs[0].sentimentLabel] + Labels(rs[1..]);
    }
  }

  /** The documented, unenforced range of a sentiment score. */
  ghost predicate ScoresInRange(rs: seq<AnalysisResult>)
  {
    forall i :: 0 <= i < |rs| ==> 0 <= rs[i].sentimentScore <= 100
  }

  /** Sums of in-range scores stay within `n` times the range. */
  lemma {:induction false} ScoreSumBounds(rs: seq<AnalysisResult>)
    requires ScoresInRange(rs)
    ensures 0 <= ScoreSum(rs) <= 100 * |rs|
  {
    if |rs| > 0 {
      assert ScoresInRange(rs[1..]) by {
        forall i | 0 <= i < |rs[1..]| ensures 0 <= rs[1..][i].sentimentScore <= 100 {
          assert rs[1..][i] == rs[i + 1];
        }
      }
      ScoreSumBounds(rs[1..]);
    }
  }

  /** The three label counts of a list partition it. */
  lemma {:induction false} LabelCountsPartition(ls: seq<Sentiment>)
    ensures Occurrences(ls, Positive) + Occurrences(ls, Neutral) + Occurrences(ls, Negative) == |ls|
  {
    if |ls| > 0 {
      assert ls == [ls[0]] + ls[1..];
      var m, t := multiset(ls), multiset(ls[1..]);
      assert m == t + multiset{ls[0]};
      LabelCountsPartition(ls[1..]);
      assert forall l :: m[l] == t[l] + (if ls[0] == l then 1 else 0);
    }
  }

  /** The most frequent issue, ties to the first seen; `None` when there are no issues:
      the key `Object.entries(issueMap).sort(...)[0]` names. */
  function TopIssue(issues: seq<string>): (w: Option<string>)
    ensures w.None? <==> |issues| == 0
    ensures w.Some? ==> IsMostFrequent(issues, w.value)
  {
    var r := Ranked(issues);
    RankedEmpty(issues);
    if |r| == 0 then None
    else
      RankedHeadIsMostFrequent(issues);
      Some(r[0].0)
  }

  /** The Dashboard's `stats` memo. With entries but no analysed entry the means divide
      by zero and are NaN. An empty-string top issue is falsy and shows as
      'None detected'. */
  function Stats(h: History): (s: DashboardStats)
    ensures |h| == 0 ==> s == DashboardStats(0, Int(0), Int(0), "N/A")
    ensures |h| > 0 ==> s.totalFeedback == |h|
    ensures |h| > 0 ==> (s.avgSentiment.NaN? <==> |Results(h)| == 0)
    ensures |h| > 0 ==> (s.positiveRatio.NaN? <==> |Results(h)| == 0)
    ensures s.avgSentiment.Int? && |h| > 0 ==>
              IsRounding(s.avgSentiment.value, ScoreSum(Results(h)), |Results(h)|)
    ensures s.positiveRatio.Int? && |h| > 0 ==>
              && IsRounding(s.positiveRatio.value, 100 * LabelCount(h, Positive), |Results(h)|)
              && 0 <= s.positiveRatio.value <= 100
    ensures |h| > 0 && |IssuesOf(h)| == 0 ==> s.topIssue == "None detected"
    ensures |h| > 0 && |IssuesOf(h)| > 0 ==>
              exists w :: IsMostFrequent(IssuesOf(h), w) && s.topIssue == (if w == "" then "None detected" else w)
  {
    if |h| == 0 then DashboardStats(0, Int(0), Int(0), "N/A")
    else
      var results := Results(h);
      var n := |results|;
      var avg := if n == 0 then NaN else Int(RoundDiv(ScoreSum(results), n));
      var pos := LabelCount(h, Positive);
      LabelCountsPartition(Labels(results));
      var ratio := if n == 0 then NaN else Int(RoundDiv(100 * pos, n));
      assert ratio.Int? ==> 0 <= ratio.value <= 100 by {
        if n > 0 {
          RoundingBounds(ratio.value, 100 * pos, n, 0, 100);
        }
      }
      var top := match TopIssue(IssuesOf(h))
        case None => "None detected"
        case Some(w) => if w == "" then "None detected" else w;
      DashboardStats(|h|, avg, ratio, top)
  }

  /** With at least one analysed entry and every score in 0-100, the average is a
      number in 0-100. */
  lemma AverageInRange(h: History)
    requires |Results(h)| > 0
    requires ScoresInRange(Results(h))
    ensures Stats(h).avgSentiment.Int?
    ensures 0 <= Stats(h).avgSentiment.value <= 100
  {
    assert |h| > 0;
    ScoreSumBounds(Results(h));
    RoundingBounds(Stats(h).avgSentiment.value, ScoreSum(Results(h)), |Results(h)|, 0, 100);
  }

  function HasCount(e: (Sentiment, nat)): bool
  {
    e.1 > 0
  }

  /** Dropping zero counts does not change the total. */
  lemma {:induction false} TotalWithoutZeros(es: seq<(Sentiment, nat)>)
    ensures Total(Filter(es, HasCount)) == Total(es)
  {
    if |es| > 0 {
      TotalWithoutZeros(es[1..]);
      if HasCount(es[0]) {
        assert Filter(es, HasCount) == [es[0]] + Filter(es[1..], HasCount);
        TotalAppend([es[0]], Filter(es[1..], HasCount));
      } else {
        assert Filter(es, HasCount) == Filter(es[1..], HasCount);
        assert es[0].1 == 0;
      }
    }
  }

  /** Every label with its count, in the order Positive, Neutral, Negative. */
  function LabelTable(h: History): (t: seq<(Sentiment, nat)>)
    ensures |t| == 3
    ensures forall i :: 0 <= i < 3 ==> SentimentRank(t[i].0) == i && t[i].1 == LabelCount(h, t[i].0)
  {
    [(Positive, LabelCount(h, Positive)),
     (Neutral, LabelCount(h, Neutral)),
     (Negative, LabelCount(h, Negative))]
  }

  /** The label counts add up to the number of analysed entries. */
  lemma LabelTableTotal(h: History)
    ensures Total(LabelTable(h)) == |Results(h)|
  {
    var t := LabelTable(h);
    LabelCountsPartition(Labels(Results(h)));
    var t1, t2 := t[1..], t[2..];
    assert Total(t2) == t[2].1 by {
      assert |t2[1..]| == 0;
    }
    assert t1[1..] == t2;
  }

  /** Labels listed by increasing rank. */
  ghost function RankBefore(): ((Sentiment, nat), (Sentiment, nat)) -> bool
  {
    (a: (Sentiment, nat), b: (Sentiment, nat)) => SentimentRank(a.0) < SentimentRank(b.0)
  }

  lemma SentimentDistributionFacts(h: History, d: seq<(Sentiment, nat)>)
    requires d == Filter(LabelTable(h), HasCount)
    ensures forall l :: LabelCount(h, l) > 0 <==> l in Keys(d)
    ensures Chained(d, RankBefore())
    ensures Total(d) == |Results(h)|
  {
    var t := LabelTable(h);
    LabelTableTotal(h);
    TotalWithoutZeros(t);
    FilterKeepsChained(t, HasCount, RankBefore());
    forall l ensures LabelCount(h, l) > 0 <==> l in Keys(d) {
      LabelShown(h, d, l);
    }
  }

  /** A label is shown exactly when it occurs. */
  lemma LabelShown(h: History, d: seq<(Sentiment, nat)>, l: Sentiment)
    requires d == Filter(LabelTable(h), HasCount)
    ensures LabelCount(h, l) > 0 <==> l in Keys(d)
  {
    var t := LabelTable(h);
    var i := SentimentRank(l);
    assert t[i].0 == l by {
      match l
      case Positive =>
      case Neutral =>
      case Negative =>
    }
    if LabelCount(h, l) > 0 {
      assert HasCount(t[i]);
      var j :| 0 <= j < |d| && d[j] == t[i];
      assert Keys(d)[j] == l;
    }
    if l in Keys(d) {
      var j :| 0 <= j < |d| && Keys(d)[j] == l;
      assert d[j] in t;
    }
  }

  /** The Dashboard's `sentimentData` memo: label counts in the order Positive, Neutral,
      Negative, without the zero ones. */
  function SentimentDistribution(h: History): (d: seq<(Sentiment, nat)>)
    ensures forall i :: 0 <= i < |d| ==> d[i].1 > 0 && d[i].1 == LabelCount(h, d[i].0)
    ensures forall l :: LabelCount(h, l) > 0 <==> l in Keys(d)
    ensures forall i, j :: 0 <= i < j < |d| ==> SentimentRank(d[i].0) < SentimentRank(d[j].0)
    ensures Total(d) == |Results(h)|
  {
    var d := Filter(LabelTable(h), HasCount);
    SentimentDistributionFacts(h, d);
    d
  }

  /** One point of the trend chart: the month-day label and the rounded mean score. */
  datatype TrendPoint = TrendPoint(date: string, score: int)

  /** `h.date.startsWith(day) && h.result`. */
  predicate OnDay(e: FeedbackEntry, day: string)
  {
    day <= e.date && e.result.Some?
  }

  /** An entry is on a day exactly when it is analysed and its date starts with the
      day string. */
  lemma OnDayStartsWith(e: FeedbackEntry, day: string)
    ensures OnDay(e, day) <==> e.result.Some? && |day| <= |e.date| && e.date[..|day|] == day
  {
  }

  /** The analysed entries whose date begins with `day`, in history order. */
  function DayEntries(h: History, day: string): (es: History)
    ensures forall i :: 0 <= i < |es| ==> es[i] in h && OnDay(es[i], day)
    ensures forall i :: 0 <= i < |h| && OnDay(h[i], day) ==> h[i] in es
    ensures forall e {:trigger Occurrences(es, e)} ::
              Occurrences(es, e) == if OnDay(e, day) then Occurrences(h, e) else 0
  {
    Filter(h, e => OnDay(e, day))
  }

  /** `day.slice(5)`: the text after the year, empty for strings of five or fewer. */
  function DayLabel(day: string): (l: string)
    ensures |day| >= 5 ==> day == day[..5] + l
    ensures |day| <= 5 ==> l == []
  {
    if |day| < 5 then [] else day[5..]
  }

  /** The Dashboard's `trendData` memo for the given day strings (the view computes
      them as the ISO dates of the last seven days; here they are a parameter). */
  function Trend(h: History, days: seq<string>): (t: seq<TrendPoint>)
    ensures |t| == |days|
    ensures forall i :: 0 <= i < |days| ==> t[i].date == DayLabel(days[i])
    ensures forall i :: 0 <= i < |days| && |DayEntries(h, days[i])| == 0 ==> t[i].score == 0
    ensures forall i :: 0 <= i < |days| && |DayEntries(h, days[i])| > 0 ==>
              IsRounding(t[i].score, ScoreSum(Results(DayEntries(h, days[i]))), |DayEntries(h, days[i])|)
  {
    seq(|days|, i requires 0 <= i < |days| =>
      var es := DayEntries(h, days[i]);
      TrendPoint(DayLabel(days[i]),
                 if |es| > 0 then RoundDiv(ScoreSum(Results(es)), |es|) else 0))
  }

  /** Every entry of a sub-history carries only results of the history. */
  lemma ResultsOfSubHistory(h: History, es: History)
    requires forall i :: 0 <= i < |es| ==> es[i] in h
    ensures forall r :: r in Results(es) ==> r in Results(h)
  {
    forall r | r in Results(es) ensures r in Results(h) {
      ResultsMember(es, r);
      var i :| 0 <= i < |es| && es[i].result == Some(r);
      var j :| 0 <= j < |h| && h[j] == es[i];
      ResultsMember(h, r);
    }
  }

  /** When every score is in 0-100, so is every point of the trend. */
  lemma TrendInRange(h: History, days: seq<string>)
    requires ScoresInRange(Results(h))
    ensures forall i :: 0 <= i < |days| ==> 0 <= Trend(h, days)[i].score <= 100
  {
    var t := Trend(h, days);
    forall i | 0 <= i < |days| ensures 0 <= t[i].score <= 100 {
      var es := DayEntries(h, days[i]);
      if |es| > 0 {
        ResultsOfSubHistory(h, es);
        var rs := Results(es);
        assert ScoresInRange(rs) by {
          forall k | 0 <= k < |rs| ensures 0 <= rs[k].sentimentScore <= 100 {
            assert rs[k] in Results(h);
          }
        }
        DayEntriesAllAnalysed(es, days[i]);
        ScoreSumBounds(rs);
        RoundingBounds(t[i].score, ScoreSum(rs), |es|, 0, 100);
      }
    }
  }

  /** A list of analysed entries has one result per entry. */
  lemma {:induction false} DayEntriesAllAnalysed(es: History, day: string)
    requires forall i :: 0 <= i < |es| ==> OnDay(es[i], day)
    ensures |Results(es)| == |es|
  {
    if |es| > 0 {
      assert forall i :: 0 <= i < |es[1..]| ==> OnDay(es[1..][i], day) by {
        forall i | 0 <= i < |es[1..]| ensures OnDay(es[1..][i], day) {
          assert es[1..][i] == es[i + 1];
        }
      }
      DayEntriesAllAnalysed(es[1..], day);
      assert OnDay(es[0], day);
    }
  }

  function IsHigh(s: Suggestion): bool
  {
    s.priority == High
  }

  /** `x` is a suggestion of one of the three newest entries. */
  ghost predicate FromNewest(h: History, x: Suggestion)
  {
    exists j :: 0 <= j < 3 && j < |h| && h[j].result.Some? && x in h[j].result.value.suggestions
  }

  /** The "Top Priority Suggestions" card: High suggestions of the three newest entries,
      at most three, in history order. */
  function Preview(h: History): (p: seq<Suggestion>)
    ensures |p| <= 3
    ensures forall i :: 0 <= i < |p| ==> p[i].priority == High && FromNewest(h, p[i])
    ensures |p| < 3 ==> forall x :: FromNewest(h, x) && x.priority == High ==> x in p
    ensures var highs := Filter(SuggestionsOf(Take(h, 3)), IsHigh);
      && p <= highs
      && |p| == if |highs| < 3 then |highs| else 3
  {
    var highs := Filter(SuggestionsOf(Take(h, 3)), IsHigh);
    PreviewCandidates(h, highs);
    Take(highs, 3)
  }

  /** The candidates are exactly the High suggestions of the three newest entries. */
  lemma PreviewCandidates(h: History, highs: seq<Suggestion>)
    requires highs == Filter(SuggestionsOf(Take(h, 3)), IsHigh)
    ensures forall x :: x in highs <==> FromNewest(h, x) && x.priority == High
  {
    var newest := Take(h, 3);
    forall x ensures x in highs <==> FromNewest(h, x) && x.priority == High {
      SuggestionsMember(newest, x);
      if x in highs {
        var j :| 0 <= j < |newest| && newest[j].result.Some? && x in newest[j].result.value.suggestions;
        assert newest[j] == h[j];
      }
      if FromNewest(h, x) && x.priority == High {
        var j :| 0 <= j < 3 && j < |h| && h[j].result.Some? && x in h[j].result.value.suggestions;
        assert newest[j] == h[j];
        var k :| 0 <= k < |SuggestionsOf(newest)| && SuggestionsOf(newest)[k] == x;
        assert IsHigh(SuggestionsOf(newest)[k]);
      }
    }
  }

  /** When the newest entry alone has three High suggestions, the preview is its first
      three, in its own order, repeats included. */
  lemma PreviewOfNewestEntry(h: History)
    requires |h| > 0 && |Filter(EntrySuggestions(h[0]), IsHigh)| >= 3
    ensures Preview(h) == Filter(EntrySuggestions(h[0]), IsHigh)[..3]
  {
    var newest := Take(h, 3);
    var front := Filter(EntrySuggestions(h[0]), IsHigh);
    assert newest[0] == h[0];
    assert SuggestionsOf(newest) == EntrySuggestions(h[0]) + SuggestionsOf(newest[1..]);
    FilterAppend(EntrySuggestions(h[0]), SuggestionsOf(newest[1..]), IsHigh);
    var highs := Filter(SuggestionsOf(newest), IsHigh);
    assert highs == front + Filter(SuggestionsOf(newest[1..]), IsHigh);
    assert Preview(h) == highs[..3];
  }

  /** The empty history shows the documented sentinels, an empty mix, a flat trend and
      no preview. */
  lemma EmptyHistoryDashboard(days: seq<string>)
    ensures Stats(InitialHistory()) == DashboardStats(0, Int(0), Int(0), "N/A")
    ensures SentimentDistribution(InitialHistory()) == []
    ensures forall i :: 0 <= i < |days| ==> Trend(InitialHistory(), days)[i].score == 0
    ensures Preview(InitialHistory()) == []
  {
  }

  /** Prepending an entry counts one more feedback and one more of its label, and
      nothing else. */
  lemma AddFeedbackCounts(h: History, e: FeedbackEntry, l: Sentiment)
    ensures Stats(AddFeedback(h, e)).totalFeedback == |h| + 1
    ensures LabelCount(AddFeedback(h, e), l) ==
              LabelCount(h, l) + (if e.result.Some? && e.result.value.sentimentLabel == l then 1 else 0)
  {
    var h' := AddFeedback(h, e);
    assert Results(h') == EntryResult(e) + Results(h) by {
      assert h'[0] == e && h'[1..] == h;
    }
    var added, prior := Labels(EntryResult(e)), Labels(Results(h));
    assert Labels(Results(h')) == added + prior;
    assert multiset(Labels(Results(h'))) == multiset(added) + multiset(prior);
    match e.result
    case None =>
      assert added == [];
    case Some(r) =>
      assert added == [r.sentimentLabel];
  }
}
