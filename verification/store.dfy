/** The feedback history held at the application root: newest entry first, starting
    empty. Prepending one entry is the only change the views can cause; replacing the
    whole history with the stored one on start-up is left out with persistence. Every
    view receives it by value; the selectors here are the `h.result?.field` walks the
    views share. */
module Store {
  import opened Types
  import opened Seqs

  type History = seq<FeedbackEntry>

  /** The history before anything is loaded or submitted. */
  function InitialHistory(): (h: History)
    ensures |h| == 0
  {
    []
  }

  /** `addFeedback(entry)`: the new entry goes in front; nothing else moves. */
  function AddFeedback(h: History, e: FeedbackEntry): (h': History)
    ensures |h'| == |h| + 1
    ensures h'[0] == e
    ensures h'[1..] == h
  {
    [e] + h
  }

  /** The analysis of an entry, as a zero- or one-element sequence. */
  function EntryResult(e: FeedbackEntry): seq<AnalysisResult>
  {
    match e.result
    case None => []
    case Some(r) => [r]
  }

  function EntryEmotions(e: FeedbackEntry): seq<Emotion>
  {
    match e.result
    case None => []
    case Some(r) => r.emotions
  }

  function EntryKeywords(e: FeedbackEntry): seq<string>
  {
    match e.result
    case None => []
    case Some(r) => r.keywords
  }

  function EntryIssues(e: FeedbackEntry): seq<string>
  {
    match e.result
    case None => []
    case Some(r) => r.keyIssues
  }

  function EntrySuggestions(e: FeedbackEntry): seq<Suggestion>
  {
    match e.result
    case None => []
    case Some(r) => r.suggestions
  }

  /** `history.filter(h => h.result).map(h => h.result!)`. */
  function Results(h: History): seq<AnalysisResult>
  {
    FlatMap(h, EntryResult)
  }

  function EmotionsOf(h: History): seq<Emotion>
  {
    FlatMap(h, EntryEmotions)
  }

  function KeywordsOf(h: History): seq<string>
  {
    FlatMap(h, EntryKeywords)
  }

  function IssuesOf(h: History): seq<string>
  {
    FlatMap(h, EntryIssues)
  }

  /** Every suggestion of every analysed entry, in history order, then list order. */
  function SuggestionsOf(h: History): seq<Suggestion>
  {
    FlatMap(h, EntrySuggestions)
  }

  /** A result is drawn from the history exactly when some entry carries it. */
  lemma ResultsMember(h: History, r: AnalysisResult)
    ensures r in Results(h) <==> exists i :: 0 <= i < |h| && h[i].result == Some(r)
  {
    FlatMapMember(h, EntryResult, r);
    if exists i :: 0 <= i < |h| && h[i].result == Some(r) {
      var i :| 0 <= i < |h| && h[i].result == Some(r);
      assert r in EntryResult(h[i]);
    }
  }

  /** A suggestion is listed exactly when some entry's analysis lists it. */
  lemma SuggestionsMember(h: History, s: Suggestion)
    ensures s in SuggestionsOf(h) <==>
      exists i :: 0 <= i < |h| && h[i].result.Some? && s in h[i].result.value.suggestions
  {
    FlatMapMember(h, EntrySuggestions, s);
  }

  /** An emotion is aggregated exactly when some analysed entry names it. */
  lemma EmotionsMember(h: History, m: Emotion)
    ensures m in EmotionsOf(h) <==>
      exists i :: 0 <= i < |h| && h[i].result.Some? && m in h[i].result.value.emotions
  {
    FlatMapMember(h, EntryEmotions, m);
  }

  /** A keyword is aggregated exactly when some analysed entry lists it. */
  lemma KeywordsMember(h: History, w: string)
    ensures w in KeywordsOf(h) <==>
      exists i :: 0 <= i < |h| && h[i].result.Some? && w in h[i].result.value.keywords
  {
    FlatMapMember(h, EntryKeywords, w);
  }

  /** An issue is aggregated exactly when some analysed entry reports it. */
  lemma IssuesMember(h: History, w: string)
    ensures w in IssuesOf(h) <==>
      exists i :: 0 <= i < |h| && h[i].result.Some? && w in h[i].result.value.keyIssues
  {
    FlatMapMember(h, EntryIssues, w);
  }

  /** Entries without an analysis contribute nothing: removing one changes none of the
      sequences the views aggregate. */
  lemma ResultlessEntryIsInvisible(h: History, i: nat)
    requires i < |h| && h[i].result.None?
    ensures var h' := h[..i] + h[i + 1..];
      && Results(h') == Results(h)
      && EmotionsOf(h') == EmotionsOf(h)
      && KeywordsOf(h') == KeywordsOf(h)
      && IssuesOf(h') == IssuesOf(h)
      && SuggestionsOf(h') == SuggestionsOf(h)
  {
    FlatMapSkipsEmpty(h, EntryResult, i);
    FlatMapSkipsEmpty(h, EntryEmotions, i);
    FlatMapSkipsEmpty(h, EntryKeywords, i);
    FlatMapSkipsEmpty(h, EntryIssues, i);
    FlatMapSkipsEmpty(h, EntrySuggestions, i);
  }

  /** What prepending an entry adds to each aggregated sequence: exactly that entry's
      contribution, in front of the old history's. */
  lemma AddFeedbackContributes(h: History, e: FeedbackEntry)
    ensures var h' := AddFeedback(h, e);
      && Results(h') == EntryResult(e) + Results(h)
      && EmotionsOf(h') == EntryEmotions(e) + EmotionsOf(h)
      && KeywordsOf(h') == EntryKeywords(e) + KeywordsOf(h)
      && IssuesOf(h') == EntryIssues(e) + IssuesOf(h)
      && SuggestionsOf(h') == EntrySuggestions(e) + SuggestionsOf(h)
  {
    var h' := AddFeedback(h, e);
    assert h'[1..] == h;
  }
}
