/** The records and enumerations every view of the feedback dashboard works on.
    String-literal unions become enumerations; optional fields become `Option`. */
module Types {

  datatype Option<+T> = None | Some(value: T)

  datatype Sentiment = Positive | Neutral | Negative

  datatype Emotion = Happy | Angry | Frustrated | Satisfied | Confused

  datatype Priority = High | Medium | Low

  /** `UiUx` stands for the category spelled 'UI/UX'. */
  datatype Category = UiUx | Performance | Content | Support | Pricing | Other

  datatype Suggestion = Suggestion(
    id: string,
    title: string,
    description: string,
    category: Category,
    priority: Priority,
    actionItems: seq<string>)

  /** `sentimentScore` is documented as 0-100 but nothing enforces it, so it is an `int`. */
  datatype AnalysisResult = AnalysisResult(
    summary: string,
    sentimentScore: int,
    sentimentLabel: Sentiment,
    emotions: seq<Emotion>,
    keywords: seq<string>,
    keyIssues: seq<string>,
    suggestions: seq<Suggestion>,
    timestamp: string)

  datatype FeedbackEntry = FeedbackEntry(
    id: string,
    content: string,
    source: string,
    date: string,
    result: Option<AnalysisResult>)

  /** A number as the dashboard can display it: an integer, or NaN when a mean is taken
      over zero results. */
  datatype Num = Int(value: int) | NaN

  datatype DashboardStats = DashboardStats(
    totalFeedback: nat,
    avgSentiment: Num,
    positiveRatio: Num,
    topIssue: string)

  /** A select box that is either 'All' or one value. */
  datatype Choice<T> = All | Only(value: T)

  /** Position of a label in the fixed Positive, Neutral, Negative order. */
  function SentimentRank(l: Sentiment): (r: nat)
    ensures r < |Sentiments| && Sentiments[r] == l
  {
    match l
    case Positive => 0
    case Neutral => 1
    case Negative => 2
  }

  const Sentiments: seq<Sentiment> := [Positive, Neutral, Negative]
  const Emotions: seq<Emotion> := [Happy, Angry, Frustrated, Satisfied, Confused]
  const Priorities: seq<Priority> := [High, Medium, Low]
  const Categories: seq<Category> := [UiUx, Performance, Content, Support, Pricing, Other]

  /** Each enumeration has exactly the values its type union lists, each once. */
  lemma EnumerationsAreExhaustive()
    ensures forall s: Sentiment :: s in Sentiments
    ensures forall e: Emotion :: e in Emotions
    ensures forall p: Priority :: p in Priorities
    ensures forall c: Category :: c in Categories
    ensures forall i, j :: 0 <= i < j < |Sentiments| ==> Sentiments[i] != Sentiments[j]
    ensures forall i, j :: 0 <= i < j < |Emotions| ==> Emotions[i] != Emotions[j]
    ensures forall i, j :: 0 <= i < j < |Priorities| ==> Priorities[i] != Priorities[j]
    ensures forall i, j :: 0 <= i < j < |Categories| ==> Categories[i] != Categories[j]
  {
    forall s: Sentiment ensures s in Sentiments {
      match s
      case Positive => assert Sentiments[0] == s;
      case Neutral => assert Sentiments[1] == s;
      case Negative => assert Sentiments[2] == s;
    }
    forall e: Emotion ensures e in Emotions {
      match e
      case Happy => assert Emotions[0] == e;
      case Angry => assert Emotions[1] == e;
      case Frustrated => assert Emotions[2] == e;
      case Satisfied => assert Emotions[3] == e;
      case Confused => assert Emotions[4] == e;
    }
    forall p: Priority ensures p in Priorities {
      match p
      case High => assert Priorities[0] == p;
      case Medium => assert Priorities[1] == p;
      case Low => assert Priorities[2] == p;
    }
    forall c: Category ensures c in Categories {
      match c
      case UiUx => assert Categories[0] == c;
      case Performance => assert Categories[1] == c;
      case Content => assert Categories[2] == c;
      case Support => assert Categories[3] == c;
      case Pricing => assert Categories[4] == c;
      case Other => assert Categories[5] == c;
    }
  }
}
