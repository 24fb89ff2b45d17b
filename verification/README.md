# Feedback dashboard: the derivation layer

The application collects customer feedback. Each piece is analysed into sentiment,
emotions, keywords, key issues and improvement suggestions. Every view derives its
figures from one in-memory history of feedback entries, newest first. This project
models those derivations as pure Dafny functions over an immutable history and proves
what each figure means:

- the history store and the one way it changes (`Store`);
- the Dashboard's summary statistics, sentiment mix, daily trend and high-priority
  preview (`Dashboard`);
- the Suggestions view's deduplicated, filtered, priority-sorted list (`Suggestions`);
- the Reports view's emotion distribution, category mix and keyword cloud (`Reports`).

Shared building blocks:

- `Tally` models a `Record<string, number>` counter. It covers `Object.entries` and the
  entries sorted by count.
- `StableSort` models `Array.prototype.sort` with a weight comparator. The sort is stable,
  and `StableSortUnique` shows that stability fixes its output.
- `Rounding` models `Math.round` of a quotient.
- `Seqs` holds the array helpers `filter`, `slice` and `flatMap`, and the first position of an element, which specifies `find` and the order keys are inserted in.

Numbers are exact integers. When there are entries but none is analysed, the average
and the ratio divide 0 by 0. That gives `NaN`, which the model keeps as a value (`Num`)
rather than ruling out by a precondition.

## Model

| member | source | states |
|---|---|---|
| Types.EnumerationsAreExhaustive | types.ts:2-5 | Each of the four string unions has exactly the listed values, each listed once. |
| Types.SentimentRank | pages/Dashboard.tsx:84-86 | The rank of a label is its slot in the Positive, Neutral, Negative order of the sentiment chart. |
| Store.InitialHistory | App.tsx:121 | The application starts with no feedback. |
| Store.AddFeedback | App.tsx:131-135 | Adding feedback puts the new entry first and leaves every older entry in place and in order. |
| Store.ResultsMember | pages/Dashboard.tsx:59 | An analysis is among the results exactly when some entry of the history carries it. |
| Store.SuggestionsMember | pages/Dashboard.tsx:186 | A suggestion is among the flattened suggestions exactly when some analysed entry lists it. |
| Store.EmotionsMember | pages/Reports.tsx:35-38 | An emotion is among the flattened emotions exactly when some analysed entry names it. |
| Store.KeywordsMember | pages/Reports.tsx:166 | A keyword is among the flattened keywords exactly when some analysed entry lists it. |
| Store.IssuesMember | pages/Dashboard.tsx:65 | An issue is among the flattened issues exactly when some analysed entry reports it. |
| Store.ResultlessEntryIsInvisible | pages/Dashboard.tsx:59 | An entry without an analysis changes none of the aggregated results, emotions, keywords, issues or suggestions. |
| Store.AddFeedbackContributes | App.tsx:131-135 | After adding an entry, each aggregated sequence is that entry's contribution followed by the old one. |
| Seqs.FirstIndex | pages/Suggestions.tsx:91 | The first position of an element: it holds the element, and no earlier position does. |
| Seqs.FirstIndexUnique | pages/Suggestions.tsx:91 | The first position is the only one with no earlier occurrence. |
| Seqs.Filter | pages/Suggestions.tsx:98-101 | A filter keeps exactly the elements satisfying the predicate, each as many times as it occurs in the input. |
| Seqs.FilterFilter | pages/Suggestions.tsx:98-101 | Two filters in a row are one filter by the conjunction of their predicates. |
| Seqs.FilterSingleton | pages/Suggestions.tsx:98-101 | A one-element sequence is kept exactly when its element satisfies the predicate. |
| Seqs.FilterAppend | pages/Dashboard.tsx:186 | Filtering a concatenation filters each part and concatenates the results, so a filter keeps its input's order, repeated elements included. |
| Seqs.FilterKeepsChained | pages/Dashboard.tsx:87 | A relation that holds between every earlier and later element of the input still holds between every earlier and later element kept. |
| Seqs.FilterAllTrue | pages/Suggestions.tsx:98-101 | A filter that accepts everything returns its input unchanged. |
| Seqs.Take | pages/Reports.tsx:167 | `slice(0, n)` keeps the first n elements, or all of them when there are fewer. |
| Seqs.FlatMapMember | pages/Dashboard.tsx:186 | An element of a flat map comes from some element's image, and every image element appears. |
| Seqs.FlatMapAppend | pages/Dashboard.tsx:186 | The flat map of a concatenation is the concatenation of the flat maps: images come in input order. |
| Rounding.RoundDiv | pages/Dashboard.tsx:72-73 | `Math.round(num / den)` is the integer within half a unit of the quotient, halves rounding up. |
| Rounding.RoundingUnique | pages/Dashboard.tsx:72-73 | Only one integer is a rounding of a given quotient. |
| Rounding.RoundingBounds | pages/Dashboard.tsx:73 | Rounding a quotient that lies between two integers gives a value between them. |
| StableSort.Sort | pages/Suggestions.tsx:102-105 | The sort permutes its input, orders it by non-increasing weight, and keeps each weight class in input order. |
| StableSort.StableSortUnique | pages/Suggestions.tsx:102-105 | A permutation that is ordered by weight and keeps each weight class in input order is the sort's result. |
| StableSort.SortKeepsTiesOrdered | pages/Suggestions.tsx:102-105 | Any relation between equal-weight elements in input order also holds in sorted order. |
| StableSort.SortKeepsDistinctKeys | pages/Suggestions.tsx:102-105 | Sorting never makes two elements share a key. |
| Tally.Bump | pages/Reports.tsx:37 | One counting step: the key's count becomes its old count, or 0, plus one; no other count changes; a key new to the counter goes last in insertion order. |
| Tally.Entries | pages/Reports.tsx:40 | `Object.entries` gives one (key, count) pair per key, in insertion order. |
| Tally.TallyOf | pages/Reports.tsx:34-39 | The running counter holds every element seen, each with its number of occurrences. |
| Tally.TallyOrder | pages/Reports.tsx:40 | The counter's keys are in order of first occurrence, as `Object.entries` lists them. |
| Tally.TallyTotal | pages/Reports.tsx:34-39 | The counts add up to the number of elements counted. |
| Tally.Frequencies | pages/Reports.tsx:34-40 | Each distinct element appears once, with its exact count, in order of first occurrence, and the counts add up to the input length. |
| Tally.Ranked | pages/Reports.tsx:165-167 | The entries sorted by count: every distinct element once with its count, counts non-increasing, and ties in order of first occurrence. |
| Tally.RankedEmpty | pages/Dashboard.tsx:68 | The ranking has no rows exactly when there was nothing to count. |
| Tally.RankedHeadIsMostFrequent | pages/Dashboard.tsx:64-68 | The first ranked key occurs, no key occurs more often, and every key occurring as often is first seen later. |
| Tally.MostFrequentUnique | pages/Dashboard.tsx:68 | At most one key is the most frequent in that sense. |
| Dashboard.ScoreSumIsReduce | pages/Dashboard.tsx:60 | The left-to-right `reduce` of the scores from 0 is the score sum. |
| Dashboard.LabelCountIsFilterLength | pages/Dashboard.tsx:61 | A label's count is the length of the results filtered to that label. |
| Dashboard.LabelCountsPartition | pages/Dashboard.tsx:79-83 | The Positive, Neutral and Negative counts add up to the number of labels counted. |
| Dashboard.ScoreSumBounds | types.ts:18 | With every score in 0-100, the sum of n scores lies between 0 and 100n. |
| Dashboard.TopIssue | pages/Dashboard.tsx:64-68 | The top issue is absent exactly when no issue was reported; otherwise it is the most frequent issue, ties going to the first seen. |
| Dashboard.Stats | pages/Dashboard.tsx:56-76 | Empty history gives the sentinels 0, 0, 0 and 'N/A'. Otherwise the total is the history length. Both means are NaN exactly when nothing is analysed; otherwise they are the rounded mean score and the rounded positive percentage in 0-100. The top issue is the most frequent issue, or 'None detected' when there is none or it is empty. |
| Dashboard.AverageInRange | pages/Dashboard.tsx:60-72 | With at least one analysed entry and scores in 0-100, the average is a number in 0-100. |
| Dashboard.LabelTable | pages/Dashboard.tsx:84-86 | The three chart rows come in label order, each with that label's count. |
| Dashboard.LabelTableTotal | pages/Dashboard.tsx:79-86 | The three chart counts add up to the number of analysed entries. |
| Dashboard.TotalWithoutZeros | pages/Dashboard.tsx:87 | Dropping zero-count rows does not change the total. |
| Dashboard.LabelShown | pages/Dashboard.tsx:78-88 | A label is shown exactly when its count among the analysed entries is positive. |
| Dashboard.SentimentDistribution | pages/Dashboard.tsx:78-88 | Every row has a positive count equal to its label's count. A label appears exactly when it occurs. Rows stay in Positive, Neutral, Negative order, and the counts add up to the number of analysed entries. |
| Dashboard.OnDayStartsWith | pages/Dashboard.tsx:99 | An entry is on a day exactly when it is analysed and its date starts with the day string. |
| Dashboard.DayEntries | pages/Dashboard.tsx:99 | An entry is counted for a day exactly when it is analysed and its date starts with that day, and it is counted as many times as it occurs in the history. |
| Dashboard.DayLabel | pages/Dashboard.tsx:103 | The label is the day string after its first five characters, and empty for shorter strings. |
| Dashboard.Trend | pages/Dashboard.tsx:90-105 | There is one point per day. A day with no analysed entry scores 0; otherwise it scores the rounded mean score of that day's entries. |
| Dashboard.TrendInRange | pages/Dashboard.tsx:100-103 | With scores in 0-100, every trend point is in 0-100. |
| Dashboard.PreviewCandidates | pages/Dashboard.tsx:186 | The candidates are exactly the High suggestions of the three newest entries. |
| Dashboard.Preview | pages/Dashboard.tsx:186 | The first three High suggestions of the three newest entries, in history order, or all of them when there are fewer. |
| Dashboard.PreviewOfNewestEntry | pages/Dashboard.tsx:186 | When the newest entry alone has three High suggestions, the preview is its first three, in its own order, repeats included. |
| Dashboard.EmptyHistoryDashboard | pages/Dashboard.tsx:57 | With no feedback the dashboard shows the sentinels, no sentiment rows, a flat trend and no preview. |
| Dashboard.AddFeedbackCounts | App.tsx:131-135 | Adding feedback raises the total by one and the count of the new entry's label by one, and changes no other label's count. |
| Suggestions.Weight | pages/Suggestions.tsx:103 | A priority weighs between 1 and 3. |
| Suggestions.WeightOrder | pages/Suggestions.tsx:103-104 | High weighs more than Medium, and Medium more than Low. |
| Suggestions.WeightInjective | pages/Suggestions.tsx:103-104 | Two priorities weigh the same exactly when they are equal. |
| Suggestions.DedupStep | pages/Suggestions.tsx:91-93 | A suggestion whose title is already listed leaves the list alone; any other is appended, and the list stays a deduplication. |
| Suggestions.DedupByTitle | pages/Suggestions.tsx:86-96 | The list has one suggestion per title of the input. Each is the first suggestion with that title, and they appear in order of first occurrence. |
| Suggestions.DedupOfDistinct | pages/Suggestions.tsx:91 | A list with distinct titles is kept as it is. |
| Suggestions.DedupIdempotent | pages/Suggestions.tsx:86-96 | Deduplicating twice gives the same list as deduplicating once. |
| Suggestions.DedupUnique | pages/Suggestions.tsx:86-96 | Any list with the deduplication properties is the one the loop builds. |
| Suggestions.ApplyFilters | pages/Suggestions.tsx:98-101 | A suggestion is kept exactly when it matches both selectors, as many times as it occurs, and with both on All nothing is dropped. |
| Suggestions.SelectorsCompose | pages/Suggestions.tsx:98-101 | The selectors act independently: both at once narrow the list as priority first and then category would. |
| Suggestions.AllSuggestions | pages/Suggestions.tsx:85-106 | The result is the stable sort of the filtered deduplication. Titles are distinct, and every suggestion matches the selectors and is the first with its title. The order is High, Medium, Low, with equal priorities in order of first appearance. |
| Suggestions.AllTitlesListed | pages/Suggestions.tsx:85-106 | With both selectors on All, every title of the history is listed, each by one suggestion. |
| Reports.EmotionDistribution | pages/Reports.tsx:33-41 | Every mentioned emotion appears once, with its number of mentions, in order of first mention, and the counts add up to all mentions. |
| Reports.EmotionListed | pages/Reports.tsx:35-38 | An emotion is listed exactly when some analysed entry names it. |
| Reports.CategoriesOf | pages/Reports.tsx:46-47 | There is one category per suggestion of the history, in order. |
| Reports.CategoryMix | pages/Reports.tsx:43-51 | Every category used appears once, with its number of suggestions, in order of first use. The counts add up to the number of suggestions, duplicates included. |
| Reports.CategoryListed | pages/Reports.tsx:45-48 | A category is listed exactly when some suggestion has it. |
| Reports.TopKeywords | pages/Reports.tsx:167 | The cloud has twelve rows, or every keyword when there are fewer. |
| Reports.TopKeywordsRanked | pages/Reports.tsx:164-168 | Each row is a keyword with its mention count, no keyword twice, counts non-increasing, ties in order of first mention. |
| Reports.UnlistedKeywordRanksLower | pages/Reports.tsx:167 | A keyword left out means all twelve rows are filled, and it is mentioned less than the last row or as often but first mentioned later. |
| Reports.FewKeywordsAllListed | pages/Reports.tsx:167 | With at most twelve distinct keywords, every keyword is listed. |
| Reports.AddFeedbackCounts | App.tsx:131-135 | Adding feedback adds the new entry's emotions, keywords and categories to the counts and changes nothing else. |

## Left out

- Persistence: loading from and saving to `localStorage` and JSON (App.tsx:124-134) are I/O. The model keeps only the in-memory history.
- Calling the analysis service, the Analyze and Settings pages, and all rendering, routing and chart drawing: these are I/O or presentation.
- The seven trend days come from the clock (`new Date()`, `toISOString`). `Dashboard.Trend` takes the day strings as a parameter.
- Floating point: scores are integers and quotients are exact. The Dashboard computes the ratio as `(posCount / n) * 100` in binary floating point, which can round a result that is exactly .5 down (57 of 200 gives 28.499999999999996, so 28 rather than 29). The model rounds the exact value 100·posCount/n.
- `Dashboard.Stats`: the program's own types allow any number as a score. The range 0-100 is only a comment (types.ts:18), so `AverageInRange` and `TrendInRange` take it as a precondition.
- `Tally.Frequencies`, `Tally.Ranked`: a JavaScript object used as a counter lists integer-like keys (such as "42") first, in numeric order. Keys that name `Object.prototype` members (`toString`, `constructor`, `__proto__`) read inherited values. The model treats the counter as a plain map with keys in insertion order, so it assumes no keyword or issue has either form.
- Values outside the unions of types.ts are not modelled. The analysis service's response schema declares the label, emotions, category and priority as free strings (geminiService.ts:12-16, 27-28), and nothing checks them. In the view, an unknown label still counts as analysed but lands in no chart row, so the chart total would fall short of `Dashboard.SentimentDistribution`'s. An unknown priority makes the comparator return `NaN`. An unknown emotion or category gets a row of its own. The model's datatypes admit only the listed values.
- Emotions and categories are counted by enum value rather than by name. The names are distinct (`UiUx` stands for 'UI/UX'), so the counts and the order agree.
- The analysis result's string fields and the entry's id, content and source are carried as data. None of the modelled derivations reads them.
- Display formatting is not modelled. This includes the top-issue card's cut to 15 characters plus '...' (pages/Dashboard.tsx:113).
