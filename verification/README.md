# Reddit persona generator — a Dafny model

The repository builds a "persona" of a Reddit user from their recent comments
and submissions. It has two front ends over the same idea:

- `persona_spez.py`, a console generator. It measures writing style with five
  style labels, detects five interest categories and four personality traits
  by keyword, tallies the communities the user commented in, and groups
  comment links ("citations") under each interest and trait. Its text report
  lists the five busiest communities, or a single error line.
- `new.py`, a web dashboard (`reddit_persona.py` is a byte-identical copy).
  It uses a three-way style label and three interest categories, collected
  into a set. Its only trait is "Opinionated". It keeps the ten busiest
  communities over comments and posts together, plus sample excerpts.

This project models the pure core of both front ends:

- the text normaliser (`re.sub(r'[^\w\s]', '', t.lower())`);
- Python's substring test and `str.split()`;
- the style analysers, the keyword classifiers and the persona aggregation;
- the ranking of communities.

Every `new.py` row below applies unchanged to `reddit_persona.py`, at the
same line numbers.

The model is layered as follows:

| module | file | contents |
|---|---|---|
| `Seqs` | `seqs.dfy` | order-preserving filter, counting, prefixes, first-occurrence positions |
| `Text` | `text.dfy` | character classes, `Clean`, substring test `Contains`, tokeniser `Tokens` |
| `Tallies` | `tallies.dfy` | `defaultdict(int)` and `Counter` as association lists in insertion order (`TallyOf`); `defaultdict(list)` grouping (`GroupAll`); the stable descending sort and top-n selection (`TopN`) |
| `Classify` | `classify.dfy` | the shared keyword detector |
| `Activity` | `activity.dfy` | the fetched comments and posts as plain values; a failed fetch as `FetchFailed(message)` |
| `StyleMetrics` | `style_metrics.dfy` | emoji test, token totals, the exact average |
| `ConsolePersona` | `console_persona.dfy` | `persona_spez.py` |
| `DashboardPersona` | `dashboard_persona.dfy` | `new.py` / `reddit_persona.py` |
| `Scenarios` | `scenarios.dfy` | worked examples |

Python dictionaries that signal failure with an `"error"` key become
`Result.Err`. The style sentinel ("No text available") is its own variant.

The average word count is stated as an exact rational, `total / n`. The
comparison `average > k` is proved equal to `total > k * n` (lemma
`StyleMetrics.AverageAbove`), so the label rules need no division.

Keyword matching is substring matching, as in the source, so every text
that counts as formal because of "however" is also tagged Curious, through
the "how" inside it (`ConsolePersona.HoweverIsCurious`). Tokens are cut only
at whitespace, so "lol that's hilarious" has three tokens
(`Scenarios.JokeTokens`).

## Model

| member | source | states |
|---|---|---|
| `Text.Lower` | persona_spez.py:30 | lower-casing keeps each character's class (word character, whitespace) and leaves no upper-case ASCII letter |
| `Text.Clean` | persona_spez.py:28-30 | the normal form is the lower-cased text with only word and whitespace characters left, in their original order; it is never longer than the input; each kept character occurs as often as in the lower-cased text, each dropped one not at all |
| `Text.CleanFixesNormalText` | persona_spez.py:28-30 | text that is already lower-case and holds only word and whitespace characters is left unchanged |
| `Text.CleanIdempotent` | new.py:28-29 | normalising twice equals normalising once |
| `Text.CleanConcat` | reddit_persona.py:28-29 | the modelled normaliser (ASCII lower-casing, then a per-character filter) distributes over concatenation; Python's context-dependent `lower()` does not always |
| `Text.ContainsIffOccurs` | persona_spez.py:84 | the scanning `w in text` test holds exactly when `w` occurs at some position of the text as a contiguous block |
| `Text.ContainsInSuffix` | persona_spez.py:94 | a block found in a tail of a text is found in the text |
| `Text.RunLength` | persona_spez.py:43 | the leading run of non-whitespace ends at the first whitespace character or at the end |
| `Text.Tokens` | persona_spez.py:43 | `split()` yields non-empty tokens with no whitespace in them |
| `Text.TokensKeepContent` | persona_spez.py:43 | the tokens put back together are exactly the non-whitespace characters of the text, in order |
| `Text.TokensJoinWords` | new.py:36 | splitting words joined by single spaces gives the words back |
| `Text.WordCountIsTokenStarts` | new.py:36 | `len(t.split())` equals the number of positions where a non-whitespace character follows whitespace or the start |
| `Seqs.Filter` | persona_spez.py:30 | an order-preserving filter keeps exactly the elements that satisfy the predicate |
| `Seqs.FilterMultiset` | persona_spez.py:30 | the filter keeps every occurrence of a selected element and drops every other element |
| `Seqs.FilterSubsequence` | new.py:29 | the filter only deletes elements, so its result is a subsequence of its input |
| `Seqs.FilterConcat` | new.py:29 | filtering distributes over concatenation |
| `Seqs.FilterDistinct` | persona_spez.py:83-85 | filtering a duplicate-free list gives a duplicate-free list |
| `Seqs.CountIf` | persona_spez.py:49-53 | `sum(1 for t in texts if p(t))` lies between 0 and `len(texts)`; it is 0 exactly when no text qualifies and `len(texts)` exactly when all do, so one text counts 1 exactly when it qualifies |
| `Seqs.CountIfConcat` | persona_spez.py:49-53 | the count over a concatenation is the sum of the counts, so with the single-text case it is the number of qualifying texts |
| `StyleMetrics.TotalWords` | persona_spez.py:43 | the total is at least each text's token count, and is 0 exactly when no text has a token |
| `StyleMetrics.TotalWordsConcat` | new.py:36 | the total over a concatenation is the sum of the totals, the empty total is 0 and one text's total is its token count, which fixes the total of every batch |
| `Seqs.UnionOver` | new.py:118 | the flattened set comprehension holds exactly the values some element yields |
| `Seqs.Prefix` | persona_spez.py:135-136 | `s[:n]` has `min(n, len(s))` elements, each the element at the same position of `s` |
| `Seqs.IndexOf` | persona_spez.py:143 | the first position of an element, or the length when it is absent |
| `Tallies.BumpCounts` | persona_spez.py:143 | `d[k] += 1` adds one to `k`'s count and leaves every other count alone |
| `Tallies.BumpKeys` | persona_spez.py:143 | `d[k] += 1` appends a new key at the end and keeps the key order otherwise |
| `Tallies.TallyOfKeys` | new.py:120 | a tally holds each key that occurs, exactly once |
| `Tallies.TallyOfOrder` | persona_spez.py:141-143 | tally keys appear in the order of their first occurrence, which is dictionary insertion order |
| `Tallies.TallyOfCounts` | persona_spez.py:141-143 | each key's count equals its number of occurrences |
| `Tallies.TallyOfTotal` | persona_spez.py:141-143 | the counts add up to the number of keys tallied |
| `Tallies.TallyOfEntries` | new.py:120 | every tally entry holds its key's true, positive count |
| `Tallies.ListOfEntry` | persona_spez.py:146 | in a grouping without repeated keys, `d[k]` is the list stored with `k` |
| `Tallies.ListOfAbsent` | persona_spez.py:123 | a key that was never appended to reads as the empty list |
| `Tallies.PushLists` | persona_spez.py:146 | `d[k].append(v)` extends `k`'s list by `v` and changes no other list |
| `Tallies.PushKeys` | persona_spez.py:146 | `d[k].append(v)` appends a new key at the end and keeps the key order otherwise |
| `Tallies.GroupAllLists` | persona_spez.py:145-149 | grouping stores, under each key, all of that key's values in order |
| `Tallies.GroupAllKeys` | persona_spez.py:145-149 | a grouping has each occurring key once and no empty list |
| `Tallies.SelectConcat` | persona_spez.py:141 | selecting a key's values from a concatenation selects from each part |
| `Tallies.SelectTag` | persona_spez.py:145-149 | the nested loop over items and their duplicate-free labels yields, for each label, exactly the links of the items carrying it, in item order |
| `Tallies.GroupTagLists` | persona_spez.py:145-149 | grouping item links by label stores, under each label, exactly the links of the items carrying it, in item order |
| `Tallies.GroupTagKeys` | persona_spez.py:145-149 | grouping item links by label lists each label once, and lists a label exactly when some item carries it |
| `Tallies.CitingNonEmpty` | persona_spez.py:145-149 | a label has citations exactly when some item carries it |
| `Tallies.InsertDesc` | persona_spez.py:176-177 | one insertion step of the sort adds exactly the inserted entry |
| `Tallies.InsertDescSorted` | persona_spez.py:176-177 | inserting into a list sorted by descending count keeps it sorted |
| `Tallies.InsertDescStable` | persona_spez.py:176-177 | one insertion step puts the inserted entry before every entry of equal count that came later in the input |
| `Tallies.SortDesc` | persona_spez.py:176-177 | `sorted(items, key=count, reverse=True)` is a permutation with non-increasing counts, and it is stable: the entries of each count keep their input order |
| `Tallies.TopN` | persona_spez.py:176-177 | `sorted(...)[:n]` has `min(n, len)` entries, is non-increasing, is drawn from the input, and no entry left out has a larger count than one kept |
| `Tallies.TopNStable` | new.py:120 | ties are broken by input order: for each count, the kept entries of that count are the first ones of the input, in input order |
| `Tallies.TopOfTally` | new.py:120 | ranking a tally keeps true counts, and no key left out occurs more often than a listed one |
| `Tallies.TopNDistinctKeys` | reddit_persona.py:120 | ranking a tally lists each key at most once, so `dict(...)` of it loses nothing |
| `Tallies.TopNKeepsAll` | new.py:120 | asking for at least as many entries as there are keeps every key |
| `Classify.Detect` | persona_spez.py:83-87 | a label is reported exactly when one of its keywords occurs in the normalised text; the result is a subsequence of the label order, and duplicate-free when the label order is |
| `Classify.NoneDetected` | persona_spez.py:83-87 | nothing is detected exactly when no label of the vocabulary has a keyword in the text |
| `Activity.AllTexts` | persona_spez.py:116 | the analysed texts are the comment bodies followed by the post titles |
| `Activity.SomeText` | new.py:109 | some analysed text has a property exactly when some comment body or some post title has it |
| `Activity.Earliest` | persona_spez.py:130-132 | "First Seen" is absent exactly when there are no comments; otherwise it is a comment's creation time no later than any other's |
| `StyleMetrics.AverageAbove` | persona_spez.py:43-44 | the average exceeds a threshold exactly when the total exceeds the threshold times the number of texts |
| `ConsolePersona.ChooseStyle` | persona_spez.py:56-66 | each of the five labels is chosen exactly under its first-match condition on the average, emoji count and formality count |
| `ConsolePersona.AnalyzeWritingStyle` | persona_spez.py:32-68 | the sentinel is returned exactly for no texts; otherwise the sample count, token total, emoji, formality, question and exclamation counts are the counts over the texts, each at most the number of texts, and the label follows the first-match rules |
| `ConsolePersona.DetectInterests` | persona_spez.py:70-87 | a category is reported exactly when one of its keywords is a substring of the normalised text; the result is a duplicate-free subsequence of Technology, Gaming, Sports, Movies/TV, Science |
| `ConsolePersona.NoInterests` | persona_spez.py:83-87 | no category is reported exactly when no keyword occurs |
| `ConsolePersona.DetectPersonalityTraits` | persona_spez.py:89-103 | a trait is reported exactly when one of its keywords is a substring of the normalised text; the result is a duplicate-free subsequence of Opinionated, Humorous, Helpful, Curious |
| `ConsolePersona.NoTraits` | persona_spez.py:94-103 | no trait is reported exactly when no keyword occurs |
| `ConsolePersona.HoweverIsCurious` | persona_spez.py:100 | a text whose normal form contains "however" counts as formal and is also tagged Curious |
| `ConsolePersona.StyleOf` | persona_spez.py:116-121 | a persona's style is always measured, over comments plus posts texts, never the sentinel |
| `ConsolePersona.CommunityTallyKeys` | persona_spez.py:141-143 | the community tally has one entry per community a comment was made in, in order of first appearance |
| `ConsolePersona.CommunityTallyCounts` | persona_spez.py:141-143 | each community's count is its number of comments, and the counts sum to the number of comments |
| `ConsolePersona.SampleLinks` | persona_spez.py:135-136 | the sample citations are the links of the first three items, or of all of them when there are fewer |
| `ConsolePersona.BuildPersona` | persona_spez.py:118-149 | the persona carries "u/" plus the name, the list lengths, both karma values, the style measured over comment bodies then post titles, the comment-community tally, the interest and trait groupings, the earliest comment time, and the sample links |
| `ConsolePersona.GeneratePersona` | persona_spez.py:105-154 | a failed fetch reports its message; no comments and no posts reports "No public activity found"; otherwise exactly the persona built from the fetched account, comments and posts |
| `ConsolePersona.PersonaSummary` | persona_spez.py:130-136 | "First Seen" is absent exactly without comments and otherwise the earliest comment creation time; the cited links are the permalinks of the first three comments and the first three posts |
| `ConsolePersona.PersonaSubreddits` | persona_spez.py:141-143 | the persona's tally counts each community's comments, sums to the number of comments, and lists each commented-in community once, in order of first appearance |
| `ConsolePersona.PersonaInterestCitations` | persona_spez.py:145-146 | the persona lists under each interest exactly the links of the comments showing it, in comment order, and lists the interest exactly when some comment shows it |
| `ConsolePersona.PersonaTraitCitations` | persona_spez.py:148-149 | the persona lists under each trait exactly the links of the comments showing it, in comment order, and lists the trait exactly when some comment shows it |
| `ConsolePersona.GroupedCitations` | persona_spez.py:141-149 | grouping comment links by label holds, per label, exactly the links of the comments showing it, in order, and lists only labels some comment shows |
| `ConsolePersona.InterestCitations` | persona_spez.py:145-146 | each interest's citations are the links of exactly the comments whose body shows that interest |
| `ConsolePersona.TraitCitations` | persona_spez.py:148-149 | each trait's citations are the links of exactly the comments whose body shows that trait |
| `ConsolePersona.CitationCounts` | persona_spez.py:183-189 | the report lists each label with the length of its citation list, in grouping order |
| `ConsolePersona.FormatOutput` | persona_spez.py:156-205 | an error renders as the single line "❌ Error generating persona: " plus the message; otherwise at most five communities with non-increasing counts, drawn from the tally, none outranked by one left out; each interest and trait with the length of its citation list, in grouping order; and the first three comment and post links |
| `ConsolePersona.ReportRanksCommunities` | persona_spez.py:176-179 | end to end, each listed community shows its true comment count, and no community left out has more comments than a listed one |
| `ConsolePersona.CountsAreCitations` | persona_spez.py:183-189 | counts read off a label grouping are the true numbers of citing comments, none zero |
| `ConsolePersona.ReportCitationCounts` | persona_spez.py:183-189 | end to end, each "cited n times" figure of the report is the number of comments showing that interest or trait, and is at least one |
| `DashboardPersona.ChooseStyle` | new.py:41-46 | each of the three labels is chosen exactly under its first-match condition; formality takes no part |
| `DashboardPersona.AnalyzeWritingStyle` | new.py:31-48 | the sentinel is returned exactly for no texts; otherwise the counts are over the texts, at most the number of texts, and formality looks only for "however" and "therefore" |
| `DashboardPersona.StyleAgreesWithConsole` | new.py:41-46 | on the same counts the two front ends agree on "detailed"; the console's casual batches are casual on the dashboard; a console "balanced" batch is dashboard-casual exactly when it has more than three emoji texts |
| `DashboardPersona.DetectInterests` | new.py:50-57 | a category is reported exactly when one of its keywords is a substring of the normalised text; the result is a duplicate-free subsequence of Technology, Gaming, Sports |
| `DashboardPersona.InterestImpliesConsole` | new.py:52-56 | each dashboard keyword list is a prefix of the console's list for the same category, so a dashboard hit is a console hit |
| `DashboardPersona.InterestUnion` | new.py:118 | an interest is in the set exactly when some text shows it |
| `DashboardPersona.InterestsOfActivity` | new.py:109-118 | an interest is collected exactly when some comment body or post title shows it |
| `DashboardPersona.Traits` | new.py:119 | the traits are ["Opinionated"] exactly when some normalised text contains "i think", and [] otherwise |
| `DashboardPersona.TraitsOfActivity` | reddit_persona.py:109-119 | "Opinionated" is reported exactly when some comment body or post title contains "i think" once normalised |
| `DashboardPersona.OpinionatedAgreesWithConsole` | new.py:119 | a text that makes the dashboard report "Opinionated" is tagged Opinionated by the console's trait detector too |
| `DashboardPersona.Excerpt` | new.py:122 | an excerpt is the first at most 200 characters of the body, character for character, followed by "...", which is appended even to short bodies |
| `DashboardPersona.ExcerptRecoversShortBody` | new.py:122 | a body of at most 200 characters is recovered from its excerpt, so such bodies have distinct excerpts |
| `DashboardPersona.Communities` | new.py:110 | the tallied communities are those of all comments, then of all posts |
| `DashboardPersona.SubredditActivityRanks` | new.py:110-120 | the activity chart lists at most ten communities, none twice, each with its true number of comments and posts; no community left out has more activity than a listed one |
| `DashboardPersona.SubredditActivityComplete` | reddit_persona.py:120 | with at most ten communities, every one is charted |
| `DashboardPersona.SampleComments` | new.py:122 | the sample comments are the excerpts of the first three comment bodies |
| `DashboardPersona.SamplePosts` | new.py:123 | the sample posts are the titles of the first three posts |
| `DashboardPersona.BuildPersona` | new.py:109-124 | the persona carries "u/" plus the name, both karma values, the style measured over every text, the interest set and traits of those texts, the top-ten community chart and the samples |
| `DashboardPersona.GeneratePersona` | new.py:99-126 | a failed fetch reports its message; no comments and no posts reports "No public activity found"; otherwise exactly the persona built from the fetched account, comments and posts |
| `DashboardPersona.PersonaInterests` | new.py:118 | an interest is in the persona exactly when some comment body or post title shows it |
| `DashboardPersona.PersonaTraits` | new.py:119 | the persona is ["Opinionated"] exactly when some comment body or post title contains "i think" once normalised, and has no trait otherwise |
| `DashboardPersona.PersonaSubredditActivity` | new.py:110-120 | the persona's chart lists at most ten communities, none twice, each with its true number of comments and posts, and none left out is busier than one listed |
| `DashboardPersona.PersonaSamples` | new.py:122-123 | the persona's samples are the excerpts of the first three comment bodies and the first three post titles |
| `Scenarios.NoActivityScenario` | persona_spez.py:112-113 | a user without activity gets the no-activity error, rendered as the single error line |
| `Scenarios.LongTextsAreDetailed` | persona_spez.py:57-58 | an average of 80 tokens is "Detailed and analytical" even with five emoji texts |
| `Scenarios.JokeTokens` | persona_spez.py:43 | "lol that's hilarious" has three tokens |
| `Scenarios.RankingScenario` | persona_spez.py:176-177 | three comments in "test" and one in "other" rank as test (3), then other (1) |

## Left out

- The platform client: authentication, credentials from environment
  variables, and the fetch of up to 100 comments and 100 posts. Fetched
  activity is an input (`Activity.Fetch`) of any length.
- The catch-all `except Exception` around persona generation. Its outcome
  appears only as the `FetchFailed(message)` input, which turns into
  `Err(message)`; the failure sources are external.
- `datetime.fromtimestamp`, `strftime` and `str(datetime)`: these depend on
  the local time zone. Timestamps stay integers.
- `Activity.Earliest`: "First Seen" is the minimum of the integer timestamps.
  It is not the minimum of local datetimes, which can differ around a
  daylight-saving fold.
- The dashboard's `activity_hours`, which needs local-time hour extraction.
- `save_to_file`: file I/O and wall-clock file names.
- The Streamlit interface, the matplotlib and pandas charts, and the
  console's interactive loop, including how it trims a profile URL down to a
  user name.
- The layout of the text report (emoji headings, line joining) and the
  `:.1f` rendering of the average. `ConsolePersona.FormatOutput` models only
  the computed parts: the error line, the ranked communities, the citation
  counts and the sample links.
- `StyleMetrics.Average`: the average is an exact rational rather than a
  binary floating-point quotient. Its comparisons with the integer
  thresholds 40 and 75 agree with the float ones whenever the token total
  and the text count are below 2^53.
- `Text.IsWordChar`: word characters are restricted to ASCII letters, digits
  and `_`. Python's `\w` also accepts Unicode letters and digits.
- `Text.Lower`: lower-casing is restricted to ASCII letters, one character
  at a time. Python's `lower()` also folds other scripts, can depend on
  context (a final capital sigma lowers to "ς", otherwise to "σ") and can
  lengthen text ("İ" lowers to two code points). `Text.LowerAll` keeping
  the length holds of the model only.
- `Text.CleanConcat`: normalising a concatenation part by part holds of the
  modelled per-character normaliser, not of Python's context-dependent
  `lower()` on non-ASCII text.
- `DashboardPersona.InterestUnion`: `list(set(...))` has no defined order in
  Python, so the model keeps the interests as a set.
