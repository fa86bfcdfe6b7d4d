/** The console persona generator (persona_spez.py): writing-style analysis
    with five style labels, five interest categories, four personality
    traits, per-community tallies and citations over comments, and the text
    report's top-five community selection. */
module ConsolePersona {
  import opened Outcomes
  import opened Seqs
  import opened Text
  import opened Tallies
  import opened Activity
  import opened StyleMetrics
  import Classify

  // ------------------------------------------------------------ writing style

  /** Thresholds of the style rules, tried in this order. */
  const DetailedAbove: nat := 75
  const BalancedAbove: nat := 40
  const CasualEmojiAbove: nat := 3
  const FormalAbove: nat := 5

  /** Connectives whose presence in the normalised text marks it as formal. */
  const Connectives: seq<string> := ["however", "therefore", "moreover"]

  datatype StyleLabel =
    | DetailedAndAnalytical
    | BalancedAndThoughtful
    | CasualAndExpressive
    | FormalAndStructured
    | StraightforwardAndConcise
  {
    function Name(): string {
      match this
      case DetailedAndAnalytical => "Detailed and analytical"
      case BalancedAndThoughtful => "Balanced and thoughtful"
      case CasualAndExpressive => "Casual and expressive"
      case FormalAndStructured => "Formal and structured"
      case StraightforwardAndConcise => "Straightforward and concise"
    }
  }

  /** The style label: the first rule that matches wins. */
  function ChooseStyle(totalWords: nat, samples: nat, emojiUsage: nat, formalityScore: nat): (r: StyleLabel)
    requires samples > 0
    ensures r == DetailedAndAnalytical <==> Average(totalWords, samples) > DetailedAbove as real
    ensures r == BalancedAndThoughtful <==>
              BalancedAbove as real < Average(totalWords, samples) <= DetailedAbove as real
    ensures r == CasualAndExpressive <==>
              Average(totalWords, samples) <= BalancedAbove as real && emojiUsage > CasualEmojiAbove
    ensures r == FormalAndStructured <==>
              && Average(totalWords, samples) <= BalancedAbove as real
              && emojiUsage <= CasualEmojiAbove
              && formalityScore > FormalAbove
    ensures r == StraightforwardAndConcise <==>
              && Average(totalWords, samples) <= BalancedAbove as real
              && emojiUsage <= CasualEmojiAbove
              && formalityScore <= FormalAbove
  {
    AverageAbove(totalWords, samples, DetailedAbove);
    AverageAbove(totalWords, samples, BalancedAbove);
    if totalWords > DetailedAbove * samples then DetailedAndAnalytical
    else if totalWords > BalancedAbove * samples then BalancedAndThoughtful
    else if emojiUsage > CasualEmojiAbove then CasualAndExpressive
    else if formalityScore > FormalAbove then FormalAndStructured
    else StraightforwardAndConcise
  }

  /** The measured style of a non-empty batch; the average word count is
      `totalWords / samples`. */
  datatype Metrics = Metrics(
    totalWords: nat,
    samples: nat,
    emojiUsage: nat,
    formalityScore: nat,
    questionFrequency: nat,
    exclamationFrequency: nat,
    description: StyleLabel)

  /** The analyser's result. `NoTextAvailable` stands for the sentinel
      dictionary (description "No text available", average word count, emoji
      usage and formality score 0, readability "N/A"). */
  datatype WritingStyle = NoTextAvailable | Measured(metrics: Metrics)
  {
    function Description(): string {
      match this
      case NoTextAvailable => "No text available"
      case Measured(m) => m.description.Name()
    }
  }

  /** The normalised text contains a connective. */
  predicate IsFormal(t: string) {
    ContainsAny(Clean(t), Connectives)
  }

  /** The raw text contains a question mark. */
  predicate AsksQuestion(t: string) {
    Contains(t, "?")
  }

  /** The raw text contains an exclamation mark. */
  predicate Exclaims(t: string) {
    Contains(t, "!")
  }

  function AnalyzeWritingStyle(texts: seq<string>): (r: WritingStyle)
    ensures r.NoTextAvailable? <==> texts == []
    ensures r.Measured? ==>
              && r.metrics.samples == |texts|
              && r.metrics.totalWords == TotalWords(texts)
              && r.metrics.emojiUsage == CountIf(HasEmoji, texts) <= |texts|
              && r.metrics.formalityScore == CountIf(IsFormal, texts) <= |texts|
              && r.metrics.questionFrequency == CountIf(AsksQuestion, texts) <= |texts|
              && r.metrics.exclamationFrequency == CountIf(Exclaims, texts) <= |texts|
              && r.metrics.description ==
                 ChooseStyle(r.metrics.totalWords, |texts|, r.metrics.emojiUsage, r.metrics.formalityScore)
  {
    if texts == [] then NoTextAvailable
    else
      var total := TotalWords(texts);
      var emoji := CountIf(HasEmoji, texts);
      var formality := CountIf(IsFormal, texts);
      Measured(Metrics(
        total, |texts|, emoji, formality,
        CountIf(AsksQuestion, texts), CountIf(Exclaims, texts),
        ChooseStyle(total, |texts|, emoji, formality)))
  }

  // ------------------------------------------------------- keyword classifiers

  datatype Interest = Technology | Gaming | Sports | MoviesTV | Science
  {
    function Name(): string {
      match this
      case Technology => "Technology"
      case Gaming => "Gaming"
      case Sports => "Sports"
      case MoviesTV => "Movies/TV"
      case Science => "Science"
    }
  }

  /** The interest categories, in the order the source checks them. */
  const Interests: seq<Interest> := [Technology, Gaming, Sports, MoviesTV, Science]

  lemma InterestListed(i: Interest)
    ensures i in Interests
  {
  }

  function InterestKeywords(i: Interest): seq<string> {
    match i
    case Technology => ["python", "programming", "javascript", "linux", "github"]
    case Gaming => ["game", "gaming", "playstation", "xbox", "nintendo"]
    case Sports => ["football", "basketball", "soccer", "nba", "nfl"]
    case MoviesTV => ["movie", "netflix", "marvel", "star wars", "tv show"]
    case Science => ["space", "physics", "biology", "research", "astronomy"]
  }

  /** The categories with a keyword in the normalised text, in category order. */
  function DetectInterests(text: string): (r: seq<Interest>)
    ensures forall i :: i in r <==> ContainsAny(Clean(text), InterestKeywords(i))
    ensures IsSubsequence(r, Interests)
    ensures Distinct(r)
  {
    assert Distinct(Interests);
    forall i: Interest {
      InterestListed(i);
    }
    Classify.Detect(Interests, InterestKeywords, Clean(text))
  }

  /** Nothing is detected exactly when no keyword occurs. */
  lemma NoInterests(text: string)
    ensures DetectInterests(text) == [] <==> forall i: Interest :: !ContainsAny(Clean(text), InterestKeywords(i))
  {
    Classify.NoneDetected(Interests, InterestKeywords, Clean(text));
    forall i: Interest {
      InterestListed(i);
    }
  }

  /** The four personality traits, in the order the console lists them. */
  datatype Trait = Opinionated | Humorous | Helpful | Curious
  {
    function Name(): string {
      match this
      case Opinionated => "Opinionated"
      case Humorous => "Humorous"
      case Helpful => "Helpful"
      case Curious => "Curious"
    }
  }

  /** The traits, in the order the source checks them. */
  const Traits: seq<Trait> := [Opinionated, Humorous, Helpful, Curious]

  lemma TraitListed(t: Trait)
    ensures t in Traits
  {
  }

  function TraitKeywords(t: Trait): seq<string> {
    match t
    case Opinionated => ["i think", "in my opinion", "i believe"]
    case Humorous => ["lol", "haha", "funny", "joke"]
    case Helpful => ["help", "advice", "suggestion"]
    case Curious => ["why", "how", "explain"]
  }

  /** The traits with a keyword in the normalised text, in trait order. */
  function DetectPersonalityTraits(text: string): (r: seq<Trait>)
    ensures forall t :: t in r <==> ContainsAny(Clean(text), TraitKeywords(t))
    ensures IsSubsequence(r, Traits)
    ensures Distinct(r)
  {
    assert Distinct(Traits);
    forall t: Trait {
      TraitListed(t);
    }
    Classify.Detect(Traits, TraitKeywords, Clean(text))
  }

  /** Nothing is detected exactly when no keyword occurs. */
  lemma NoTraits(text: string)
    ensures DetectPersonalityTraits(text) == [] <==> forall t: Trait :: !ContainsAny(Clean(text), TraitKeywords(t))
  {
    Classify.NoneDetected(Traits, TraitKeywords, Clean(text));
    forall t: Trait {
      TraitListed(t);
    }
  }

  /** Keywords match as substrings, not whole words: every text that counts
      as formal for "however" is also tagged Curious, through the "how"
      inside it. */
  lemma HoweverIsCurious(text: string)
    ensures Contains(Clean(text), "however") ==> IsFormal(text) && Curious in DetectPersonalityTraits(text)
  {
    var c := Clean(text);
    ContainsIffOccurs(c, "however");
    if Contains(c, "however") {
      var i :| OccursAt(c, "however", i);
      assert c[i..i + 3] == c[i..i + 7][..3];
      assert OccursAt(c, "how", i);
      ContainsIffOccurs(c, "how");
      assert "however" in Connectives;
      assert "how" in TraitKeywords(Curious);
    }
  }

  // ------------------------------------------------------------------ persona

  /** How many comment and submission links the report cites as samples. */
  const CitationSamples: nat := 3

  /** The persona dictionary. The writing style of a persona is always
      measured: a persona is only built from a non-empty batch of texts. */
  datatype Persona = Persona(
    username: string,
    accountCreated: int,
    writingStyle: Metrics,
    preferredSubreddits: Tally<string>,
    interests: Groups<Interest, string>,
    traits: Groups<Trait, string>,
    totalComments: nat,
    totalPosts: nat,
    commentKarma: int,
    postKarma: int,
    firstSeen: Option<int>,
    commentCitations: seq<string>,
    postCitations: seq<string>)

  function InterestsOf(c: Item): seq<Interest> { DetectInterests(c.text) }
  function TraitsOf(c: Item): seq<Trait> { DetectPersonalityTraits(c.text) }

  /** The measured style of a user's comment bodies followed by post titles. */
  function StyleOf(comments: seq<Item>, posts: seq<Item>): (m: Metrics)
    requires comments != [] || posts != []
    ensures Measured(m) == AnalyzeWritingStyle(AllTexts(comments, posts))
    ensures m.samples == |comments| + |posts| > 0
  {
    AnalyzeWritingStyle(AllTexts(comments, posts)).metrics
  }

  /** Comments per community (`defaultdict(int)` over the comments only). */
  function CommunityTally(comments: seq<Item>): Tally<string> {
    TallyOf(Map(CommunityOf, comments))
  }

  /** The community tally has one entry per community a comment was made in,
      in order of first appearance. */
  lemma CommunityTallyKeys(comments: seq<Item>)
    ensures var t := CommunityTally(comments);
            var communities := Map(CommunityOf, comments);
            && Distinct(KeysOf(t))
            && (forall c :: c in KeysOf(t) <==> c in communities)
            && InFirstOccurrenceOrder(KeysOf(t), communities)
  {
    TallyOfKeys(Map(CommunityOf, comments));
    TallyOfOrder(Map(CommunityOf, comments));
  }

  /** Each community's count is its number of comments, and the counts add
      up to the number of comments. */
  lemma CommunityTallyCounts(comments: seq<Item>, c: string)
    ensures CountOf(CommunityTally(comments), c) == multiset(Map(CommunityOf, comments))[c]
    ensures Total(CommunityTally(comments)) == |comments|
  {
    TallyOfCounts(Map(CommunityOf, comments), c);
    TallyOfTotal(Map(CommunityOf, comments));
  }

  /** Comment links grouped by the interests their bodies show. */
  function InterestGroups(comments: seq<Item>): Groups<Interest, string> {
    GroupAll(Tag(comments, InterestsOf, LinkOf))
  }

  /** Comment links grouped by the traits their bodies show. */
  function TraitGroups(comments: seq<Item>): Groups<Trait, string> {
    GroupAll(Tag(comments, TraitsOf, LinkOf))
  }

  /** The links of the first three items (`[x.permalink for x in items[:3]]`). */
  function SampleLinks(items: seq<Item>): (r: seq<string>)
    ensures |r| == if |items| < CitationSamples then |items| else CitationSamples
    ensures forall i :: 0 <= i < |r| ==> r[i] == items[i].permalink
  {
    Map(LinkOf, Prefix(items, CitationSamples))
  }

  /** The persona of a user with some activity. */
  function BuildPersona(username: string, account: Account, comments: seq<Item>, posts: seq<Item>): (p: Persona)
    requires comments != [] || posts != []
    ensures p.username == "u/" + username
    ensures p.accountCreated == account.createdUtc
    ensures p.totalComments == |comments| && p.totalPosts == |posts|
    ensures p.commentKarma == account.commentKarma && p.postKarma == account.linkKarma
    ensures Measured(p.writingStyle) == AnalyzeWritingStyle(AllTexts(comments, posts))
    ensures p.writingStyle.samples == |comments| + |posts|
    ensures p.preferredSubreddits == CommunityTally(comments)
    ensures p.interests == InterestGroups(comments) && p.traits == TraitGroups(comments)
    ensures p.firstSeen == Earliest(comments)
    ensures p.commentCitations == SampleLinks(comments) && p.postCitations == SampleLinks(posts)
  {
    Persona(
      username := "u/" + username,
      accountCreated := account.createdUtc,
      writingStyle := StyleOf(comments, posts),
      preferredSubreddits := CommunityTally(comments),
      interests := InterestGroups(comments),
      traits := TraitGroups(comments),
      totalComments := |comments|,
      totalPosts := |posts|,
      commentKarma := account.commentKarma,
      postKarma := account.linkKarma,
      firstSeen := Earliest(comments),
      commentCitations := SampleLinks(comments),
      postCitations := SampleLinks(posts))
  }

  /** A failed fetch reports its message, a user with neither comments nor
      posts reports that no activity was found, and any other user gets a
      persona. */
  function GeneratePersona(username: string, fetch: Fetch): (r: Result<Persona>)
    ensures fetch.FetchFailed? ==> r == Err(fetch.message)
    ensures fetch.Fetched? && fetch.comments == [] && fetch.posts == [] ==> r == Err(NoActivity)
    ensures fetch.Fetched? && (fetch.comments != [] || fetch.posts != []) ==>
              && r == Ok(BuildPersona(username, fetch.account, fetch.comments, fetch.posts))
              && r.value.username == "u/" + username
              && r.value.totalComments == |fetch.comments|
              && r.value.totalPosts == |fetch.posts|
  {
    match fetch
    case FetchFailed(message) => Err(message)
    case Fetched(account, comments, posts) =>
      if comments == [] && posts == [] then Err(NoActivity)
      else Ok(BuildPersona(username, account, comments, posts))
  }

  /** The persona's activity summary: "First Seen" is the earliest comment
      creation time, or absent without comments, and the cited links are
      those of the first three comments and the first three posts. */
  lemma PersonaSummary(username: string, account: Account, comments: seq<Item>, posts: seq<Item>)
    requires comments != [] || posts != []
    ensures var p := BuildPersona(username, account, comments, posts);
            && (p.firstSeen.None? <==> comments == [])
            && (p.firstSeen.Some? ==>
                  && (forall i :: 0 <= i < |comments| ==> p.firstSeen.value <= comments[i].createdUtc)
                  && (exists i :: 0 <= i < |comments| && comments[i].createdUtc == p.firstSeen.value))
            && |p.commentCitations| == (if |comments| < CitationSamples then |comments| else CitationSamples)
            && (forall i :: 0 <= i < |p.commentCitations| ==> p.commentCitations[i] == comments[i].permalink)
            && |p.postCitations| == (if |posts| < CitationSamples then |posts| else CitationSamples)
            && (forall i :: 0 <= i < |p.postCitations| ==> p.postCitations[i] == posts[i].permalink)
  {
  }

  /** The persona's community tally counts each community's comments, lists
      each community once, in order of first appearance, and only the
      communities commented in. */
  lemma PersonaSubreddits(username: string, account: Account, comments: seq<Item>, posts: seq<Item>, c: string)
    requires comments != [] || posts != []
    ensures var t := BuildPersona(username, account, comments, posts).preferredSubreddits;
            var communities := Map(CommunityOf, comments);
            && CountOf(t, c) == multiset(communities)[c]
            && Total(t) == |comments|
            && Distinct(KeysOf(t))
            && (c in KeysOf(t) <==> c in communities)
            && InFirstOccurrenceOrder(KeysOf(t), communities)
  {
    CommunityTallyKeys(comments);
    CommunityTallyCounts(comments, c);
  }

  /** The persona's interest citations: per interest, exactly the links of the
      comments whose body shows it, in comment order; an interest is listed
      exactly when some comment shows it. */
  lemma PersonaInterestCitations(username: string, account: Account, comments: seq<Item>, posts: seq<Item>, l: Interest)
    requires comments != [] || posts != []
    ensures var g := BuildPersona(username, account, comments, posts).interests;
            && Distinct(KeysOf(g))
            && ListOf(g, l) == Citing(comments, InterestsOf, LinkOf, l)
            && (l in KeysOf(g) <==> exists i :: 0 <= i < |comments| && ContainsAny(Clean(comments[i].text), InterestKeywords(l)))
  {
    InterestCitations(comments, l);
  }

  /** The persona's trait citations: per trait, exactly the links of the
      comments whose body shows it, in comment order; a trait is listed
      exactly when some comment shows it. */
  lemma PersonaTraitCitations(username: string, account: Account, comments: seq<Item>, posts: seq<Item>, l: Trait)
    requires comments != [] || posts != []
    ensures var g := BuildPersona(username, account, comments, posts).traits;
            && Distinct(KeysOf(g))
            && ListOf(g, l) == Citing(comments, TraitsOf, LinkOf, l)
            && (l in KeysOf(g) <==> exists i :: 0 <= i < |comments| && ContainsAny(Clean(comments[i].text), TraitKeywords(l)))
  {
    TraitCitations(comments, l);
  }

  /** A label grouping built from the comments holds, for each label, the
      links of exactly the comments showing it, in comment order, and lists
      the label only if some comment shows it. */
  lemma GroupedCitations<L(!new)>(comments: seq<Item>, labels: Item -> seq<L>, l: L)
    requires forall i :: 0 <= i < |comments| ==> Distinct(labels(comments[i]))
    ensures var g := GroupAll(Tag(comments, labels, LinkOf));
            && Distinct(KeysOf(g))
            && ListOf(g, l) == Citing(comments, labels, LinkOf, l)
            && (l in KeysOf(g) <==> exists i :: 0 <= i < |comments| && l in labels(comments[i]))
  {
    GroupTagLists(comments, labels, LinkOf, l);
    GroupTagKeys(comments, labels, LinkOf, l);
  }

  /** Each entry of a label grouping holds the label's full, non-empty
      citation list. */
  lemma GroupEntryCitations<L(!new)>(comments: seq<Item>, labels: Item -> seq<L>, i: nat)
    requires forall k :: 0 <= k < |comments| ==> Distinct(labels(comments[k]))
    ensures var g := GroupAll(Tag(comments, labels, LinkOf));
            i < |g| ==> g[i].1 == Citing(comments, labels, LinkOf, g[i].0) != []
  {
    var g := GroupAll(Tag(comments, labels, LinkOf));
    if i < |g| {
      GroupAllKeys(Tag(comments, labels, LinkOf));
      ListOfEntry(g, i);
      GroupTagLists(comments, labels, LinkOf, g[i].0);
    }
  }

  /** Each interest's citations are the links of exactly the comments whose
      body shows that interest, in comment order. */
  lemma InterestCitations(comments: seq<Item>, l: Interest)
    ensures var g := InterestGroups(comments);
            && Distinct(KeysOf(g))
            && ListOf(g, l) == Citing(comments, InterestsOf, LinkOf, l)
            && (l in KeysOf(g) <==> exists i :: 0 <= i < |comments| && ContainsAny(Clean(comments[i].text), InterestKeywords(l)))
  {
    GroupedCitations(comments, InterestsOf, l);
  }

  /** Each trait's citations are the links of exactly the comments whose
      body shows that trait, in comment order. */
  lemma TraitCitations(comments: seq<Item>, l: Trait)
    ensures var g := TraitGroups(comments);
            && Distinct(KeysOf(g))
            && ListOf(g, l) == Citing(comments, TraitsOf, LinkOf, l)
            && (l in KeysOf(g) <==> exists i :: 0 <= i < |comments| && ContainsAny(Clean(comments[i].text), TraitKeywords(l)))
  {
    GroupedCitations(comments, TraitsOf, l);
  }

  // ------------------------------------------------------------------- report

  /** How many communities the report lists. */
  const TopSubreddits: nat := 5

  /** Text of the report for a failed run, before the error message. */
  const ErrorBanner: string := "\U{274C} Error generating persona: "

  /** The parts of the text report that are computed rather than copied:
      the ranked communities, each label's citation count, and the sample
      links. An error renders as a single line. */
  datatype Report =
    | ErrorLine(line: string)
    | Sections(
        persona: Persona,
        topSubreddits: Tally<string>,
        interestCounts: seq<(Interest, nat)>,
        traitCounts: seq<(Trait, nat)>,
        recentComments: seq<string>,
        recentPosts: seq<string>)

  /** Each label with the number of links citing it, in the groups' order. */
  function CitationCounts<L>(g: Groups<L, string>): (r: seq<(L, nat)>)
    ensures |r| == |g|
    ensures forall i :: 0 <= i < |g| ==> r[i].0 == g[i].0 && r[i].1 == |g[i].1|
  {
    if g == [] then [] else [(g[0].0, |g[0].1|)] + CitationCounts(g[1..])
  }

  /** `counts` lists each label of `g` with the length of its list, in order. */
  ghost predicate CitedCounts<L>(counts: seq<(L, nat)>, g: Groups<L, string>) {
    && |counts| == |g|
    && forall i :: 0 <= i < |g| ==> counts[i] == (g[i].0, |g[i].1|)
  }

  /** `shown` is `links[:3]`. */
  ghost predicate FirstLinks(shown: seq<string>, links: seq<string>) {
    && |shown| == (if |links| < CitationSamples then |links| else CitationSamples)
    && forall i :: 0 <= i < |shown| ==> shown[i] == links[i]
  }

  function FormatOutput(r: Result<Persona>): (out: Report)
    ensures out.ErrorLine? <==> r.Err?
    ensures r.Err? ==> out.line == ErrorBanner + r.message
    ensures r.Ok? ==>
              var subs := r.value.preferredSubreddits;
              && out.persona == r.value
              && |out.topSubreddits| == (if |subs| < TopSubreddits then |subs| else TopSubreddits)
              && NonIncreasing(out.topSubreddits)
              && multiset(out.topSubreddits) <= multiset(subs)
              && (forall x :: x in subs && x !in out.topSubreddits ==>
                    forall y :: y in out.topSubreddits ==> y.1 >= x.1)
              && CitedCounts(out.interestCounts, r.value.interests)
              && CitedCounts(out.traitCounts, r.value.traits)
              && FirstLinks(out.recentComments, r.value.commentCitations)
              && FirstLinks(out.recentPosts, r.value.postCitations)
  {
    match r
    case Err(message) => ErrorLine(ErrorBanner + message)
    case Ok(p) =>
      Sections(
        p,
        TopN(p.preferredSubreddits, TopSubreddits),
        CitationCounts(p.interests),
        CitationCounts(p.traits),
        Prefix(p.commentCitations, CitationSamples),
        Prefix(p.postCitations, CitationSamples))
  }

  /** End to end, the report ranks communities by their true comment counts:
      every listed community is listed with its number of comments, and no
      community left out has more comments than a listed one. */
  lemma ReportRanksCommunities(username: string, account: Account, comments: seq<Item>, posts: seq<Item>)
    requires comments != [] || posts != []
    ensures var communities := Map(CommunityOf, comments);
            var top := FormatOutput(Ok(BuildPersona(username, account, comments, posts))).topSubreddits;
            && (forall i :: 0 <= i < |top| ==> top[i].1 == multiset(communities)[top[i].0] > 0)
            && (forall c :: c in communities && c !in KeysOf(top) ==>
                  forall i :: 0 <= i < |top| ==> top[i].1 >= multiset(communities)[c])
  {
    var p := BuildPersona(username, account, comments, posts);
    assert FormatOutput(Ok(p)).topSubreddits == TopN(TallyOf(Map(CommunityOf, comments)), TopSubreddits);
    TopOfTally(Map(CommunityOf, comments), TopSubreddits);
  }

  /** Counts read off a label grouping are the true citation counts, none
      of them zero. */
  lemma CountsAreCitations<L(!new)>(counts: seq<(L, nat)>, comments: seq<Item>, labels: Item -> seq<L>)
    requires forall k :: 0 <= k < |comments| ==> Distinct(labels(comments[k]))
    requires CitedCounts(counts, GroupAll(Tag(comments, labels, LinkOf)))
    ensures forall i :: 0 <= i < |counts| ==> counts[i].1 == |Citing(comments, labels, LinkOf, counts[i].0)| > 0
  {
    forall i | 0 <= i < |counts|
      ensures counts[i].1 == |Citing(comments, labels, LinkOf, counts[i].0)| > 0
    {
      GroupEntryCitations(comments, labels, i);
    }
  }

  /** End to end, the report's "cited n times" figures are true: each listed
      interest or trait is cited by exactly the comments showing it, at
      least once. */
  lemma ReportCitationCounts(username: string, account: Account, comments: seq<Item>, posts: seq<Item>)
    requires comments != [] || posts != []
    ensures var out := FormatOutput(Ok(BuildPersona(username, account, comments, posts)));
            && (forall i :: 0 <= i < |out.interestCounts| ==>
                  out.interestCounts[i].1 == |Citing(comments, InterestsOf, LinkOf, out.interestCounts[i].0)| > 0)
            && (forall i :: 0 <= i < |out.traitCounts| ==>
                  out.traitCounts[i].1 == |Citing(comments, TraitsOf, LinkOf, out.traitCounts[i].0)| > 0)
  {
    var p := BuildPersona(username, account, comments, posts);
    var out := FormatOutput(Ok(p));
    assert CitedCounts(out.interestCounts, InterestGroups(comments));
    assert CitedCounts(out.traitCounts, TraitGroups(comments));
    CountsAreCitations(out.interestCounts, comments, InterestsOf);
    CountsAreCitations(out.traitCounts, comments, TraitsOf);
  }
}
