/** The web dashboard's persona generator (new.py, byte-identical to
    reddit_persona.py): a three-way style label, three interest categories
    collected into a set, a single keyword trait, the ten busiest
    communities over comments and posts together, and sample excerpts. */
module DashboardPersona {
  import opened Outcomes
  import opened Seqs
  import opened Text
  import opened Tallies
  import opened Activity
  import opened StyleMetrics
  import Classify
  import ConsolePersona

  // ------------------------------------------------------------ writing style

  const DetailedAbove: nat := 75
  const CasualEmojiAbove: nat := 3

  /** The dashboard's connectives (a shorter list than the console's). */
  const Connectives: seq<string> := ["however", "therefore"]

  datatype StyleLabel = DetailedAnalytical | CasualExpressive | Straightforward
  {
    function Name(): string {
      match this
      case DetailedAnalytical => "Detailed/analytical"
      case CasualExpressive => "Casual/expressive"
      case Straightforward => "Straightforward"
    }
  }

  /** The style label: long texts first, then emoji, otherwise plain. The
      formality count is measured but takes no part in the choice. */
  function ChooseStyle(totalWords: nat, samples: nat, emojiUse: nat): (r: StyleLabel)
    requires samples > 0
    ensures r == DetailedAnalytical <==> Average(totalWords, samples) > DetailedAbove as real
    ensures r == CasualExpressive <==>
              Average(totalWords, samples) <= DetailedAbove as real && emojiUse > CasualEmojiAbove
    ensures r == Straightforward <==>
              Average(totalWords, samples) <= DetailedAbove as real && emojiUse <= CasualEmojiAbove
  {
    AverageAbove(totalWords, samples, DetailedAbove);
    if totalWords > DetailedAbove * samples then DetailedAnalytical
    else if emojiUse > CasualEmojiAbove then CasualExpressive
    else Straightforward
  }

  datatype Metrics = Metrics(totalWords: nat, samples: nat, emojiUse: nat, formality: nat, style: StyleLabel)

  /** `NoTextAvailable` is the sentinel `{"Description": "No text available"}`. */
  datatype WritingStyle = NoTextAvailable | Measured(metrics: Metrics)

  predicate IsFormal(t: string) {
    ContainsAny(Clean(t), Connectives)
  }

  function AnalyzeWritingStyle(texts: seq<string>): (r: WritingStyle)
    ensures r.NoTextAvailable? <==> texts == []
    ensures r.Measured? ==>
              && r.metrics.samples == |texts|
              && r.metrics.totalWords == TotalWords(texts)
              && r.metrics.emojiUse == CountIf(HasEmoji, texts) <= |texts|
              && r.metrics.formality == CountIf(IsFormal, texts) <= |texts|
              && r.metrics.style == ChooseStyle(r.metrics.totalWords, |texts|, r.metrics.emojiUse)
  {
    if texts == [] then NoTextAvailable
    else
      var total := TotalWords(texts);
      var emoji := CountIf(HasEmoji, texts);
      Measured(Metrics(total, |texts|, emoji, CountIf(IsFormal, texts), ChooseStyle(total, |texts|, emoji)))
  }

  /** Against the console analyser on the same counts: both call a text
      detailed on exactly the same averages, and every batch the console
      calls casual the dashboard calls casual too. The dashboard also calls
      casual the emoji-rich batches the console calls balanced, since it has
      no balanced label. */
  lemma StyleAgreesWithConsole(totalWords: nat, samples: nat, emoji: nat, formality: nat)
    requires samples > 0
    ensures var console := ConsolePersona.ChooseStyle(totalWords, samples, emoji, formality);
            var dashboard := ChooseStyle(totalWords, samples, emoji);
            && (console == ConsolePersona.DetailedAndAnalytical <==> dashboard == DetailedAnalytical)
            && (console == ConsolePersona.CasualAndExpressive ==> dashboard == CasualExpressive)
            && (console == ConsolePersona.BalancedAndThoughtful ==>
                  (dashboard == CasualExpressive <==> emoji > CasualEmojiAbove))
  {
  }

  // ---------------------------------------------------------------- interests

  datatype Interest = Technology | Gaming | Sports
  {
    function Name(): string {
      match this
      case Technology => "Technology"
      case Gaming => "Gaming"
      case Sports => "Sports"
    }
  }

  const Interests: seq<Interest> := [Technology, Gaming, Sports]

  lemma InterestListed(i: Interest)
    ensures i in Interests
  {
  }

  function InterestKeywords(i: Interest): seq<string> {
    match i
    case Technology => ["python", "programming", "javascript"]
    case Gaming => ["game", "gaming", "playstation"]
    case Sports => ["football", "basketball", "soccer"]
  }

  function DetectInterests(text: string): (r: seq<Interest>)
    ensures forall i :: i in r <==> ContainsAny(Clean(text), InterestKeywords(i))
    ensures IsSubsequence(r, Interests)
    ensures Distinct(r)
  {
    assert Distinct(Interests);
    forall i: Interest {
      InterestListed(i);
    }
    Classify.Detect(Interests, InterestKeywords, Clean(text))
  }

  /** The console category with the same name. */
  function ConsoleInterest(i: Interest): ConsolePersona.Interest {
    match i
    case Technology => ConsolePersona.Technology
    case Gaming => ConsolePersona.Gaming
    case Sports => ConsolePersona.Sports
  }

  /** Each dashboard keyword list is a prefix of the console's list for the
      category of the same name, so a dashboard hit is a console hit. */
  lemma InterestImpliesConsole(text: string, i: Interest)
    ensures i in DetectInterests(text) ==> ConsoleInterest(i) in ConsolePersona.DetectInterests(text)
    ensures ConsoleInterest(i).Name() == i.Name()
  {
    if i in DetectInterests(text) {
      var w :| w in InterestKeywords(i) && Contains(Clean(text), w);
      assert w in ConsolePersona.InterestKeywords(ConsoleInterest(i));
    }
  }

  /** `set(interest for text in texts for interest in detect_interests(text))`. */
  function InterestUnion(texts: seq<string>): (r: set<Interest>)
    ensures forall i :: i in r <==> exists k :: 0 <= k < |texts| && i in DetectInterests(texts[k])
  {
    UnionOver(DetectInterests, texts)
  }

  // ------------------------------------------------------------------- traits

  /** The one trait the dashboard detects. */
  const OpinionatedTrait: string := "Opinionated"

  const OpinionPhrase: string := "i think"

  /** The normalised text contains the phrase "i think". */
  predicate SaysIThink(t: string) {
    Contains(Clean(t), OpinionPhrase)
  }

  /** `["Opinionated"] if any("i think" in clean_text(t) for t in texts) else []`. */
  function Traits(texts: seq<string>): (r: seq<string>)
    ensures r == [OpinionatedTrait] <==> exists k :: 0 <= k < |texts| && SaysIThink(texts[k])
    ensures r == [] <==> forall k :: 0 <= k < |texts| ==> !SaysIThink(texts[k])
  {
    if exists k :: 0 <= k < |texts| && SaysIThink(texts[k]) then [OpinionatedTrait] else []
  }

  /** The dashboard's trait is the console's Opinionated trait, shown by any
      text rather than recorded per comment: it is detected on a batch
      exactly when the console detects Opinionated in some text of it that
      contains the phrase "i think". */
  lemma OpinionatedAgreesWithConsole(texts: seq<string>, k: nat)
    requires k < |texts|
    requires SaysIThink(texts[k])
    ensures Traits(texts) == [OpinionatedTrait]
    ensures ConsolePersona.Opinionated in ConsolePersona.DetectPersonalityTraits(texts[k])
  {
    assert OpinionPhrase in ConsolePersona.TraitKeywords(ConsolePersona.Opinionated);
  }

  // ------------------------------------------------------------------ persona

  /** How many communities the dashboard keeps (`most_common(10)`). */
  const TopCommunities: nat := 10

  /** How many samples of each kind are kept, and the excerpt length. */
  const Samples: nat := 3
  const ExcerptLength: nat := 200
  const Ellipsis: string := "..."

  datatype Persona = Persona(
    username: string,
    accountCreated: int,
    postKarma: int,
    commentKarma: int,
    writingStyle: Metrics,
    interests: set<Interest>,
    traits: seq<string>,
    subredditActivity: Tally<string>,
    sampleComments: seq<string>,
    samplePosts: seq<string>)

  /** `body[:200] + "..."`: the ellipsis is appended even to short bodies. */
  function Excerpt(body: string): (r: string)
    ensures |r| == (if |body| < ExcerptLength then |body| else ExcerptLength) + |Ellipsis|
    ensures r[|r| - |Ellipsis|..] == Ellipsis
    ensures forall i :: 0 <= i < |r| - |Ellipsis| ==> r[i] == body[i]
  {
    Prefix(body, ExcerptLength) + Ellipsis
  }

  /** A short body can be read back from its excerpt, and bodies of up to 200
      characters have distinct excerpts. */
  lemma ExcerptRecoversShortBody(a: string, b: string)
    requires |a| <= ExcerptLength && |b| <= ExcerptLength
    ensures Excerpt(a)[..|Excerpt(a)| - |Ellipsis|] == a
    ensures Excerpt(a) == Excerpt(b) ==> a == b
  {
    if Excerpt(a) == Excerpt(b) {
      assert a == Excerpt(a)[..|a|];
      assert b == Excerpt(b)[..|b|];
    }
  }

  /** The communities of all comments, then of all posts. */
  function Communities(comments: seq<Item>, posts: seq<Item>): (r: seq<string>)
    ensures |r| == |comments| + |posts|
    ensures forall i :: 0 <= i < |comments| ==> r[i] == comments[i].community
    ensures forall i :: 0 <= i < |posts| ==> r[|comments| + i] == posts[i].community
  {
    Map(CommunityOf, comments) + Map(CommunityOf, posts)
  }

  /** `dict(Counter(subreddits).most_common(10))`. */
  function SubredditActivity(comments: seq<Item>, posts: seq<Item>): Tally<string> {
    TopN(TallyOf(Communities(comments, posts)), TopCommunities)
  }

  /** The activity chart lists at most ten communities, none twice, each with
      its number of comments and posts, and no community left out has more
      activity than a listed one. */
  lemma SubredditActivityRanks(comments: seq<Item>, posts: seq<Item>)
    ensures var top := SubredditActivity(comments, posts);
            var all := Communities(comments, posts);
            && |top| <= TopCommunities
            && Distinct(KeysOf(top))
            && (forall i :: 0 <= i < |top| ==> top[i].1 == multiset(all)[top[i].0] > 0)
            && (forall c :: c in all && c !in KeysOf(top) ==>
                  forall i :: 0 <= i < |top| ==> top[i].1 >= multiset(all)[c])
  {
    var all := Communities(comments, posts);
    TallyOfKeys(all);
    TopNDistinctKeys(TallyOf(all), TopCommunities);
    TopOfTally(all, TopCommunities);
  }

  /** The activity chart omits nothing when there are at most ten communities. */
  lemma SubredditActivityComplete(comments: seq<Item>, posts: seq<Item>)
    requires |TallyOf(Communities(comments, posts))| <= TopCommunities
    ensures forall c :: c in KeysOf(SubredditActivity(comments, posts)) <==> c in Communities(comments, posts)
  {
    var all := Communities(comments, posts);
    TallyOfKeys(all);
    TopNKeepsAll(TallyOf(all), TopCommunities);
  }

  /** Excerpts of the first three comment bodies. */
  function SampleComments(comments: seq<Item>): (r: seq<string>)
    ensures |r| == if |comments| < Samples then |comments| else Samples
    ensures forall i :: 0 <= i < |r| ==> r[i] == Excerpt(comments[i].text)
  {
    Map((c: Item) => Excerpt(c.text), Prefix(comments, Samples))
  }

  /** The titles of the first three posts. */
  function SamplePosts(posts: seq<Item>): (r: seq<string>)
    ensures |r| == if |posts| < Samples then |posts| else Samples
    ensures forall i :: 0 <= i < |r| ==> r[i] == posts[i].text
  {
    Map(TextOf, Prefix(posts, Samples))
  }

  function BuildPersona(username: string, account: Account, comments: seq<Item>, posts: seq<Item>): (p: Persona)
    requires comments != [] || posts != []
    ensures p.username == "u/" + username
    ensures p.accountCreated == account.createdUtc
    ensures p.postKarma == account.linkKarma && p.commentKarma == account.commentKarma
    ensures Measured(p.writingStyle) == AnalyzeWritingStyle(AllTexts(comments, posts))
    ensures p.writingStyle.samples == |comments| + |posts|
    ensures p.interests == InterestUnion(AllTexts(comments, posts))
    ensures p.traits == Traits(AllTexts(comments, posts))
    ensures p.traits == [] || p.traits == [OpinionatedTrait]
    ensures p.subredditActivity == SubredditActivity(comments, posts)
    ensures p.sampleComments == SampleComments(comments) && p.samplePosts == SamplePosts(posts)
  {
    var texts := AllTexts(comments, posts);
    Persona(
      username := "u/" + username,
      accountCreated := account.createdUtc,
      postKarma := account.linkKarma,
      commentKarma := account.commentKarma,
      writingStyle := AnalyzeWritingStyle(texts).metrics,
      interests := InterestUnion(texts),
      traits := Traits(texts),
      subredditActivity := SubredditActivity(comments, posts),
      sampleComments := SampleComments(comments),
      samplePosts := SamplePosts(posts))
  }

  /** A failed fetch reports its message, a user with neither comments nor
      posts reports that no activity was found, and any other user gets a
      persona. */
  function GeneratePersona(username: string, fetch: Fetch): (r: Result<Persona>)
    ensures fetch.FetchFailed? ==> r == Err(fetch.message)
    ensures fetch.Fetched? && fetch.comments == [] && fetch.posts == [] ==> r == Err(NoActivity)
    ensures fetch.Fetched? && (fetch.comments != [] || fetch.posts != []) ==>
              && r == Ok(BuildPersona(username, fetch.account, fetch.comments, fetch.posts))
              && r.value.username == "u/" + username
              && r.value.writingStyle.samples == |fetch.comments| + |fetch.posts|
  {
    match fetch
    case FetchFailed(message) => Err(message)
    case Fetched(account, comments, posts) =>
      if comments == [] && posts == [] then Err(NoActivity)
      else Ok(BuildPersona(username, account, comments, posts))
  }

  /** An interest is collected exactly when some comment body or post title
      shows it. */
  lemma InterestsOfActivity(comments: seq<Item>, posts: seq<Item>, i: Interest)
    ensures i in InterestUnion(AllTexts(comments, posts)) <==>
              || (exists k :: 0 <= k < |comments| && i in DetectInterests(comments[k].text))
              || (exists k :: 0 <= k < |posts| && i in DetectInterests(posts[k].text))
  {
    SomeText(comments, posts, t => i in DetectInterests(t));
  }

  /** The Opinionated trait is reported exactly when some comment body or
      post title contains "i think" once normalised. */
  lemma TraitsOfActivity(comments: seq<Item>, posts: seq<Item>)
    ensures Traits(AllTexts(comments, posts)) == [OpinionatedTrait] <==>
              || (exists k :: 0 <= k < |comments| && SaysIThink(comments[k].text))
              || (exists k :: 0 <= k < |posts| && SaysIThink(posts[k].text))
  {
    SomeText(comments, posts, SaysIThink);
  }

  /** The persona's interests are exactly those some comment body or post
      title shows. */
  lemma PersonaInterests(username: string, account: Account, comments: seq<Item>, posts: seq<Item>, i: Interest)
    requires comments != [] || posts != []
    ensures i in BuildPersona(username, account, comments, posts).interests <==>
              || (exists k :: 0 <= k < |comments| && i in DetectInterests(comments[k].text))
              || (exists k :: 0 <= k < |posts| && i in DetectInterests(posts[k].text))
  {
    InterestsOfActivity(comments, posts, i);
  }

  /** The persona is "Opinionated" exactly when some comment body or post
      title contains "i think" once normalised, and has no trait otherwise. */
  lemma PersonaTraits(username: string, account: Account, comments: seq<Item>, posts: seq<Item>)
    requires comments != [] || posts != []
    ensures var traits := BuildPersona(username, account, comments, posts).traits;
            && (traits == [OpinionatedTrait] <==>
                  || (exists k :: 0 <= k < |comments| && SaysIThink(comments[k].text))
                  || (exists k :: 0 <= k < |posts| && SaysIThink(posts[k].text)))
            && (traits == [] || traits == [OpinionatedTrait])
  {
    TraitsOfActivity(comments, posts);
  }

  /** The persona's activity chart lists at most ten communities, none twice,
      each with its number of comments and posts, and no community left out
      has more activity than a listed one. */
  lemma PersonaSubredditActivity(username: string, account: Account, comments: seq<Item>, posts: seq<Item>)
    requires comments != [] || posts != []
    ensures var top := BuildPersona(username, account, comments, posts).subredditActivity;
            var all := Communities(comments, posts);
            && |top| <= TopCommunities
            && Distinct(KeysOf(top))
            && (forall i :: 0 <= i < |top| ==> top[i].1 == multiset(all)[top[i].0] > 0)
            && (forall c :: c in all && c !in KeysOf(top) ==>
                  forall i :: 0 <= i < |top| ==> top[i].1 >= multiset(all)[c])
  {
    SubredditActivityRanks(comments, posts);
  }

  /** `shown` holds the excerpts of the first three bodies of `items`. */
  ghost predicate FirstExcerpts(shown: seq<string>, items: seq<Item>) {
    && |shown| == (if |items| < Samples then |items| else Samples)
    && forall i :: 0 <= i < |shown| ==> shown[i] == Excerpt(items[i].text)
  }

  /** `shown` holds the first three titles of `items`. */
  ghost predicate FirstTitles(shown: seq<string>, items: seq<Item>) {
    && |shown| == (if |items| < Samples then |items| else Samples)
    && forall i :: 0 <= i < |shown| ==> shown[i] == items[i].text
  }

  /** The persona's samples are the excerpts of the first three comment
      bodies and the first three post titles. */
  lemma PersonaSamples(username: string, account: Account, comments: seq<Item>, posts: seq<Item>)
    requires comments != [] || posts != []
    ensures var p := BuildPersona(username, account, comments, posts);
            FirstExcerpts(p.sampleComments, comments) && FirstTitles(p.samplePosts, posts)
  {
  }
}
