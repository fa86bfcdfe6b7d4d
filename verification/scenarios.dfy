/** Worked examples of the console generator on concrete activity: a user
    with no activity, the token count of a short comment, and a community
    ranking. */
module Scenarios {
  import opened Outcomes
  import opened Seqs
  import opened Text
  import opened Tallies
  import opened Activity
  import opened StyleMetrics
  import opened ConsolePersona

  /** A user with neither comments nor posts gets the no-activity error,
      and the report is the error line. */
  lemma NoActivityScenario(username: string, account: Account)
    ensures GeneratePersona(username, Fetched(account, [], [])) == Err(NoActivity)
    ensures FormatOutput(GeneratePersona(username, Fetched(account, [], []))) == ErrorLine(ErrorBanner + NoActivity)
  {
  }

  /** An average of 80 tokens is detailed whatever the emoji count. */
  lemma LongTextsAreDetailed()
    ensures ChooseStyle(160, 2, 5, 0) == DetailedAndAnalytical
    ensures Average(160, 2) == 80.0
  {
  }

  const Joke: string := "lol that's hilarious"

  lemma JokeWords()
    ensures Joke == JoinWords(["lol", "that's", "hilarious"])
  {
  }

  /** The comment "lol that's hilarious" has three tokens: the apostrophe
      does not split. */
  lemma JokeTokens()
    ensures WordCount(Joke) == 3
  {
    JokeWords();
    TokensJoinWords(["lol", "that's", "hilarious"]);
  }

  /** Three comments in "test" and one in "other" rank as test (3), other (1). */
  lemma RankingScenario()
    ensures TopN(TallyOf(["test", "test", "test", "other"]), TopSubreddits) == [("test", 3), ("other", 1)]
  {
    var ks := ["test", "test", "test", "other"];
    assert ks[..3] == ["test", "test", "test"];
    assert ks[..3][..2] == ["test", "test"];
    assert ks[..3][..2][..1] == ["test"];
    assert TallyOf(["test"]) == [("test", 1)];
    assert TallyOf(["test", "test"]) == [("test", 2)];
    assert TallyOf(["test", "test", "test"]) == [("test", 3)];
    var t3: Tally<string> := [("test", 3)];
    assert t3[1..] == [];
    assert Bump(t3[1..], "other") == [("other", 1)];
    assert Bump(t3, "other") == [("test", 3), ("other", 1)];
    assert TallyOf(ks) == [("test", 3), ("other", 1)];
    assert SortDesc([("other", 1)]) == [("other", 1)];
    assert SortDesc([("test", 3), ("other", 1)]) == [("test", 3), ("other", 1)];
  }
}
