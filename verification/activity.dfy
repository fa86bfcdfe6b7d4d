/** What the platform client returns for one user, as plain values: the
    listings of comments and submissions (already fetched, newest first) and
    the account's metadata. The fetch itself is not modelled; a fetch that
    raised is the `FetchFailed` variant carrying the exception's message. */
module Activity {
  import opened Outcomes
  import opened Seqs

  /** One comment (`text` is its body) or one submission (`text` is its title). */
  datatype Item = Item(text: string, community: string, permalink: string, createdUtc: int)

  /** Account metadata read from the client (creation time and karma). */
  datatype Account = Account(createdUtc: int, commentKarma: int, linkKarma: int)

  /** The outcome of fetching a user's data. */
  datatype Fetch =
    | Fetched(account: Account, comments: seq<Item>, posts: seq<Item>)
    | FetchFailed(message: string)

  /** The error reported for a user with neither comments nor submissions. */
  const NoActivity: string := "No public activity found"

  function TextOf(i: Item): string { i.text }
  function CommunityOf(i: Item): string { i.community }
  function LinkOf(i: Item): string { i.permalink }

  /** The texts both analysers read: comment bodies, then post titles. */
  function AllTexts(comments: seq<Item>, posts: seq<Item>): (r: seq<string>)
    ensures |r| == |comments| + |posts|
    ensures forall i :: 0 <= i < |comments| ==> r[i] == comments[i].text
    ensures forall i :: 0 <= i < |posts| ==> r[|comments| + i] == posts[i].text
  {
    Map(TextOf, comments) + Map(TextOf, posts)
  }

  /** Some text of the combined list has a property exactly when some
      comment body or some post title has it. */
  lemma SomeText(comments: seq<Item>, posts: seq<Item>, p: string -> bool)
    ensures (exists k :: 0 <= k < |AllTexts(comments, posts)| && p(AllTexts(comments, posts)[k])) <==>
              || (exists k :: 0 <= k < |comments| && p(comments[k].text))
              || (exists k :: 0 <= k < |posts| && p(posts[k].text))
  {
    var texts := AllTexts(comments, posts);
    if exists k :: 0 <= k < |texts| && p(texts[k]) {
      var k :| 0 <= k < |texts| && p(texts[k]);
      if k >= |comments| {
        assert texts[|comments| + (k - |comments|)] == posts[k - |comments|].text;
      }
    }
    if exists k :: 0 <= k < |posts| && p(posts[k].text) {
      var k :| 0 <= k < |posts| && p(posts[k].text);
      assert texts[|comments| + k] == posts[k].text;
    }
  }

  /** The earliest creation time among `items` (Python's `min(...)`), or
      `None` when there are none (the report's "N/A"). */
  function Earliest(items: seq<Item>): (r: Option<int>)
    ensures r.None? <==> items == []
    ensures r.Some? ==> forall i :: 0 <= i < |items| ==> r.value <= items[i].createdUtc
    ensures r.Some? ==> exists i :: 0 <= i < |items| && items[i].createdUtc == r.value
  {
    if items == [] then None
    else
      var rest := Earliest(items[1..]);
      if rest.Some? && rest.value < items[0].createdUtc then
        assert forall i :: 1 <= i < |items| ==> items[i] == items[1..][i - 1];
        rest
      else
        Some(items[0].createdUtc)
  }
}
