/** Measurements both writing-style analysers take of a batch of texts:
    whitespace tokens, the emoji test, and the average token count. */
module StyleMetrics {
  import opened Seqs
  import opened Text

  /** The emoji a text is searched for: face with tears of joy, smiling face
      with smiling eyes, and the red heart written as U+2764 followed by the
      emoji variation selector U+FE0F (two code points). */
  const Emojis: seq<string> := ["\U{1F602}", "\U{1F60A}", "\U{2764}\U{FE0F}"]

  /** The text, as written, contains one of the emoji. */
  predicate HasEmoji(t: string) {
    ContainsAny(t, Emojis)
  }

  /** `sum(len(t.split()) for t in texts)`. */
  function TotalWords(texts: seq<string>): (r: nat)
    ensures forall i :: 0 <= i < |texts| ==> WordCount(texts[i]) <= r
    ensures r == 0 <==> forall i :: 0 <= i < |texts| ==> WordCount(texts[i]) == 0
  {
    if texts == [] then 0
    else
      var rest := TotalWords(texts[1..]);
      assert forall i :: 1 <= i < |texts| ==> texts[i] == texts[1..][i - 1];
      WordCount(texts[0]) + rest
  }

  /** The total of a concatenation is the sum of the totals; with
      `TotalWords([t]) == WordCount(t)` this fixes the total of every batch. */
  lemma {:induction false} TotalWordsConcat(a: seq<string>, b: seq<string>)
    ensures TotalWords(a + b) == TotalWords(a) + TotalWords(b)
    ensures TotalWords([]) == 0
    ensures forall t :: TotalWords([t]) == WordCount(t)
  {
    if a != [] {
      assert (a + b)[1..] == a[1..] + b;
      TotalWordsConcat(a[1..], b);
    } else {
      assert a + b == b;
    }
    forall t
      ensures TotalWords([t]) == WordCount(t)
    {
      assert [t][1..] == [];
    }
  }

  /** The average number of tokens per text, as an exact quotient. */
  function Average(total: nat, n: nat): real
    requires n > 0
  {
    total as real / n as real
  }

  /** The average exceeds a threshold exactly when the total exceeds the
      threshold times the number of texts, so comparisons need no division. */
  lemma AverageAbove(total: nat, n: nat, k: nat)
    requires n > 0
    ensures Average(total, n) > k as real <==> total > k * n
  {
    var a := Average(total, n);
    assert a * (n as real) == total as real;
    assert (k * n) as real == (k as real) * (n as real);
    if a > k as real {
      assert a * (n as real) > (k as real) * (n as real);
    }
    if total > k * n {
      assert a * (n as real) > (k as real) * (n as real);
    }
  }
}
