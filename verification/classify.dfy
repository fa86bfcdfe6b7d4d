/** Keyword classification, shared by the interest and trait detectors: a
    label is emitted when one of its keywords occurs, as a substring, in the
    normalised text. The vocabulary is walked in its fixed order, so the
    result lists labels in that order and never twice. */
module Classify {
  import opened Seqs
  import opened Text

  /** The labels of `vocab` that have a keyword occurring in `cleaned`, in
      vocabulary order. */
  function Detect<L(==,!new)>(vocab: seq<L>, keywords: L -> seq<string>, cleaned: string): (r: seq<L>)
    ensures forall l :: l in r <==> l in vocab && ContainsAny(cleaned, keywords(l))
    ensures IsSubsequence(r, vocab)
    ensures Distinct(vocab) ==> Distinct(r)
  {
    var hit := (l: L) => ContainsAny(cleaned, keywords(l));
    FilterSubsequence(hit, vocab);
    if Distinct(vocab) then FilterDistinct(hit, vocab); Filter(hit, vocab)
    else Filter(hit, vocab)
  }

  /** Nothing is detected exactly when no label of the vocabulary has a
      keyword in the text. */
  lemma NoneDetected<L(!new)>(vocab: seq<L>, keywords: L -> seq<string>, cleaned: string)
    ensures Detect(vocab, keywords, cleaned) == [] <==>
              forall l :: l in vocab ==> !ContainsAny(cleaned, keywords(l))
  {
    var r := Detect(vocab, keywords, cleaned);
    if r != [] {
      assert r[0] in r;
    }
  }
}
