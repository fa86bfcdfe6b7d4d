/** Character classes, the text normaliser (`re.sub(r'[^\w\s]', '', t.lower())`),
    Python's substring test `w in t`, and whitespace tokenisation
    (`t.split()`). Strings are sequences of Unicode scalar values, as Python
    `str` values are sequences of code points. */
module Text {
  import opened Seqs

  /** Python's whitespace (`str.isspace`, and `\s` in a `str` pattern). */
  predicate IsSpace(c: char) {
    || ('\t' <= c <= '\r')
    || ('\U{1C}' <= c <= ' ')
    || c == '\U{85}' || c == '\U{A0}' || c == '\U{1680}'
    || ('\U{2000}' <= c <= '\U{200A}')
    || c == '\U{2028}' || c == '\U{2029}' || c == '\U{202F}' || c == '\U{205F}'
    || c == '\U{3000}'
  }

  /** Word characters (`\w`), restricted to ASCII letters, digits and `_`. */
  predicate IsWordChar(c: char) {
    ('a' <= c <= 'z') || ('A' <= c <= 'Z') || ('0' <= c <= '9') || c == '_'
  }

  /** The characters the normaliser keeps. */
  predicate IsKept(c: char) {
    IsWordChar(c) || IsSpace(c)
  }

  /** Lower-case mapping of one character (ASCII letters only). */
  function Lower(c: char): (d: char)
    ensures IsWordChar(d) <==> IsWordChar(c)
    ensures IsSpace(d) <==> IsSpace(c)
    ensures !('A' <= d <= 'Z')
  {
    if 'A' <= c <= 'Z' then (c as int - 'A' as int + 'a' as int) as char else c
  }

  /** `str.lower()` as modelled: ASCII letters lowered one character at a time. */
  function LowerAll(s: string): (r: string)
    ensures |r| == |s|
    ensures forall i :: 0 <= i < |s| ==> r[i] == Lower(s[i])
  {
    seq(|s|, i requires 0 <= i < |s| => Lower(s[i]))
  }

  /** The text normaliser: lower-case the text, then delete every character
      that is neither a word character nor whitespace. */
  function Clean(s: string): (r: string)
    ensures |r| <= |s|
    ensures forall i :: 0 <= i < |r| ==> IsKept(r[i]) && Lower(r[i]) == r[i]
    ensures IsSubsequence(r, LowerAll(s))
    ensures forall c :: multiset(r)[c] == if IsKept(c) then multiset(LowerAll(s))[c] else 0
  {
    FilterSubsequence(IsKept, LowerAll(s));
    FilterMultiset(IsKept, LowerAll(s));
    var r := Filter(IsKept, LowerAll(s));
    assert forall i :: 0 <= i < |r| ==> r[i] in LowerAll(s);
    r
  }

  /** Text that is already lower-case and free of deleted characters is a
      fixed point of the normaliser. */
  lemma CleanFixesNormalText(t: string)
    requires forall i :: 0 <= i < |t| ==> IsKept(t[i]) && Lower(t[i]) == t[i]
    ensures Clean(t) == t
  {
    assert LowerAll(t) == t;
    FilterKeepsAll(IsKept, t);
  }

  /** Normalising twice is the same as normalising once. */
  lemma CleanIdempotent(s: string)
    ensures Clean(Clean(s)) == Clean(s)
  {
    CleanFixesNormalText(Clean(s));
  }

  /** The modelled lower-casing maps each character on its own. */
  lemma LowerAllConcat(a: string, b: string)
    ensures LowerAll(a + b) == LowerAll(a) + LowerAll(b)
  {
    assert forall i :: 0 <= i < |a + b| ==> LowerAll(a + b)[i] == (LowerAll(a) + LowerAll(b))[i];
  }

  /** The modelled normaliser (ASCII lower-casing, then a per-character
      filter) distributes over concatenation. */
  lemma CleanConcat(a: string, b: string)
    ensures Clean(a + b) == Clean(a) + Clean(b)
  {
    LowerAllConcat(a, b);
    FilterConcat(IsKept, LowerAll(a), LowerAll(b));
  }

  /** `w` is a prefix of `s`. */
  predicate StartsWith(s: string, w: string) {
    |w| <= |s| && s[..|w|] == w
  }

  /** Python's `w in s`: `w` occurs in `s` as a contiguous block. */
  predicate Contains(s: string, w: string)
    decreases |s|
  {
    StartsWith(s, w) || (s != [] && Contains(s[1..], w))
  }

  /** `w` occurs in `s` starting at position `i`. */
  ghost predicate OccursAt(s: string, w: string, i: int) {
    0 <= i && i + |w| <= |s| && s[i..i + |w|] == w
  }

  /** The scanning substring test agrees with the positional definition. */
  lemma {:induction false} ContainsIffOccurs(s: string, w: string)
    ensures Contains(s, w) <==> exists i :: OccursAt(s, w, i)
  {
    if Contains(s, w) {
      if StartsWith(s, w) {
        assert OccursAt(s, w, 0);
      } else {
        ContainsIffOccurs(s[1..], w);
        var i :| OccursAt(s[1..], w, i);
        assert s[1..][i..i + |w|] == s[i + 1..i + 1 + |w|];
        assert OccursAt(s, w, i + 1);
      }
    }
    if exists i :: OccursAt(s, w, i) {
      var i :| OccursAt(s, w, i);
      if i > 0 {
        assert s[1..][i - 1..i - 1 + |w|] == s[i..i + |w|];
        assert OccursAt(s[1..], w, i - 1);
        ContainsIffOccurs(s[1..], w);
      }
    }
  }

  /** A block that occurs in a piece occurs in any text the piece is part of. */
  lemma ContainsInSuffix(s: string, k: nat, w: string)
    requires k <= |s|
    requires Contains(s[k..], w)
    ensures Contains(s, w)
  {
    ContainsIffOccurs(s[k..], w);
    var i :| OccursAt(s[k..], w, i);
    assert s[k..][i..i + |w|] == s[k + i..k + i + |w|];
    assert OccursAt(s, w, k + i);
    ContainsIffOccurs(s, w);
  }

  /** Some keyword of `words` occurs in `s` (`any(w in s for w in words)`). */
  predicate ContainsAny(s: string, words: seq<string>) {
    exists w :: w in words && Contains(s, w)
  }

  /** Length of the leading run of non-whitespace characters. */
  function RunLength(s: string): (k: nat)
    ensures k <= |s|
    ensures forall i :: 0 <= i < k ==> !IsSpace(s[i])
    ensures k < |s| ==> IsSpace(s[k])
  {
    if s == [] || IsSpace(s[0]) then 0 else 1 + RunLength(s[1..])
  }

  predicate NotSpace(c: char) {
    !IsSpace(c)
  }

  /** `s.split()`: the maximal runs of non-whitespace characters, in order. */
  function Tokens(s: string): (r: seq<string>)
    decreases |s|
    ensures forall i :: 0 <= i < |r| ==> r[i] != []
    ensures forall i, j :: 0 <= i < |r| && 0 <= j < |r[i]| ==> !IsSpace(r[i][j])
  {
    if s == [] then []
    else if IsSpace(s[0]) then Tokens(s[1..])
    else
      var k := RunLength(s);
      [s[..k]] + Tokens(s[k..])
  }

  /** A leading run of non-whitespace ended by whitespace (or the end of the
      text) is split off as one token. */
  lemma {:induction false} TokensOfWord(w: string, rest: string)
    requires w != []
    requires forall i :: 0 <= i < |w| ==> !IsSpace(w[i])
    requires rest == [] || IsSpace(rest[0])
    ensures Tokens(w + rest) == [w] + Tokens(rest)
  {
    RunLengthOfWord(w, rest);
    assert (w + rest)[..|w|] == w;
    assert (w + rest)[|w|..] == rest;
  }

  lemma {:induction false} RunLengthOfWord(w: string, rest: string)
    requires forall i :: 0 <= i < |w| ==> !IsSpace(w[i])
    requires rest == [] || IsSpace(rest[0])
    ensures RunLength(w + rest) == |w|
  {
    if w == [] {
      assert w + rest == rest;
    } else {
      assert (w + rest)[1..] == w[1..] + rest;
      RunLengthOfWord(w[1..], rest);
    }
  }

  /** Leading whitespace produces no token. */
  lemma TokensAfterSpace(c: char, rest: string)
    requires IsSpace(c)
    ensures Tokens([c] + rest) == Tokens(rest)
  {
    assert ([c] + rest)[1..] == rest;
  }

  /** The words separated by single spaces (`" ".join(ws)`). */
  function JoinWords(ws: seq<string>): string {
    if ws == [] then []
    else if |ws| == 1 then ws[0]
    else ws[0] + " " + JoinWords(ws[1..])
  }

  /** Splitting undoes joining, for words that are non-empty and contain no
      whitespace. */
  lemma {:induction false} TokensJoinWords(ws: seq<string>)
    requires forall i :: 0 <= i < |ws| ==> ws[i] != []
    requires forall i, j :: 0 <= i < |ws| && 0 <= j < |ws[i]| ==> !IsSpace(ws[i][j])
    ensures Tokens(JoinWords(ws)) == ws
  {
    if |ws| == 1 {
      assert ws[0] + [] == ws[0];
      TokensOfWord(ws[0], []);
    } else if |ws| > 1 {
      var rest := JoinWords(ws[1..]);
      TokensJoinWords(ws[1..]);
      assert ws[0] + " " + rest == ws[0] + ([' '] + rest);
      TokensOfWord(ws[0], [' '] + rest);
      TokensAfterSpace(' ', rest);
    }
  }

  /** All characters of a list of strings, in order. */
  function Concat(ss: seq<string>): string {
    if ss == [] then [] else ss[0] + Concat(ss[1..])
  }

  /** Splitting loses exactly the whitespace: the tokens, put back together,
      are the non-whitespace characters of the text. */
  lemma {:induction false} TokensKeepContent(s: string)
    ensures Concat(Tokens(s)) == Filter(NotSpace, s)
    decreases |s|
  {
    if s != [] {
      if IsSpace(s[0]) {
        TokensKeepContent(s[1..]);
      } else {
        var k := RunLength(s);
        assert s == s[..k] + s[k..];
        FilterConcat(NotSpace, s[..k], s[k..]);
        FilterKeepsAll(NotSpace, s[..k]);
        TokensKeepContent(s[k..]);
        assert Tokens(s)[1..] == Tokens(s[k..]);
      }
    }
  }

  /** Number of whitespace-separated tokens (`len(s.split())`). */
  function WordCount(s: string): nat {
    |Tokens(s)|
  }

  /** Reference count of tokens: the positions where a non-whitespace
      character follows whitespace or the start of the text. */
  function TokenStarts(s: string, afterSpace: bool): nat {
    if s == [] then 0
    else (if afterSpace && !IsSpace(s[0]) then 1 else 0) + TokenStarts(s[1..], IsSpace(s[0]))
  }

  /** Inside a run, no token starts until the run ends. */
  lemma {:induction false} TokenStartsSkipRun(s: string)
    requires s != [] && !IsSpace(s[0])
    ensures TokenStarts(s[1..], false) == TokenStarts(s[RunLength(s)..], true)
  {
    var t := s[1..];
    if t != [] && !IsSpace(t[0]) {
      TokenStartsSkipRun(t);
      assert s[RunLength(s)..] == t[RunLength(t)..];
    }
  }

  /** `len(s.split())` counts exactly the token starts. */
  lemma {:induction false} WordCountIsTokenStarts(s: string)
    ensures WordCount(s) == TokenStarts(s, true)
    decreases |s|
  {
    if s != [] {
      if IsSpace(s[0]) {
        WordCountIsTokenStarts(s[1..]);
      } else {
        TokenStartsSkipRun(s);
        WordCountIsTokenStarts(s[RunLength(s)..]);
      }
    }
  }
}
