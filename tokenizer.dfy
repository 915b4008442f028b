/**
 Tokenising, normalising and counting the words of one document
 (`preprocessText`).

 A document is given as the sequence of its whitespace-delimited tokens, the
 words `file >> word` reads one after another. Each token keeps only its ASCII
 letters and digits, upper-cased; a token that becomes empty or one of the
 stopwords A, AND, AN, OF, IN, THE is skipped, and every other normalised word
 increments its entry in the word-count map.
 */
module Tokenizer {

  /** Word to occurrence count, one map per document. */
  type WordCount = map<string, nat>

  /** `isalnum` of the C locale. */
  predicate IsAlnum(c: char)
  {
    ('0' <= c <= '9') || ('A' <= c <= 'Z') || ('a' <= c <= 'z')
  }

  /** `toupper` of the C locale. */
  function ToUpper(c: char): char
  {
    if 'a' <= c <= 'z' then (c as int - 32) as char else c
  }

  /** The characters a normalised word is made of. */
  predicate IsNormalChar(c: char)
  {
    ('0' <= c <= '9') || ('A' <= c <= 'Z')
  }

  /** A token with every non-alphanumeric character dropped and the rest upper-cased. */
  function Normalize(word: string): (r: string)
    ensures |r| <= |word|
    ensures forall k :: 0 <= k < |r| ==> IsNormalChar(r[k])
  {
    if word == [] then []
    else
      var c := word[|word| - 1];
      Normalize(word[..|word| - 1]) + (if IsAlnum(c) then [ToUpper(c)] else [])
  }

  /** The loop that builds `normalized` one character at a time. */
  method NormalizeToken(word: string) returns (normalized: string)
    ensures normalized == Normalize(word)
  {
    normalized := "";
    for i := 0 to |word|
      invariant normalized == Normalize(word[..i])
    {
      assert word[..i + 1][..i] == word[..i];
      if IsAlnum(word[i]) {
        normalized := normalized + [ToUpper(word[i])];
      }
    }
    assert word[..|word|] == word;
  }

  /** A word made only of upper-case letters and digits is its own normal form. */
  lemma {:induction false} NormalizeFixesNormalWords(w: string)
    requires forall k :: 0 <= k < |w| ==> IsNormalChar(w[k])
    ensures Normalize(w) == w
  {
    if w != [] {
      NormalizeFixesNormalWords(w[..|w| - 1]);
      assert w == w[..|w| - 1] + [w[|w| - 1]];
    }
  }

  /** Normalisation is idempotent. */
  lemma NormalizeIdempotent(w: string)
    ensures Normalize(Normalize(w)) == Normalize(w)
  {
    NormalizeFixesNormalWords(Normalize(w));
  }

  /** The `commonWords` set. */
  const Stopwords: set<string> := {"A", "AND", "AN", "OF", "IN", "THE"}

  /** A normalised word that is counted: non-empty and not a stopword. */
  predicate Counted(w: string)
  {
    w != "" && w !in Stopwords
  }

  /** The number of tokens that normalise to `w`. */
  function Occurrences(tokens: seq<string>, w: string): nat
  {
    if tokens == [] then 0
    else Occurrences(tokens[..|tokens| - 1], w) + (if Normalize(tokens[|tokens| - 1]) == w then 1 else 0)
  }

  /** The number of tokens whose normal form is counted. */
  function NumCounted(tokens: seq<string>): nat
  {
    if tokens == [] then 0
    else NumCounted(tokens[..|tokens| - 1]) + (if Counted(Normalize(tokens[|tokens| - 1])) then 1 else 0)
  }

  /** The counted normal forms of the tokens. */
  function Vocabulary(tokens: seq<string>): set<string>
  {
    set t | t in tokens && Counted(Normalize(t)) :: Normalize(t)
  }

  /** The word-count map of a document: each counted word against its number of occurrences. */
  function WordCountOf(tokens: seq<string>): WordCount
  {
    map w | w in Vocabulary(tokens) :: Occurrences(tokens, w)
  }

  /** Every count is at least one: no word is stored without occurring. */
  predicate PositiveCounts(m: WordCount)
  {
    forall w :: w in m ==> m[w] >= 1
  }

  /** The sum of all counts of a map (`totalWords`). */
  ghost function SumCounts(m: WordCount): nat
    decreases |m|
  {
    if m == map[] then 0
    else
      var w :| w in m;
      assert (m - {w}).Keys == m.Keys - {w};
      m[w] + SumCounts(m - {w})
  }

  /** `preprocessText` without the file: the loop over the tokens. */
  method PreprocessText(tokens: seq<string>) returns (wordCount: WordCount)
    ensures wordCount == WordCountOf(tokens)
  {
    wordCount := map[];
    for i := 0 to |tokens|
      invariant wordCount == WordCountOf(tokens[..i])
    {
      var normalized := NormalizeToken(tokens[i]);
      if normalized != "" && normalized !in Stopwords {
        wordCount := wordCount[normalized := (if normalized in wordCount then wordCount[normalized] else 0) + 1];
      }
      assert tokens[..i + 1] == tokens[..i] + [tokens[i]];
      WordCountOfSnoc(tokens[..i], tokens[i]);
    }
    assert tokens[..|tokens|] == tokens;
  }

  /** `m` with the count of `w` incremented, a missing entry starting from zero. */
  function Increment(m: WordCount, w: string): WordCount
  {
    m[w := (if w in m then m[w] else 0) + 1]
  }

  /** One more token increments the count of its normal form if that is counted. */
  lemma WordCountOfSnoc(s: seq<string>, t: string)
    ensures WordCountOf(s + [t]) ==
      if Counted(Normalize(t)) then Increment(WordCountOf(s), Normalize(t)) else WordCountOf(s)
  {
    if Counted(Normalize(t)) {
      WordCountOfSnocCounted(s, t);
    } else {
      WordCountOfSnocSkipped(s, t);
    }
  }

  /** A token whose normal form is counted increments that count. */
  lemma WordCountOfSnocCounted(s: seq<string>, t: string)
    requires Counted(Normalize(t))
    ensures WordCountOf(s + [t]) == Increment(WordCountOf(s), Normalize(t))
  {
    var after, expected := WordCountOf(s + [t]), Increment(WordCountOf(s), Normalize(t));
    WordCountKeysSnoc(s, t);
    assert after.Keys == expected.Keys;
    forall w | w in after
      ensures after[w] == expected[w]
    {
      WordCountOfSnocAt(s, t, w);
    }
    SameMap(after, expected);
  }

  /** A token whose normal form is not counted leaves the map unchanged. */
  lemma WordCountOfSnocSkipped(s: seq<string>, t: string)
    requires !Counted(Normalize(t))
    ensures WordCountOf(s + [t]) == WordCountOf(s)
  {
    var after, expected := WordCountOf(s + [t]), WordCountOf(s);
    WordCountKeysSnoc(s, t);
    assert after.Keys == expected.Keys;
    forall w | w in after
      ensures after[w] == expected[w]
    {
      WordCountOfSnocAt(s, t, w);
    }
    SameMap(after, expected);
  }

  /** Maps with the same keys and the same value at each key are equal. */
  lemma SameMap(a: WordCount, b: WordCount)
    requires a.Keys == b.Keys
    requires forall w :: w in a ==> a[w] == b[w]
    ensures a == b
  {
  }

  /** One more token adds its normal form to the keys if that is counted. */
  lemma WordCountKeysSnoc(s: seq<string>, t: string)
    ensures WordCountOf(s + [t]).Keys == WordCountOf(s).Keys + (if Counted(Normalize(t)) then {Normalize(t)} else {})
  {
    VocabularySnoc(s, t);
    assert WordCountOf(s + [t]).Keys == Vocabulary(s + [t]);
    assert WordCountOf(s).Keys == Vocabulary(s);
  }

  /** The count of one word after one more token. */
  lemma WordCountOfSnocAt(s: seq<string>, t: string, w: string)
    requires w in WordCountOf(s + [t])
    ensures w == Normalize(t) ==> WordCountOf(s + [t])[w] == (if w in WordCountOf(s) then WordCountOf(s)[w] else 0) + 1
    ensures w != Normalize(t) ==> w in WordCountOf(s) && WordCountOf(s + [t])[w] == WordCountOf(s)[w]
  {
    VocabularySnoc(s, t);
    OccurrencesSnoc(s, t, w);
    VocabularyOccurs(s, w);
  }

  /** One more token adds one occurrence of its normal form and none of any other word. */
  lemma OccurrencesSnoc(s: seq<string>, t: string, w: string)
    ensures Occurrences(s + [t], w) == Occurrences(s, w) + (if Normalize(t) == w then 1 else 0)
  {
    assert (s + [t])[..|s|] == s;
  }

  /** One more token adds its normal form to the vocabulary if that is counted. */
  lemma VocabularySnoc(s: seq<string>, t: string)
    ensures Vocabulary(s + [t]) == Vocabulary(s) + (if Counted(Normalize(t)) then {Normalize(t)} else {})
  {
    assert forall x :: x in s + [t] <==> x in s || x == t;
  }

  /** A word is in the vocabulary exactly when it is counted and occurs. */
  lemma {:induction false} VocabularyOccurs(s: seq<string>, w: string)
    ensures w in Vocabulary(s) <==> Counted(w) && Occurrences(s, w) > 0
  {
    if s != [] {
      var init, last := s[..|s| - 1], s[|s| - 1];
      assert s == init + [last];
      VocabularySnoc(init, last);
      VocabularyOccurs(init, w);
    }
  }

  /** Keys are counted words; every value is positive and is the word's number of occurrences. */
  lemma WordCountKeys(tokens: seq<string>)
    ensures forall w :: w in WordCountOf(tokens) ==>
      w != "" && w !in Stopwords && WordCountOf(tokens)[w] == Occurrences(tokens, w) >= 1
    ensures forall w :: Counted(w) && Occurrences(tokens, w) > 0 ==> w in WordCountOf(tokens)
    ensures PositiveCounts(WordCountOf(tokens))
  {
    forall w ensures w in Vocabulary(tokens) <==> Counted(w) && Occurrences(tokens, w) > 0 {
      VocabularyOccurs(tokens, w);
    }
  }

  /** The counts add up to the number of tokens that were counted. */
  lemma {:induction false} WordCountTotal(tokens: seq<string>)
    ensures SumCounts(WordCountOf(tokens)) == NumCounted(tokens)
  {
    if tokens != [] {
      var init, last := tokens[..|tokens| - 1], tokens[|tokens| - 1];
      assert tokens == init + [last];
      WordCountTotal(init);
      WordCountOfSnoc(init, last);
      if Counted(Normalize(last)) {
        SumCountsIncrement(WordCountOf(init), Normalize(last));
      }
    }
  }

  /** Incrementing one count adds one to the sum. */
  lemma SumCountsIncrement(m: WordCount, w: string)
    ensures SumCounts(Increment(m, w)) == SumCounts(m) + 1
  {
    SumCountsUpdate(m, w, (if w in m then m[w] else 0) + 1);
  }

  /** Removing one key takes its count out of the sum, whichever key it is. */
  lemma {:induction false} SumCountsRemove(m: WordCount, k: string)
    requires k in m
    ensures SumCounts(m) == m[k] + SumCounts(m - {k})
    decreases |m|
  {
    var j :| j in m && SumCounts(m) == m[j] + SumCounts(m - {j});
    if j != k {
      assert (m - {j}).Keys == m.Keys - {j};
      assert (m - {k}).Keys == m.Keys - {k};
      SumCountsRemove(m - {j}, k);
      SumCountsRemove(m - {k}, j);
      assert m - {j} - {k} == m - {k} - {j};
    }
  }

  /** With every count at least one, a non-empty map has a positive total. */
  lemma PositiveTotal(m: WordCount)
    requires PositiveCounts(m)
    ensures m != map[] ==> SumCounts(m) > 0
  {
    if m != map[] {
      var w :| w in m;
      SumCountsRemove(m, w);
    }
  }

  /** Setting the count of `k` to `v` changes the sum by the difference. */
  lemma SumCountsUpdate(m: WordCount, k: string, v: nat)
    ensures SumCounts(m[k := v]) == SumCounts(m) - (if k in m then m[k] else 0) + v
  {
    SumCountsRemove(m[k := v], k);
    if k in m {
      SumCountsRemove(m, k);
      assert m[k := v] - {k} == m - {k};
    } else {
      assert m[k := v] - {k} == m;
    }
  }
}
