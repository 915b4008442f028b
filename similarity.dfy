/**
 Scoring a pair of profiles (`computeSimilarity`).

 A word-to-weight lookup is built from the first profile (a later entry for
 the same word overwrites an earlier one), then every word of the second
 profile found in the lookup adds the product of its two weights to the score.

 `SharedDot` is the reference the algorithm is proved against: the sum, over
 every pair of entries of the two profiles that carry the same word, of the
 product of their weights.
 */
module Similarity {
  import opened Tokenizer
  import opened Profile

  /** `freqMap` after the first loop: each word of `p` against its last weight in `p`. */
  function WeightMap(p: FrequencyProfile): map<string, real>
  {
    if p == [] then map[]
    else WeightMap(p[..|p| - 1])[p[|p| - 1].word := p[|p| - 1].weight]
  }

  /** What the second loop adds up: each entry of `p` found in `lookup`, times its weight there. */
  function LookupDot(lookup: map<string, real>, p: FrequencyProfile): real
  {
    if p == [] then 0.0
    else
      var e := p[|p| - 1];
      LookupDot(lookup, p[..|p| - 1]) + (if e.word in lookup then lookup[e.word] * e.weight else 0.0)
  }

  /** The value `computeSimilarity(file1, file2)` returns. */
  function Score(file1: FrequencyProfile, file2: FrequencyProfile): real
  {
    LookupDot(WeightMap(file1), file2)
  }

  /** The contribution of a pair of entries: the product of the weights when the words agree. */
  function Match(x: WeightedWord, y: WeightedWord): real
  {
    if x.word == y.word then x.weight * y.weight else 0.0
  }

  /** The contributions of `y` against every entry of `p`. */
  function RowDot(p: FrequencyProfile, y: WeightedWord): real
  {
    if p == [] then 0.0 else RowDot(p[..|p| - 1], y) + Match(p[|p| - 1], y)
  }

  /** The sum over all pairs of entries with the same word of the product of their weights. */
  function SharedDot(p: FrequencyProfile, q: FrequencyProfile): real
  {
    if q == [] then 0.0 else SharedDot(p, q[..|q| - 1]) + RowDot(p, q[|q| - 1])
  }

  /** The sum of the squared weights of a profile. */
  function SumSquares(p: FrequencyProfile): real
  {
    if p == [] then 0.0 else SumSquares(p[..|p| - 1]) + p[|p| - 1].weight * p[|p| - 1].weight
  }

  /** `computeSimilarity`. */
  method ComputeSimilarity(file1: FrequencyProfile, file2: FrequencyProfile) returns (similarity: real)
    ensures similarity == Score(file1, file2)
    ensures DistinctWords(file1) ==> similarity == SharedDot(file1, file2)
  {
    var freqMap: map<string, real> := map[];
    for i := 0 to |file1|
      invariant freqMap == WeightMap(file1[..i])
    {
      assert file1[..i + 1][..i] == file1[..i];
      freqMap := freqMap[file1[i].word := file1[i].weight];
    }
    assert file1[..|file1|] == file1;

    similarity := 0.0;
    for j := 0 to |file2|
      invariant similarity == LookupDot(freqMap, file2[..j])
    {
      assert file2[..j + 1][..j] == file2[..j];
      if file2[j].word in freqMap {
        similarity := similarity + freqMap[file2[j].word] * file2[j].weight;
      }
    }
    assert file2[..|file2|] == file2;
    if DistinctWords(file1) {
      ScoreIsSharedDot(file1, file2);
    }
  }

  /** The lookup holds exactly the words of the profile. */
  lemma {:induction false} WeightMapKeys(p: FrequencyProfile)
    ensures WeightMap(p).Keys == WordsOf(p)
  {
    if p != [] {
      var init := p[..|p| - 1];
      WeightMapKeys(init);
      assert WordsOf(p) == WordsOf(init) + {p[|p| - 1].word} by {
        assert forall i :: 0 <= i < |init| ==> init[i] == p[i];
      }
    }
  }

  /** With distinct words the lookup gives every word its own weight. */
  lemma {:induction false} WeightMapAt(p: FrequencyProfile, k: nat)
    requires DistinctWords(p) && k < |p|
    ensures p[k].word in WeightMap(p) && WeightMap(p)[p[k].word] == p[k].weight
  {
    var init := p[..|p| - 1];
    if k < |p| - 1 {
      assert init[k] == p[k];
      WeightMapAt(init, k);
    }
  }

  /** With distinct words, one entry's contributions are its product with the looked-up weight. */
  lemma {:induction false} RowDotLookup(p: FrequencyProfile, y: WeightedWord)
    requires DistinctWords(p)
    ensures RowDot(p, y) == if y.word in WeightMap(p) then WeightMap(p)[y.word] * y.weight else 0.0
  {
    if p != [] {
      var init, x := p[..|p| - 1], p[|p| - 1];
      assert DistinctWords(init);
      RowDotLookup(init, y);
      if x.word == y.word {
        WeightMapKeys(init);
        assert forall i :: 0 <= i < |init| ==> init[i].word == p[i].word != x.word;
        assert y.word !in WeightMap(init);
      }
    }
  }

  /** For a first profile with distinct words the algorithm computes the reference sum. */
  lemma {:induction false} ScoreIsSharedDot(p: FrequencyProfile, q: FrequencyProfile)
    requires DistinctWords(p)
    ensures Score(p, q) == SharedDot(p, q)
  {
    if q != [] {
      ScoreIsSharedDot(p, q[..|q| - 1]);
      RowDotLookup(p, q[|q| - 1]);
    }
  }

  /** Nothing is shared with an empty profile. */
  lemma {:induction false} SharedDotEmptyLeft(q: FrequencyProfile)
    ensures SharedDot([], q) == 0.0
  {
    if q != [] {
      SharedDotEmptyLeft(q[..|q| - 1]);
    }
  }

  /** Adding an entry `x` to the first profile adds its contributions against the second. */
  lemma {:induction false} SharedDotSnocLeft(p: FrequencyProfile, x: WeightedWord, q: FrequencyProfile)
    ensures SharedDot(p + [x], q) == SharedDot(p, q) + RowDot(q, x)
  {
    if q != [] {
      var init, y := q[..|q| - 1], q[|q| - 1];
      SharedDotSnocLeft(p, x, init);
      assert (p + [x])[..|p|] == p;
      assert Match(x, y) == Match(y, x);
    }
  }

  /** The reference sum is symmetric in its two profiles. */
  lemma {:induction false} SharedDotSymmetric(p: FrequencyProfile, q: FrequencyProfile)
    ensures SharedDot(p, q) == SharedDot(q, p)
  {
    if p == [] {
      SharedDotEmptyLeft(q);
    } else {
      var init, x := p[..|p| - 1], p[|p| - 1];
      assert p == init + [x];
      SharedDotSnocLeft(init, x, q);
      SharedDotSymmetric(init, q);
    }
  }

  /** For profiles with distinct words the score does not depend on the order of its arguments. */
  lemma ScoreSymmetric(p: FrequencyProfile, q: FrequencyProfile)
    requires DistinctWords(p) && DistinctWords(q)
    ensures Score(p, q) == Score(q, p)
  {
    ScoreIsSharedDot(p, q);
    ScoreIsSharedDot(q, p);
    SharedDotSymmetric(p, q);
  }

  /** Non-negative weights give a non-negative score. */
  lemma ScoreNonNegative(p: FrequencyProfile, q: FrequencyProfile)
    requires forall i :: 0 <= i < |p| ==> p[i].weight >= 0.0
    requires forall i :: 0 <= i < |q| ==> q[i].weight >= 0.0
    ensures Score(p, q) >= 0.0
  {
    WeightMapNonNegative(p);
    LookupDotNonNegative(WeightMap(p), q);
  }

  /** Non-negative weights give a lookup with non-negative values. */
  lemma {:induction false} WeightMapNonNegative(p: FrequencyProfile)
    requires forall i :: 0 <= i < |p| ==> p[i].weight >= 0.0
    ensures forall w :: w in WeightMap(p) ==> WeightMap(p)[w] >= 0.0
  {
    if p != [] {
      WeightMapNonNegative(p[..|p| - 1]);
    }
  }

  /** Non-negative lookups and weights give a non-negative sum. */
  lemma {:induction false} LookupDotNonNegative(lookup: map<string, real>, q: FrequencyProfile)
    requires forall w :: w in lookup ==> lookup[w] >= 0.0
    requires forall i :: 0 <= i < |q| ==> q[i].weight >= 0.0
    ensures LookupDot(lookup, q) >= 0.0
  {
    if q != [] {
      LookupDotNonNegative(lookup, q[..|q| - 1]);
    }
  }

  /** The score of a profile with distinct words against itself is the sum of its squared weights. */
  lemma SelfScore(p: FrequencyProfile)
    requires DistinctWords(p)
    ensures Score(p, p) == SumSquares(p)
  {
    forall k | 0 <= k < |p|
      ensures p[k].word in WeightMap(p) && WeightMap(p)[p[k].word] == p[k].weight
    {
      WeightMapAt(p, k);
    }
    LookupDotSelf(WeightMap(p), p);
  }

  /** A lookup that gives every entry its own weight sums the squares. */
  lemma {:induction false} LookupDotSelf(lookup: map<string, real>, q: FrequencyProfile)
    requires forall k :: 0 <= k < |q| ==> q[k].word in lookup && lookup[q[k].word] == q[k].weight
    ensures LookupDot(lookup, q) == SumSquares(q)
  {
    if q != [] {
      LookupDotSelf(lookup, q[..|q| - 1]);
    }
  }

  /** The score of two document profiles is non-negative and symmetric. */
  lemma ProfileScoreProperties(p: FrequencyProfile, m: WordCount, q: FrequencyProfile, m': WordCount)
    requires PositiveCounts(m) && IsProfileOf(p, m)
    requires PositiveCounts(m') && IsProfileOf(q, m')
    ensures Score(p, q) == Score(q, p) >= 0.0
  {
    ProfileShape(p, m);
    ProfileShape(q, m');
    ProfileWeightBounds(p, m);
    ProfileWeightBounds(q, m');
    ScoreSymmetric(p, q);
    ScoreNonNegative(p, q);
  }
}
