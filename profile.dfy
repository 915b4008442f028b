/**
 Building the frequency profile of one document (`getTopFrequentWords`).

 The map entries are copied into a vector in the map's (unspecified) iteration
 order, sorted by count in descending order, and summed into a total taken over
 the whole map; the first min(100, entries) of them are kept, each with weight
 count / total.
 */
module Profile {
  import opened Tokenizer
  import opened Sorting

  /** How many words a profile keeps. */
  const MaxProfileSize: nat := 100

  /** `std::min`. */
  function Min(a: int, b: int): int
  {
    if a < b then a else b
  }

  /** One `pair<string, int>` of `freqVec`. */
  datatype Entry = Entry(word: string, count: nat)

  /** One `pair<string, double>` of a profile. */
  datatype WeightedWord = WeightedWord(word: string, weight: real)

  type FrequencyProfile = seq<WeightedWord>

  /** The sort key of `freqVec`. */
  function EntryCount(e: Entry): real
  {
    e.count as real
  }

  /** `s` lists every entry of `m` exactly once, in some order. */
  ghost predicate EntriesOf(s: seq<Entry>, m: WordCount)
  {
    && (forall i :: 0 <= i < |s| ==> s[i].word in m && s[i].count == m[s[i].word])
    && (forall w :: w in m ==> exists i :: 0 <= i < |s| && s[i].word == w)
    && (forall i, j :: 0 <= i < j < |s| ==> s[i].word != s[j].word)
  }

  /** The words of a profile. */
  function WordsOf(p: FrequencyProfile): set<string>
  {
    set i | 0 <= i < |p| :: p[i].word
  }

  /** No word occurs twice in the profile. */
  ghost predicate DistinctWords(p: FrequencyProfile)
  {
    forall i, j :: 0 <= i < j < |p| ==> p[i].word != p[j].word
  }

  /**
   `p` is what `getTopFrequentWords` returns for `m` when the sort leaves the
   entries in the order `sorted`: the first min(100, |m|) of them, each with
   weight count / total, the total taken over all of `m`.
   */
  ghost predicate ProfileFrom(p: FrequencyProfile, sorted: seq<Entry>, m: WordCount)
  {
    && EntriesOf(sorted, m)
    && SortedDesc(sorted, EntryCount)
    && |p| == Min(MaxProfileSize, |sorted|)
    && (p != [] ==> SumCounts(m) > 0)
    && (forall k :: 0 <= k < |p| ==>
          p[k] == WeightedWord(sorted[k].word, sorted[k].count as real / SumCounts(m) as real))
  }

  /** `p` is a profile `getTopFrequentWords` may return for `m`, whichever way ties are sorted. */
  ghost predicate IsProfileOf(p: FrequencyProfile, m: WordCount)
  {
    exists sorted: seq<Entry> :: ProfileFrom(p, sorted, m)
  }

  /** The sum of the counts of a sequence of entries. */
  function SumEntries(s: seq<Entry>): nat
  {
    if s == [] then 0 else SumEntries(s[..|s| - 1]) + s[|s| - 1].count
  }

  /** The sum of the weights of a profile. */
  function SumWeights(p: FrequencyProfile): real
  {
    if p == [] then 0.0 else p[0].weight + SumWeights(p[1..])
  }

  /** The sum of the counts `m` gives the words of `p`. */
  function CountsOf(p: FrequencyProfile, m: WordCount): nat
    requires forall i :: 0 <= i < |p| ==> p[i].word in m
  {
    if p == [] then 0 else m[p[0].word] + CountsOf(p[1..], m)
  }

  /** `vector<pair<string, int>> freqVec(wordCount.begin(), wordCount.end())`, in some iteration order. */
  method MapEntries(m: WordCount) returns (s: seq<Entry>)
    ensures EntriesOf(s, m)
  {
    s := [];
    var rest := m.Keys;
    while rest != {}
      invariant rest <= m.Keys
      invariant forall i :: 0 <= i < |s| ==> s[i].word in m && s[i].word !in rest && s[i].count == m[s[i].word]
      invariant forall w :: w in m && w !in rest ==> exists i :: 0 <= i < |s| && s[i].word == w
      invariant forall i, j :: 0 <= i < j < |s| ==> s[i].word != s[j].word
      decreases rest
    {
      var w :| w in rest;
      ghost var before := s;
      s := s + [Entry(w, m[w])];
      rest := rest - {w};
      assert forall i :: 0 <= i < |before| ==> s[i] == before[i];
      assert s[|before|].word == w;
    }
  }

  /** `getTopFrequentWords`. */
  method GetTopFrequentWords(wordCount: WordCount) returns (normalizedFreq: FrequencyProfile)
    requires wordCount != map[] ==> SumCounts(wordCount) > 0
    ensures IsProfileOf(normalizedFreq, wordCount)
  {
    var entries := MapEntries(wordCount);
    var freqVec := new Entry[|entries|](k requires 0 <= k < |entries| => entries[k]);
    assert freqVec[..] == entries;
    SortDescending(freqVec, EntryCount);
    EntriesOfPermutation(entries, freqVec[..], wordCount);

    var sorted := freqVec[..];
    EntriesOfSize(sorted, wordCount);

    var totalWords := TotalCount(sorted);
    SumEntriesOf(sorted, wordCount);
    normalizedFreq := WeighTop(sorted, totalWords);
    ProfileIntro(normalizedFreq, sorted, wordCount, totalWords);
  }

  /** The `totalWords` loop: the sum of all counts. */
  method TotalCount(freqVec: seq<Entry>) returns (totalWords: nat)
    ensures totalWords == SumEntries(freqVec)
  {
    totalWords := 0;
    for i := 0 to |freqVec|
      invariant totalWords == SumEntries(freqVec[..i])
    {
      assert freqVec[..i + 1][..i] == freqVec[..i];
      totalWords := totalWords + freqVec[i].count;
    }
    assert freqVec[..|freqVec|] == freqVec;
  }

  /** The `normalizedFreq` loop: the first min(100, |freqVec|) entries, each count over the total. */
  method WeighTop(freqVec: seq<Entry>, totalWords: nat) returns (normalizedFreq: FrequencyProfile)
    requires freqVec != [] ==> totalWords > 0
    ensures |normalizedFreq| == Min(MaxProfileSize, |freqVec|)
    ensures forall k :: 0 <= k < |normalizedFreq| ==>
      normalizedFreq[k] == WeightedWord(freqVec[k].word, freqVec[k].count as real / totalWords as real)
  {
    normalizedFreq := [];
    for i := 0 to Min(MaxProfileSize, |freqVec|)
      invariant |normalizedFreq| == i
      invariant forall k :: 0 <= k < i ==>
        normalizedFreq[k] == WeightedWord(freqVec[k].word, freqVec[k].count as real / totalWords as real)
    {
      normalizedFreq := normalizedFreq + [WeightedWord(freqVec[i].word, freqVec[i].count as real / totalWords as real)];
    }
  }

  /** The weighted prefix of a sorted entry list is a profile of the map. */
  lemma ProfileIntro(p: FrequencyProfile, sorted: seq<Entry>, m: WordCount, total: nat)
    requires EntriesOf(sorted, m) && SortedDesc(sorted, EntryCount)
    requires total == SumCounts(m) && |p| == Min(MaxProfileSize, |sorted|)
    requires p != [] ==> total > 0
    requires forall k :: 0 <= k < |p| ==> p[k] == WeightedWord(sorted[k].word, sorted[k].count as real / total as real)
    ensures IsProfileOf(p, m)
  {
    assert ProfileFrom(p, sorted, m);
  }

  /** A profile has min(100, |m|) distinct words of `m`, each weighted by its share of all counts. */
  lemma ProfileShape(p: FrequencyProfile, m: WordCount)
    requires IsProfileOf(p, m)
    ensures |p| == Min(MaxProfileSize, |m|)
    ensures forall i :: 0 <= i < |p| ==>
      p[i].word in m && SumCounts(m) > 0 && p[i].weight == m[p[i].word] as real / SumCounts(m) as real
    ensures DistinctWords(p)
  {
    var sorted: seq<Entry> :| ProfileFrom(p, sorted, m);
    EntriesOfSize(sorted, m);
  }

  /** The weights of a profile are non-increasing. */
  lemma ProfileOrdered(p: FrequencyProfile, m: WordCount)
    requires IsProfileOf(p, m)
    ensures forall i, j :: 0 <= i < j < |p| ==> p[i].weight >= p[j].weight
  {
    var sorted: seq<Entry> :| ProfileFrom(p, sorted, m);
    forall i, j | 0 <= i < j < |p|
      ensures p[i].weight >= p[j].weight
    {
      assert EntryCount(sorted[i]) >= EntryCount(sorted[j]);
      DivideMonotone(sorted[j].count as real, sorted[i].count as real, SumCounts(m) as real);
    }
  }

  /** No word left out of a profile has a higher count than a word kept in it. */
  lemma ProfileKeepsMostFrequent(p: FrequencyProfile, m: WordCount)
    requires IsProfileOf(p, m)
    ensures forall w, i :: w in m && w !in WordsOf(p) && 0 <= i < |p| ==> m[w] <= m[p[i].word]
  {
    var sorted: seq<Entry> :| ProfileFrom(p, sorted, m);
    assert forall k :: 0 <= k < |p| ==> p[k].word == sorted[k].word && p[k].word in WordsOf(p);
    forall w, i | w in m && w !in WordsOf(p) && 0 <= i < |p|
      ensures m[w] <= m[p[i].word]
    {
      var q :| 0 <= q < |sorted| && sorted[q].word == w;
      LeftOutComesLater(p, sorted, q);
      assert EntryCount(sorted[i]) >= EntryCount(sorted[q]);
    }
  }

  /** An entry whose word the profile leaves out lies past the kept prefix. */
  lemma LeftOutComesLater(p: FrequencyProfile, sorted: seq<Entry>, q: nat)
    requires q < |sorted| && |p| <= |sorted|
    requires forall k :: 0 <= k < |p| ==> p[k].word == sorted[k].word
    requires sorted[q].word !in WordsOf(p)
    ensures q >= |p|
  {
    assert forall k :: 0 <= k < |p| ==> sorted[k].word in WordsOf(p);
  }

  /** A count over a positive total not below it is a share in [0, 1], and positive if the count is. */
  lemma ShareInUnit(count: nat, total: nat)
    requires count <= total && total > 0
    ensures 0.0 <= count as real / total as real <= 1.0
    ensures count >= 1 ==> 0.0 < count as real / total as real
  {
    var x := count as real / total as real;
    assert x * total as real == count as real;
  }

  /** Division by a positive number keeps order. */
  lemma DivideMonotone(a: real, b: real, t: real)
    requires a <= b && t > 0.0
    ensures a / t <= b / t
  {
  }

  /** An entry list of a map has as many entries as the map has keys. */
  lemma {:induction false} EntriesOfSize(s: seq<Entry>, m: WordCount)
    requires EntriesOf(s, m)
    ensures |s| == |m|
  {
    if s == [] {
      assert forall w :: w !in m;
      assert m == map[];
    } else {
      var init, last := s[..|s| - 1], s[|s| - 1];
      EntriesOfInit(s, m);
      EntriesOfSize(init, m - {last.word});
      assert (m - {last.word}).Keys == m.Keys - {last.word};
    }
  }

  /** Dropping the last entry leaves an entry list of the map without that word. */
  lemma EntriesOfInit(s: seq<Entry>, m: WordCount)
    requires EntriesOf(s, m) && s != []
    ensures EntriesOf(s[..|s| - 1], m - {s[|s| - 1].word})
  {
    var init, last := s[..|s| - 1], s[|s| - 1];
    forall w | w in m - {last.word}
      ensures exists i :: 0 <= i < |init| && init[i].word == w
    {
      var i :| 0 <= i < |s| && s[i].word == w;
      assert i < |init| && init[i].word == w;
    }
  }

  /** The counts of an entry list add up to the sum of the map's counts. */
  lemma {:induction false} SumEntriesOf(s: seq<Entry>, m: WordCount)
    requires EntriesOf(s, m)
    ensures SumEntries(s) == SumCounts(m)
  {
    if s == [] {
      assert forall w :: w !in m;
      assert m == map[];
    } else {
      var last := s[|s| - 1];
      EntriesOfInit(s, m);
      SumEntriesOf(s[..|s| - 1], m - {last.word});
      SumCountsRemove(m, last.word);
    }
  }

  /** Reordering an entry list gives an entry list of the same map. */
  lemma EntriesOfPermutation(s: seq<Entry>, t: seq<Entry>, m: WordCount)
    requires EntriesOf(s, m) && multiset(s) == multiset(t)
    ensures EntriesOf(t, m)
  {
    forall i | 0 <= i < |t|
      ensures t[i].word in m && t[i].count == m[t[i].word]
    {
      assert t[i] in multiset(t);
      assert t[i] in s;
    }
    forall w | w in m
      ensures exists i :: 0 <= i < |t| && t[i].word == w
    {
      var p :| 0 <= p < |s| && s[p].word == w;
      assert s[p] in multiset(t);
      var i :| 0 <= i < |t| && t[i] == s[p];
    }
    assert Distinct(s);
    PermutationDistinct(s, t);
  }

  /** Each weight lies in (0, 1], and an empty map gives an empty profile. */
  lemma ProfileWeightBounds(p: FrequencyProfile, m: WordCount)
    requires PositiveCounts(m) && IsProfileOf(p, m)
    ensures m == map[] ==> p == []
    ensures forall i :: 0 <= i < |p| ==> 0.0 < p[i].weight <= 1.0
  {
    ProfileShape(p, m);
    forall i | 0 <= i < |p|
      ensures 0.0 < p[i].weight <= 1.0
    {
      var w := p[i].word;
      SumCountsRemove(m, w);
      ShareInUnit(m[w], SumCounts(m));
    }
  }

  /** The weights sum to the kept counts over the total, which is at most one. */
  lemma ProfileWeightSum(p: FrequencyProfile, m: WordCount)
    requires IsProfileOf(p, m)
    ensures forall i :: 0 <= i < |p| ==> p[i].word in m
    ensures p != [] ==> SumCounts(m) > 0 && SumWeights(p) == CountsOf(p, m) as real / SumCounts(m) as real
    ensures SumWeights(p) <= 1.0
  {
    ProfileShape(p, m);
    if p != [] {
      var total := SumCounts(m);
      WeightSum(p, m, total);
      DistinctCountsBound(p, m);
      ShareInUnit(CountsOf(p, m), total);
    }
  }

  /** Weights that are counts over one total sum to the counts' sum over that total. */
  lemma {:induction false} WeightSum(p: FrequencyProfile, m: WordCount, total: nat)
    requires total > 0
    requires forall i :: 0 <= i < |p| ==> p[i].word in m && p[i].weight == m[p[i].word] as real / total as real
    ensures SumWeights(p) == CountsOf(p, m) as real / total as real
  {
    if p != [] {
      var rest := p[1..];
      assert forall i :: 0 <= i < |rest| ==> rest[i] == p[i + 1];
      WeightSum(rest, m, total);
      AddShares(m[p[0].word] as real, CountsOf(rest, m) as real, total as real);
    }
  }

  /** Two shares of one total add up to the share of the sum. */
  lemma AddShares(a: real, b: real, t: real)
    requires t > 0.0
    ensures a / t + b / t == (a + b) / t
  {
  }

  /** Distinct words of `m` carry together at most the total count of `m`. */
  lemma {:induction false} DistinctCountsBound(p: FrequencyProfile, m: WordCount)
    requires forall i :: 0 <= i < |p| ==> p[i].word in m
    requires DistinctWords(p)
    ensures CountsOf(p, m) <= SumCounts(m)
  {
    if p != [] {
      var w, rest := p[0].word, p[1..];
      var smaller := m - {w};
      assert forall i :: 0 <= i < |rest| ==> rest[i].word in smaller && rest[i].word == p[i + 1].word;
      DistinctCountsBound(rest, smaller);
      CountsOfAgree(rest, m, smaller);
      SumCountsRemove(m, w);
    }
  }

  /** Two maps that agree on the words of `p` give them the same counts. */
  lemma {:induction false} CountsOfAgree(p: FrequencyProfile, m: WordCount, m': WordCount)
    requires forall i :: 0 <= i < |p| ==> p[i].word in m && p[i].word in m' && m[p[i].word] == m'[p[i].word]
    ensures CountsOf(p, m) == CountsOf(p, m')
  {
    if p != [] {
      CountsOfAgree(p[1..], m, m');
    }
  }
}
