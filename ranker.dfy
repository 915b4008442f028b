/**
 Ranking the corpus (`main`, without the file-name list and the printing).

 Every document is counted and reduced to its profile; an n-by-n similarity
 matrix is filled over i < j, writing the score of documents i and j into both
 cells (i, j) and (j, i); the upper triangle is flattened row by row into
 (score, i, j) triples, which are sorted by descending score, and the first
 min(10, number of pairs) of them are reported. Documents are identified by
 their position in the input list.
 */
module Ranker {
  import opened Tokenizer
  import opened Sorting
  import opened Profile
  import opened Similarity

  /** One `tuple<double, int, int>` of `similarityPairs`. */
  datatype RankedPair = RankedPair(score: real, first: nat, second: nat)

  /** How many pairs are reported. */
  const ReportSize: nat := 10

  /** The sort key of `similarityPairs`. */
  function PairScore(r: RankedPair): real
  {
    r.score
  }

  function Max(a: int, b: int): int
  {
    if a < b then b else a
  }

  /** What the matrix holds at (a, b): the score of the lower-numbered document against the other, zero on the diagonal. */
  function MatrixCell(bookData: seq<FrequencyProfile>, a: nat, b: nat): real
    requires a < |bookData| && b < |bookData|
  {
    if a < b then Score(bookData[a], bookData[b])
    else if b < a then Score(bookData[b], bookData[a])
    else 0.0
  }

  /** The index pairs (i, i + 1), ..., (i, j - 1). */
  function RowPairs(i: nat, j: nat): (r: seq<(nat, nat)>)
    ensures |r| == if j > i then j - i - 1 else 0
    ensures forall k :: 0 <= k < |r| ==> r[k] == (i, i + 1 + k)
    decreases j
  {
    if j <= i + 1 then [] else RowPairs(i, j - 1) + [(i, j - 1)]
  }

  /** The index pairs (a, b) with a < rows and a < b < n, row by row: the order of the nested loops. */
  function UpperPairs(rows: nat, n: nat): (r: seq<(nat, nat)>)
    ensures forall k :: 0 <= k < |r| ==> r[k].0 < rows && r[k].0 < r[k].1 < n
  {
    if rows == 0 then [] else UpperPairs(rows - 1, n) + RowPairs(rows - 1, n)
  }

  /** Every pair of distinct document indices, smaller index first. */
  function AllPairs(n: nat): seq<(nat, nat)>
  {
    UpperPairs(n, n)
  }

  /** The pair (a, b) occurs in `idx`. */
  ghost predicate Listed(idx: seq<(nat, nat)>, a: nat, b: nat)
  {
    exists k :: 0 <= k < |idx| && idx[k] == (a, b)
  }

  /** The unsorted `similarityPairs` of a corpus with these profiles. */
  function CorpusPairs(bookData: seq<FrequencyProfile>): seq<RankedPair>
  {
    var idx := AllPairs(|bookData|);
    seq(|idx|, k requires 0 <= k < |idx| =>
      RankedPair(Score(bookData[idx[k].0], bookData[idx[k].1]), idx[k].0, idx[k].1))
  }

  /** `pairs` lists, for each index pair of `idx` in turn, the matrix cell there and its indices. */
  ghost predicate ReadsOff(pairs: seq<RankedPair>, matrix: array2<real>, idx: seq<(nat, nat)>)
    reads matrix
  {
    && |pairs| == |idx|
    && forall k :: 0 <= k < |idx| ==>
         idx[k].0 < matrix.Length0 && idx[k].1 < matrix.Length1 &&
         pairs[k] == RankedPair(matrix[idx[k].0, idx[k].1], idx[k].0, idx[k].1)
  }

  /** The loops that build `similarityMatrix`. */
  method BuildMatrix(bookData: seq<FrequencyProfile>) returns (similarityMatrix: array2<real>)
    ensures fresh(similarityMatrix)
    ensures similarityMatrix.Length0 == |bookData| && similarityMatrix.Length1 == |bookData|
    ensures forall a, b :: 0 <= a < |bookData| && 0 <= b < |bookData| ==>
      similarityMatrix[a, b] == MatrixCell(bookData, a, b)
    ensures forall a, b :: 0 <= a < |bookData| && 0 <= b < |bookData| ==>
      similarityMatrix[a, b] == similarityMatrix[b, a]
    ensures forall a :: 0 <= a < |bookData| ==> similarityMatrix[a, a] == 0.0
    ensures (forall k :: 0 <= k < |bookData| ==> DistinctWords(bookData[k])) ==>
      forall a, b :: 0 <= a < |bookData| && 0 <= b < |bookData| && a != b ==>
        similarityMatrix[a, b] == Score(bookData[a], bookData[b])
  {
    var n := |bookData|;
    similarityMatrix := new real[n, n]((_, _) => 0.0);
    for i := 0 to n
      invariant forall a, b :: 0 <= a < n && 0 <= b < n ==>
        similarityMatrix[a, b] == if a != b && Min(a, b) < i then MatrixCell(bookData, a, b) else 0.0
    {
      for j := i + 1 to n
        invariant forall a, b :: 0 <= a < n && 0 <= b < n ==>
          similarityMatrix[a, b] ==
            if a != b && (Min(a, b) < i || (Min(a, b) == i && Max(a, b) < j)) then MatrixCell(bookData, a, b)
            else 0.0
      {
        var similarity := ComputeSimilarity(bookData[i], bookData[j]);
        similarityMatrix[i, j] := similarity;
        similarityMatrix[j, i] := similarity;
      }
    }
    if forall k :: 0 <= k < |bookData| ==> DistinctWords(bookData[k]) {
      forall a, b | 0 <= a < n && 0 <= b < n && b < a
        ensures Score(bookData[b], bookData[a]) == Score(bookData[a], bookData[b])
      {
        ScoreSymmetric(bookData[b], bookData[a]);
      }
    }
  }

  /** The loops that flatten the upper triangle into `similarityPairs`. */
  method CollectPairs(similarityMatrix: array2<real>) returns (similarityPairs: seq<RankedPair>)
    requires similarityMatrix.Length0 == similarityMatrix.Length1
    ensures ReadsOff(similarityPairs, similarityMatrix, AllPairs(similarityMatrix.Length0))
  {
    var n := similarityMatrix.Length0;
    similarityPairs := [];
    for i := 0 to n
      invariant ReadsOff(similarityPairs, similarityMatrix, UpperPairs(i, n))
    {
      assert UpperPairs(i, n) + RowPairs(i, i + 1) == UpperPairs(i, n);
      for j := i + 1 to n
        invariant ReadsOff(similarityPairs, similarityMatrix, UpperPairs(i, n) + RowPairs(i, j))
      {
        ReadsOffSnoc(similarityPairs, similarityMatrix, UpperPairs(i, n) + RowPairs(i, j), i, j);
        similarityPairs := similarityPairs + [RankedPair(similarityMatrix[i, j], i, j)];
        assert UpperPairs(i, n) + RowPairs(i, j + 1) == (UpperPairs(i, n) + RowPairs(i, j)) + [(i, j)];
      }
    }
  }

  /** Reading off one more cell extends the pair list by that cell and its indices. */
  lemma ReadsOffSnoc(pairs: seq<RankedPair>, matrix: array2<real>, idx: seq<(nat, nat)>, a: nat, b: nat)
    requires ReadsOff(pairs, matrix, idx)
    requires a < matrix.Length0 && b < matrix.Length1
    ensures ReadsOff(pairs + [RankedPair(matrix[a, b], a, b)], matrix, idx + [(a, b)])
  {
    var pairs', idx' := pairs + [RankedPair(matrix[a, b], a, b)], idx + [(a, b)];
    assert forall k :: 0 <= k < |idx| ==> pairs'[k] == pairs[k] && idx'[k] == idx[k];
  }

  /** The reporting loop: the first `ReportSize` pairs, or all of them if there are fewer. */
  method TopPairs(similarityPairs: seq<RankedPair>) returns (report: seq<RankedPair>)
    ensures report == similarityPairs[..Min(ReportSize, |similarityPairs|)]
  {
    report := [];
    var i := 0;
    while i < ReportSize && i < |similarityPairs|
      invariant i <= Min(ReportSize, |similarityPairs|)
      invariant report == similarityPairs[..i]
    {
      report := report + [similarityPairs[i]];
      i := i + 1;
    }
  }

  /**
   `main` over documents given as token sequences: the profiles, the pair list
   sorted by descending score, and the reported rows.
   */
  method RankCorpus(documents: seq<seq<string>>)
    returns (bookData: seq<FrequencyProfile>, ranked: seq<RankedPair>, report: seq<RankedPair>)
    ensures |bookData| == |documents|
    ensures forall k :: 0 <= k < |documents| ==> IsProfileOf(bookData[k], WordCountOf(documents[k]))
    ensures multiset(ranked) == multiset(CorpusPairs(bookData))
    ensures SortedDesc(ranked, PairScore)
    ensures report == ranked[..Min(ReportSize, |ranked|)]
    ensures |report| == Min(ReportSize, |documents| * (|documents| - 1) / 2)
    ensures |documents| < 2 ==> report == []
  {
    bookData := [];
    for i := 0 to |documents|
      invariant |bookData| == i
      invariant forall k :: 0 <= k < i ==> IsProfileOf(bookData[k], WordCountOf(documents[k]))
    {
      var wordCount := PreprocessText(documents[i]);
      WordCountKeys(documents[i]);
      PositiveTotal(wordCount);
      var profile := GetTopFrequentWords(wordCount);
      bookData := bookData + [profile];
    }

    var similarityMatrix := BuildMatrix(bookData);
    var similarityPairs := CollectPairs(similarityMatrix);
    assert similarityPairs == CorpusPairs(bookData);

    var sortable := new RankedPair[|similarityPairs|](k requires 0 <= k < |similarityPairs| => similarityPairs[k]);
    assert sortable[..] == similarityPairs;
    SortDescending(sortable, PairScore);
    ranked := sortable[..];
    report := TopPairs(ranked);
    CorpusPairsCount(bookData);
  }

  /** A row holds the pairs of its first index with each larger index up to `j`. */
  lemma RowPairsListed(i: nat, j: nat, b: nat)
    requires i < b < j
    ensures Listed(RowPairs(i, j), i, b)
  {
    assert RowPairs(i, j)[b - i - 1] == (i, b);
  }

  /** Rows 0 .. rows - 1 hold (rows - 1) + (rows - 2) + ... pairs, rows * (2n - rows - 1) / 2 in all. */
  lemma {:induction false} UpperPairsLength(rows: nat, n: nat)
    requires rows <= n
    ensures 2 * |UpperPairs(rows, n)| == rows * (2 * n - rows - 1)
  {
    if rows > 0 {
      UpperPairsLength(rows - 1, n);
      assert |RowPairs(rows - 1, n)| == n - rows;
      assert (rows - 1) * (2 * n - rows) + 2 * (n - rows) == rows * (2 * n - rows - 1);
    }
  }

  /** Every index pair (a, b) with a < rows and a < b < n is listed. */
  lemma {:induction false} UpperPairsComplete(rows: nat, n: nat)
    ensures forall a, b :: 0 <= a < rows && a < b < n ==> Listed(UpperPairs(rows, n), a, b)
  {
    if rows > 0 {
      UpperPairsComplete(rows - 1, n);
      var before, row := UpperPairs(rows - 1, n), RowPairs(rows - 1, n);
      forall a, b | 0 <= a < rows && a < b < n
        ensures Listed(before + row, a, b)
      {
        if a < rows - 1 {
          assert Listed(before, a, b);
          var k :| 0 <= k < |before| && before[k] == (a, b);
          assert (before + row)[k] == (a, b);
        } else {
          RowPairsListed(rows - 1, n, b);
          var k :| 0 <= k < |row| && row[k] == (a, b);
          assert (before + row)[|before| + k] == (a, b);
        }
      }
    }
  }

  /** No index pair is listed twice. */
  lemma {:induction false} UpperPairsDistinct(rows: nat, n: nat)
    ensures Distinct(UpperPairs(rows, n))
  {
    if rows > 0 {
      UpperPairsDistinct(rows - 1, n);
      var before, row := UpperPairs(rows - 1, n), RowPairs(rows - 1, n);
      var all := before + row;
      forall k, l | 0 <= k < l < |all|
        ensures all[k] != all[l]
      {
        if l < |before| {
          assert all[k] == before[k] && all[l] == before[l];
        } else if k < |before| {
          assert all[k].0 < rows - 1 && all[l].0 == rows - 1;
        } else {
          assert all[k] == row[k - |before|] && all[l] == row[l - |before|];
        }
      }
    }
  }

  /**
   The pair list of a corpus of n documents has n(n-1)/2 entries, one for each
   pair of indices i < j, each carrying the score of documents i and j.
   */
  lemma CorpusPairsShape(bookData: seq<FrequencyProfile>)
    ensures 2 * |CorpusPairs(bookData)| == |bookData| * (|bookData| - 1)
    ensures forall k :: 0 <= k < |CorpusPairs(bookData)| ==>
      var r := CorpusPairs(bookData)[k];
      r.first < r.second < |bookData| && r.score == Score(bookData[r.first], bookData[r.second])
    ensures forall a, b :: 0 <= a < b < |bookData| ==>
      RankedPair(Score(bookData[a], bookData[b]), a, b) in CorpusPairs(bookData)
    ensures forall k, l :: 0 <= k < l < |CorpusPairs(bookData)| ==>
      (CorpusPairs(bookData)[k].first, CorpusPairs(bookData)[k].second) !=
      (CorpusPairs(bookData)[l].first, CorpusPairs(bookData)[l].second)
  {
    var n := |bookData|;
    var pairs, idx := CorpusPairs(bookData), AllPairs(n);
    UpperPairsLength(n, n);
    UpperPairsComplete(n, n);
    UpperPairsDistinct(n, n);
    forall a, b | 0 <= a < b < n
      ensures RankedPair(Score(bookData[a], bookData[b]), a, b) in pairs
    {
      assert Listed(idx, a, b);
      var k :| 0 <= k < |idx| && idx[k] == (a, b);
      assert pairs[k] == RankedPair(Score(bookData[a], bookData[b]), a, b);
    }
    forall k, l | 0 <= k < l < |pairs|
      ensures (pairs[k].first, pairs[k].second) != (pairs[l].first, pairs[l].second)
    {
      assert idx[k] != idx[l];
    }
  }

  /** The number of pairs, n(n-1)/2. */
  lemma CorpusPairsCount(bookData: seq<FrequencyProfile>)
    ensures |CorpusPairs(bookData)| == |bookData| * (|bookData| - 1) / 2
  {
    UpperPairsLength(|bookData|, |bookData|);
  }
}
