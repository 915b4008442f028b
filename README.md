# Book similarity ranking, modelled in Dafny

This project models the text-similarity pipeline of `final_output.cpp`, which
compares a fixed corpus of books:

1. **Tokenise, normalise, count** (`preprocessText`): every whitespace-delimited
   token keeps only its letters and digits, upper-cased; empty results and the
   stopwords A, AND, AN, OF, IN, THE are dropped; every other word increments
   its entry in a word-count map (module `Tokenizer`, `tokenizer.dfy`).
2. **Profile** (`getTopFrequentWords`): the map entries are copied into a
   vector in the map's iteration order, sorted by descending count, summed
   into a total over the whole map, and the first min(100, entries) are kept,
   each weighted count / total (module `Profile`, `profile.dfy`).
3. **Score** (`computeSimilarity`): a word-to-weight lookup is built from the
   first profile; each word of the second profile found there adds the product
   of the two weights (module `Similarity`, `similarity.dfy`).
4. **Rank** (`main`, lines 113-150): an n-by-n matrix is filled over i < j
   with both cells (i, j) and (j, i) written; the upper triangle is flattened
   row by row into (score, i, j) triples, sorted by descending score, and the
   first min(10, pairs) are reported (module `Ranker`, `ranker.dfy`).

Both `std::sort` calls are modelled by one in-place sort on an `array`
(module `Sorting`, `sorting.dfy`), specified only by its postcondition: the
result is a permutation of the input and is non-increasing by the key. No tie
order is fixed, because `std::sort` is unstable and `unordered_map` iteration
order is unspecified. The copy of the map into `freqVec` is modelled with a
nondeterministic choice of the next key, so every iteration order is covered.
`GetTopFrequentWords` is specified by `IsProfileOf`, which holds of the
profile obtained from *any* sorted order of the entries.

Weights and scores are Dafny `real`. In the model a count over a total is an
exact rational and sums do not depend on the order of addition; the C++
computes in `double`, where neither holds (see "## Left out"). Counts are
unbounded `nat`.

Three behaviours one might expect of such a program do not hold of this code,
and the model follows the code:

- One might expect an unreadable file to be reported as an error. The code
  (final_output.cpp:16, 21) silently reads it as an empty document, giving
  an empty word-count map. The model starts from tokens, so neither behaviour
  is modelled.
- One might expect ties in count or score to be broken deterministically, by
  first occurrence or alphabetically. The code has no tie-break: `std::sort`
  is unstable and `unordered_map` iteration order is unspecified. The model
  admits every tie order.
- One might expect a document to be most similar to itself. It need not be.
  The document X X Y Z has weights 0.5, 0.25 and 0.25 and scores 0.375
  against itself. Against the document X, whose one weight is 1, it scores
  0.5. `SelfScoreExample.SelfScoreNotMaximal` (module `SelfScoreExample`,
  `selfscore_example.dfy`) proves this, from the tokens through the profiles
  to both scores. What holds in general is that the self-score
  is the sum of the squared weights (`Similarity.SelfScore`).

## Model

| member | source | states |
|---|---|---|
| `Tokenizer.Normalize` | final_output.cpp:22-28 | the normal form of a token is no longer than the token and consists only of upper-case letters and digits |
| `Tokenizer.NormalizeToken` | final_output.cpp:23-28 | the character loop builds exactly the normal form of the token |
| `Tokenizer.NormalizeFixesNormalWords` | final_output.cpp:23-28 | a word of upper-case letters and digits only is its own normal form |
| `Tokenizer.NormalizeIdempotent` | final_output.cpp:23-28 | normalising a normalised word returns it unchanged |
| `Tokenizer.PreprocessText` | final_output.cpp:14-38 | the token loop yields the map that sends each counted word (non-empty, not a stopword) occurring in the tokens to its number of occurrences, and has no other keys |
| `Tokenizer.WordCountKeys` | final_output.cpp:19-33 | no key of the word-count map is empty or a stopword; every count is at least 1 and equals the word's occurrences; every counted word that occurs is a key |
| `Tokenizer.WordCountTotal` | final_output.cpp:30-33 | the counts of the map sum to the number of tokens whose normal form is non-empty and not a stopword |
| `Tokenizer.VocabularyOccurs` | final_output.cpp:30-33 | a word is a key exactly when it is counted and at least one token normalises to it |
| `Tokenizer.WordCountOfSnoc` | final_output.cpp:31-32 | one more token increments the count of its normal form, starting from zero, if that form is counted, and otherwise leaves the map unchanged |
| `Tokenizer.SumCountsRemove` | final_output.cpp:50-53 | the total of a map is the count of any one key plus the total of the rest, so it does not depend on iteration order |
| `Tokenizer.PositiveTotal` | final_output.cpp:50-57 | a non-empty map with every count at least 1, as the token loop builds it, has a positive total, so `totalWords` is never zero when there is something to divide |
| `Tokenizer.SumCountsUpdate` | final_output.cpp:32 | setting one count changes the total by the difference |
| `Sorting.SortDescending` | final_output.cpp:45-47 | after the sort the array is a permutation of its old contents and non-increasing by the key, with ties in any order |
| `Sorting.MaxIndexFrom` | final_output.cpp:45-47 | the selection step of the sort finds a position with a largest key in the unsorted suffix |
| `Sorting.PermutationDistinct` | final_output.cpp:45-47 | reordering a sequence without repetitions leaves one without repetitions |
| `Profile.MapEntries` | final_output.cpp:42 | the vector copy of the map lists every entry of the map exactly once, in some order |
| `Profile.EntriesOfPermutation` | final_output.cpp:45-47 | sorting the vector keeps it a list of every map entry exactly once |
| `Profile.SumEntriesOf` | final_output.cpp:50-53 | the counts of such a list sum to the total of the map |
| `Profile.EntriesOfSize` | final_output.cpp:42 | such a list has as many entries as the map has keys |
| `Profile.TotalCount` | final_output.cpp:50-53 | the `totalWords` loop yields the sum of all counts of the vector |
| `Profile.WeighTop` | final_output.cpp:55-58 | the second loop keeps the first min(100, size) entries in order, each weighted count / total |
| `Profile.GetTopFrequentWords` | final_output.cpp:41-61 | for any map whose total is positive when it has entries, the result is a profile of the map for some descending-count order of its entries |
| `Profile.ProfileIntro` | final_output.cpp:55-58 | the weighted prefix of a sorted entry list is a profile of the map |
| `Profile.ProfileShape` | final_output.cpp:56-57 | a profile has min(100, distinct words) entries. Its words are distinct keys of the map. Each weight is the word's count divided by the total over the whole map |
| `Profile.ProfileOrdered` | final_output.cpp:45-57 | profile weights are non-increasing along the sequence |
| `Profile.ProfileKeepsMostFrequent` | final_output.cpp:45-57 | no word left out of the profile has a higher count than a word kept in it |
| `Profile.ProfileWeightBounds` | final_output.cpp:50-58 | for positive counts every weight lies in (0, 1], and an empty map gives an empty profile, the loop dividing nothing |
| `Profile.ProfileWeightSum` | final_output.cpp:50-58 | the profile weights sum to at most 1; for a non-empty profile they sum to the kept words' counts divided by the total count |
| `Profile.ShareInUnit` | final_output.cpp:57 | a count no larger than a positive total gives a weight in [0, 1], positive when the count is |
| `Profile.WeightSum` | final_output.cpp:57 | weights that are counts over one total sum to the sum of the counts over that total |
| `Profile.DistinctCountsBound` | final_output.cpp:50-58 | distinct words of a map carry together at most its total count |
| `Similarity.ComputeSimilarity` | final_output.cpp:64-80 | the two loops return the lookup score of the second profile against the first; when the first profile has distinct words this is the sum over all same-word entry pairs of the product of their weights |
| `Similarity.WeightMapKeys` | final_output.cpp:68-70 | the lookup holds exactly the words of the first profile |
| `Similarity.WeightMapAt` | final_output.cpp:68-70 | with distinct words the lookup gives each word its own weight |
| `Similarity.RowDotLookup` | final_output.cpp:73-77 | with distinct words in the first profile, one entry of the second adds its weight times the looked-up weight, or nothing when its word is absent |
| `Similarity.ScoreIsSharedDot` | final_output.cpp:64-80 | for a first profile with distinct words the score equals the sum over shared words of the product of their weights |
| `Similarity.SharedDotSymmetric` | final_output.cpp:64-80 | the sum over shared words is symmetric in the two profiles |
| `Similarity.SharedDotSnocLeft` | final_output.cpp:64-80 | one more entry in the first profile adds its products with the matching entries of the second |
| `Similarity.ScoreSymmetric` | final_output.cpp:64-80 | for profiles with distinct words the score does not depend on the argument order, although the lookup is built from one and the other is iterated |
| `Similarity.ScoreNonNegative` | final_output.cpp:72-77 | non-negative weights give a non-negative score |
| `Similarity.SelfScore` | final_output.cpp:64-80 | the score of a profile with distinct words against itself is the sum of its squared weights |
| `Similarity.ProfileScoreProperties` | final_output.cpp:64-80 | the score of two document profiles is non-negative and symmetric |
| `SelfScoreExample.SelfScoreNotMaximal` | final_output.cpp:14-80 | the document X X Y Z gets the counts X:2, Y:1, Z:1 and the profile 0.5, 0.25, 0.25; the document X gets the profile X:1.0; the first scores less against itself than against the second |
| `Ranker.BuildMatrix` | final_output.cpp:123-130 | the matrix is n by n, symmetric, zero on the diagonal, and holds the score of profiles i and j at (i, j) for i < j; for profiles with distinct words each off-diagonal cell (a, b) is the score of a against b |
| `Ranker.RowPairs` | final_output.cpp:135-137 | one row of the inner loop visits (i, i+1), ..., (i, j-1) in order |
| `Ranker.UpperPairs` | final_output.cpp:134-137 | the nested loops visit only index pairs (a, b) with a below the row bound and a < b < n |
| `Ranker.CollectPairs` | final_output.cpp:133-138 | the pair list holds, in row-major order, one (matrix[i][j], i, j) for each i < j |
| `Ranker.UpperPairsLength` | final_output.cpp:134-137 | the first r rows contribute r(2n - r - 1)/2 pairs |
| `Ranker.UpperPairsComplete` | final_output.cpp:134-137 | every index pair i < j is visited |
| `Ranker.UpperPairsDistinct` | final_output.cpp:134-137 | no index pair is visited twice |
| `Ranker.CorpusPairsShape` | final_output.cpp:133-138 | the pair list has n(n-1)/2 entries. Each has i < j < n and carries the score of profiles i and j. Each index pair i < j occurs exactly once |
| `Ranker.CorpusPairsCount` | final_output.cpp:133-138 | the pair list has exactly n(n-1)/2 entries |
| `Ranker.TopPairs` | final_output.cpp:150 | the report is the first min(10, pairs) entries of the sorted list |
| `Ranker.RankCorpus` | final_output.cpp:113-150 | each document gets a profile of its word counts. The ranked list is a permutation of the unsorted pair list, non-increasing in score. The report is its first min(10, n(n-1)/2) entries, and is empty when n < 2 |

## Left out

- File reading: opening, `file >> word` and closing the `ifstream` are left out. A document is given as its sequence of whitespace-delimited tokens. The unopenable file that reads as empty is not modelled.
- The hard-coded list of file names is left out. Documents are identified by their position in the input sequence, which is the index `main` resolves to a name when printing.
- Console output is left out: the headers, `setw`, `left`, `fixed`, `setprecision(4)`. It is presentation only.
- IEEE double arithmetic is replaced by exact `real` arithmetic. In the C++ a weight such as 1/3 is rounded, and `computeSimilarity(a, b)` adds its products in the order of `b` (final_output.cpp:73-77), so the two argument orders can differ in the last bit once three or more words are shared. `Similarity.ScoreSymmetric`, `Similarity.SharedDotSymmetric`, `Similarity.ProfileScoreProperties` and the order of the ranked pairs are therefore facts of exact arithmetic. In doubles, `Score(p, q)` and `Score(q, p)` may differ slightly. Pairs whose scores are nearly equal may then be ordered differently by the sort at lines 141-143, or fall on the other side of the top-10 cutoff. The matrix stays symmetric in the C++ as well, because lines 127-128 write one computed value into both cells.
- The 32-bit `int` counts are not modelled: the values of `wordCount` (final_output.cpp:15) and `totalWords` (final_output.cpp:50) are unbounded here. They belong to one document, so the model departs from the code only for a single document with more than 2^31 - 1 counted words. There the C++ signed overflow is undefined behaviour, not a wrap-around.
- Locale behaviour and characters outside ASCII in `isalnum` and `toupper` are left out. Only the ASCII letters and digits count as alphanumeric.
- The algorithm inside `std::sort` (introsort) is left out. It is replaced by a selection sort with the same postcondition. The concrete tie order of `std::sort` and of `unordered_map` iteration is not modelled; every order is allowed.
- Profile.GetTopFrequentWords: requires a non-empty map to have a positive total, which every map `preprocessText` builds has (`Tokenizer.PositiveTotal`). A non-empty map whose counts are all zero is excluded: the C++ divides 0 by 0.0 there and gets NaN weights, which `real` cannot represent. Maps with some zero counts and a positive total are admitted and get weight 0 for those words.
