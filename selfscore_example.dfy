/**
 A worked example for the whole pipeline: two documents whose profiles show
 that a document's score against itself need not be its highest.

 The document X X Y Z is counted X:2, Y:1, Z:1 and weighted 0.5, 0.25, 0.25;
 the document X is counted X:1 and weighted 1. The first scores 0.375 against
 itself and 0.5 against the second.
 */
module SelfScoreExample {
  import opened Tokenizer
  import opened Sorting
  import opened Profile
  import opened Similarity

  /** A document counting X twice and Y and Z once each, and the profile it gets. */
  const CountsXXYZ: WordCount := map["X" := 2, "Y" := 1, "Z" := 1]
  const ProfileXXYZ: FrequencyProfile := [WeightedWord("X", 0.5), WeightedWord("Y", 0.25), WeightedWord("Z", 0.25)]

  /** A document made only of X, and the profile it gets. */
  const CountsX: WordCount := map["X" := 1]
  const ProfileX: FrequencyProfile := [WeightedWord("X", 1.0)]

  /** A word that is its own normal form and is counted. */
  ghost predicate CountedNormal(t: string)
  {
    Counted(t) && forall k :: 0 <= k < |t| ==> IsNormalChar(t[k])
  }

  /** One more token that is its own, counted, normal form increments its count. */
  lemma CountToken(s: seq<string>, t: string)
    requires CountedNormal(t)
    ensures WordCountOf(s + [t]) == Increment(WordCountOf(s), t)
  {
    NormalizeFixesNormalWords(t);
    WordCountOfSnoc(s, t);
  }

  /** The token x alone counts x once. */
  lemma CountOne(x: string)
    requires CountedNormal(x)
    ensures WordCountOf([x]) == map[x := 1]
  {
    var empty: seq<string> := [];
    assert WordCountOf(empty) == map[];
    CountToken(empty, x);
    assert empty + [x] == [x];
  }

  /** The tokens x x count x twice. */
  lemma CountTwice(x: string)
    requires CountedNormal(x)
    ensures WordCountOf([x, x]) == map[x := 2]
  {
    CountOne(x);
    CountToken([x], x);
    assert [x] + [x] == [x, x];
    assert Increment(map[x := 1], x) == map[x := 2];
  }

  /** The tokens x x y count x twice and y once. */
  lemma CountTwiceOnce(x: string, y: string)
    requires CountedNormal(x) && CountedNormal(y) && x != y
    ensures WordCountOf([x, x, y]) == map[x := 2, y := 1]
  {
    CountTwice(x);
    CountToken([x, x], y);
    assert [x, x] + [y] == [x, x, y];
  }

  /** The tokens x x y z count x twice and y and z once each. */
  lemma CountTwiceOnceOnce(x: string, y: string, z: string)
    requires CountedNormal(x) && CountedNormal(y) && CountedNormal(z) && x != y && x != z && y != z
    ensures WordCountOf([x, x, y, z]) == map[x := 2, y := 1, z := 1]
  {
    CountTwiceOnce(x, y);
    CountToken([x, x, y], z);
    assert [x, x, y] + [z] == [x, x, y, z];
  }

  /** The words X, Y and Z are counted, are their own normal forms, and differ. */
  lemma WordsXYZ()
    ensures CountedNormal("X") && CountedNormal("Y") && CountedNormal("Z")
    ensures "X" != "Y" && "X" != "Z" && "Y" != "Z"
  {
    assert "X"[0] != "Y"[0] && "X"[0] != "Z"[0] && "Y"[0] != "Z"[0];
  }

  /** The counts X:2, Y:1, Z:1 total 4. */
  lemma SumCountsXXYZ()
    ensures SumCounts(CountsXXYZ) == 4
  {
    var yz: WordCount, z: WordCount := map["Y" := 1, "Z" := 1], map["Z" := 1];
    assert SumCounts(z) == 1 by {
      SumCountsRemove(z, "Z");
      assert z - {"Z"} == map[];
    }
    assert SumCounts(yz) == 2 by {
      SumCountsRemove(yz, "Y");
      assert yz - {"Y"} == z;
    }
    SumCountsRemove(CountsXXYZ, "X");
    assert CountsXXYZ - {"X"} == yz;
  }

  /** The entries of the X, Y, Z document, sorted by descending count. */
  const EntriesXXYZ: seq<Entry> := [Entry("X", 2), Entry("Y", 1), Entry("Z", 1)]

  /** Each entry carries its word's count. */
  lemma EntriesXXYZCounts()
    ensures forall i :: 0 <= i < |EntriesXXYZ| ==>
      EntriesXXYZ[i].word in CountsXXYZ && EntriesXXYZ[i].count == CountsXXYZ[EntriesXXYZ[i].word]
  {
    WordsXYZ();
  }

  /** Every word of the counts has an entry. */
  lemma EntriesXXYZCover()
    ensures forall w :: w in CountsXXYZ ==> exists i :: 0 <= i < |EntriesXXYZ| && EntriesXXYZ[i].word == w
  {
    forall w | w in CountsXXYZ
      ensures exists i :: 0 <= i < |EntriesXXYZ| && EntriesXXYZ[i].word == w
    {
      if w == "X" {
        assert EntriesXXYZ[0].word == w;
      } else if w == "Y" {
        assert EntriesXXYZ[1].word == w;
      } else {
        assert EntriesXXYZ[2].word == w;
      }
    }
  }

  /** No word has two entries, and the counts descend. */
  lemma EntriesXXYZDistinctSorted()
    ensures forall i, j :: 0 <= i < j < |EntriesXXYZ| ==> EntriesXXYZ[i].word != EntriesXXYZ[j].word
    ensures SortedDesc(EntriesXXYZ, EntryCount)
  {
    WordsXYZ();
  }

  /** These entries list the counts X:2, Y:1, Z:1 in descending order. */
  lemma EntriesOfXXYZ()
    ensures EntriesOf(EntriesXXYZ, CountsXXYZ)
    ensures SortedDesc(EntriesXXYZ, EntryCount)
  {
    EntriesXXYZCounts();
    EntriesXXYZCover();
    EntriesXXYZDistinctSorted();
  }

  /** The counts X:2, Y:1, Z:1 give the weights 0.5, 0.25, 0.25. */
  lemma ProfileOfXXYZ()
    ensures PositiveCounts(CountsXXYZ) && IsProfileOf(ProfileXXYZ, CountsXXYZ)
  {
    assert PositiveCounts(CountsXXYZ);
    var s := EntriesXXYZ;
    assert forall k :: 0 <= k < 3 ==> ProfileXXYZ[k] == WeightedWord(s[k].word, s[k].count as real / 4 as real);
    SumCountsXXYZ();
    EntriesOfXXYZ();
    ProfileIntro(ProfileXXYZ, s, CountsXXYZ, 4);
  }

  /** The single count X:1 gives the weight 1. */
  lemma ProfileOfX()
    ensures PositiveCounts(CountsX) && IsProfileOf(ProfileX, CountsX)
  {
    assert SumCounts(CountsX) == 1 by {
      SumCountsRemove(CountsX, "X");
      assert CountsX - {"X"} == map[];
    }
    var sorted := [Entry("X", 1)];
    assert EntriesOf(sorted, CountsX);
    assert SortedDesc(sorted, EntryCount);
    assert ProfileX[0] == WeightedWord(sorted[0].word, sorted[0].count as real / 1 as real);
    ProfileIntro(ProfileX, sorted, CountsX, 1);
  }

  /** The lookup built from the X, Y, Z profile. */
  lemma WeightMapXXYZ()
    ensures WeightMap(ProfileXXYZ) == map["X" := 0.5, "Y" := 0.25, "Z" := 0.25]
  {
    var p := ProfileXXYZ;
    assert p[..1][..0] == [];
    assert p[..2][..1] == p[..1];
    assert p[..3][..2] == p[..2];
    assert p[..3] == p;
    assert WeightMap(p[..1]) == map["X" := 0.5];
    assert WeightMap(p[..2]) == map["X" := 0.5, "Y" := 0.25];
  }

  /** The X, Y, Z profile scores 0.375 against itself and 0.5 against the X profile. */
  lemma ScoresOfXXYZ()
    ensures Score(ProfileXXYZ, ProfileXXYZ) == 0.375
    ensures Score(ProfileXXYZ, ProfileX) == 0.5
  {
    var p := ProfileXXYZ;
    WeightMapXXYZ();
    var lookup := WeightMap(p);
    assert p[..1][..0] == [];
    assert p[..2][..1] == p[..1];
    assert p[..3][..2] == p[..2];
    assert p[..3] == p;
    assert LookupDot(lookup, p[..1]) == 0.25;
    assert LookupDot(lookup, p[..2]) == 0.3125;
    assert LookupDot(lookup, p) == 0.375;
    assert ProfileX[..0] == [];
  }

  /**
   The score of a document against itself need not be its highest: the
   document X X Y Z scores more against the document X than against itself.
   */
  lemma SelfScoreNotMaximal()
    ensures WordCountOf(["X", "X", "Y", "Z"]) == CountsXXYZ && IsProfileOf(ProfileXXYZ, CountsXXYZ)
    ensures WordCountOf(["X"]) == CountsX && IsProfileOf(ProfileX, CountsX)
    ensures Score(ProfileXXYZ, ProfileXXYZ) < Score(ProfileXXYZ, ProfileX)
  {
    WordsXYZ();
    CountTwiceOnceOnce("X", "Y", "Z");
    CountOne("X");
    ProfileOfXXYZ();
    ProfileOfX();
    ScoresOfXXYZ();
  }
}
