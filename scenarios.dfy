/** A worked example: "night" against "nacht".  They share the bigrams
    (' ', 'n'), ('h', 't') and ('t', ' ') of six each, so the exact score is
    3 / (sqrt(6) * sqrt(6)) = 0.5; the f64 `gram_str` computes for it may
    differ from 0.5 by rounding. */
module Scenarios {
  import opened Bigrams
  import opened Sorting
  import opened Vectors
  import opened Expressions

  const NightBigrams: seq<Bigram> := [(' ', 'n'), ('n', 'i'), ('i', 'g'), ('g', 'h'), ('h', 't'), ('t', ' ')]
  const NachtBigrams: seq<Bigram> := [(' ', 'n'), ('n', 'a'), ('a', 'c'), ('c', 'h'), ('h', 't'), ('t', ' ')]
  const NightNachtVocabulary: seq<Bigram> :=
    [(' ', 'n'), ('a', 'c'), ('c', 'h'), ('g', 'h'), ('h', 't'), ('i', 'g'), ('n', 'a'), ('n', 'i'), ('t', ' ')]

  lemma NightExtraction()
    ensures Bigrams.Of("night") == NightBigrams && Bigrams.Of("nacht") == NachtBigrams
  {
  }

  lemma NightVocabulary()
    ensures Vocabulary(NightBigrams, NachtBigrams) == NightNachtVocabulary
  {
    var w := NightNachtVocabulary;
    assert StrictlySorted(w);
    assert forall x :: x in w <==> x in NightBigrams || x in NachtBigrams;
    VocabularyCanonical(NightBigrams, NachtBigrams, w);
  }

  lemma NightCounts()
    ensures Count(NightBigrams, (' ', 'n')) == 1
    ensures Count(NightBigrams, ('a', 'c')) == 0
    ensures Count(NightBigrams, ('c', 'h')) == 0
    ensures Count(NightBigrams, ('g', 'h')) == 1
    ensures Count(NightBigrams, ('h', 't')) == 1
    ensures Count(NightBigrams, ('i', 'g')) == 1
    ensures Count(NightBigrams, ('n', 'a')) == 0
    ensures Count(NightBigrams, ('n', 'i')) == 1
    ensures Count(NightBigrams, ('t', ' ')) == 1
  {
  }

  lemma NachtCounts()
    ensures Count(NachtBigrams, (' ', 'n')) == 1
    ensures Count(NachtBigrams, ('a', 'c')) == 1
    ensures Count(NachtBigrams, ('c', 'h')) == 1
    ensures Count(NachtBigrams, ('g', 'h')) == 0
    ensures Count(NachtBigrams, ('h', 't')) == 1
    ensures Count(NachtBigrams, ('i', 'g')) == 0
    ensures Count(NachtBigrams, ('n', 'a')) == 1
    ensures Count(NachtBigrams, ('n', 'i')) == 0
    ensures Count(NachtBigrams, ('t', ' ')) == 1
  {
  }

  /** A vector that holds the right count at every index is the frequency vector. */
  lemma FrequenciesAre(vocab: seq<Bigram>, s: seq<Bigram>, e: seq<int>)
    requires |e| == |vocab|
    requires forall i :: 0 <= i < |vocab| ==> e[i] == Count(s, vocab[i])
    ensures Frequencies(vocab, s) == e
  {
  }

  lemma NightFrequencies()
    ensures Frequencies(NightNachtVocabulary, NightBigrams) == [1, 0, 0, 1, 1, 1, 0, 1, 1]
  {
    NightCounts();
    FrequenciesAre(NightNachtVocabulary, NightBigrams, [1, 0, 0, 1, 1, 1, 0, 1, 1]);
  }

  lemma NachtFrequencies()
    ensures Frequencies(NightNachtVocabulary, NachtBigrams) == [1, 1, 1, 0, 1, 0, 1, 0, 1]
  {
    NachtCounts();
    FrequenciesAre(NightNachtVocabulary, NachtBigrams, [1, 1, 1, 0, 1, 0, 1, 0, 1]);
  }

  lemma NightDot()
    ensures Dot([1, 0, 0, 1, 1, 1, 0, 1, 1], [1, 1, 1, 0, 1, 0, 1, 0, 1]) == 3
  {
  }

  lemma NightMagnitudes()
    ensures SumSquares([1, 0, 0, 1, 1, 1, 0, 1, 1]) == 6
    ensures SumSquares([1, 1, 1, 0, 1, 0, 1, 0, 1]) == 6
  {
  }

  lemma NightCosine()
    ensures CosineOf(NightBigrams, NachtBigrams) == Cosine(3, 6, 6)
  {
    NightVocabulary();
    NightFrequencies();
    NachtFrequencies();
    NightDot();
    NightMagnitudes();
  }

  lemma NightNacht()
    ensures GramScore("night", "nacht") == Cosine(3, 6, 6)
  {
    NightExtraction();
    assert "night" != "nacht" by { assert "night"[1] != "nacht"[1]; }
    NightCosine();
  }

  /** The exact score of the example squares to 1/4, so it is 0.5. */
  lemma NightNachtValue()
    ensures SquaredValue(GramScore("night", "nacht")) == 0.25
  {
    NightNacht();
    CosineValue();
  }

  /** 3^2 / (6 * 6) = 1/4. */
  lemma CosineValue()
    ensures SquaredValue(Cosine(3, 6, 6)) == 0.25
  {
  }
}
