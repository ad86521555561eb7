/** `gram_str` of src/expressions.rs: the bigram cosine similarity of two
    strings, and `gram`, which applies it row by row to two string columns. */
module Expressions {
  import opened Utf8
  import opened Bigrams
  import opened Sorting
  import opened Vectors

  /** What `gram_str` returns, kept exact.  The f64 it computes is 0.0 for
      `EmptyInput`, 1.0 for `EqualInput`, and the rounded value of
      dot / (sqrt(magnitude1) * sqrt(magnitude2)) for `Cosine`. */
  datatype Score =
    | EmptyInput
    | EqualInput
    | Cosine(dot: int, magnitude1: int, magnitude2: int)

  /** A score that can come out of `gram_str`: one of the early returns, or
      a cosine with positive magnitudes whose dot product obeys Cauchy–Schwarz. */
  predicate Bounded(score: Score)
  {
    score.Cosine? ==>
      1 <= score.magnitude1 && 1 <= score.magnitude2
      && score.dot * score.dot <= score.magnitude1 * score.magnitude2
  }

  /** The exact square of the value `gram_str` returns, as a rational, before
      any f64 rounding.  A zero denominator would give NaN in the source; it
      never occurs for a bounded score, and is mapped to 0.0 here only to keep
      the function total.  A bounded score squares into [0, 1], and a cosine
      whose dot product equals both magnitudes squares to exactly 1. */
  function SquaredValue(score: Score): (v: real)
    ensures Bounded(score) ==> 0.0 <= v <= 1.0
    ensures score.Cosine? && 1 <= score.magnitude1 && score.dot == score.magnitude1 == score.magnitude2
      ==> v == 1.0
  {
    match score
    case EmptyInput => 0.0
    case EqualInput => 1.0
    case Cosine(d, m1, m2) =>
      SquaredRatioBounds(d, m1, m2);
      SelfRatio(m1);
      if m1 * m2 == 0 then 0.0 else (d * d) as real / (m1 * m2) as real
  }

  /** The same score with the roles of the two strings exchanged. */
  function Swapped(score: Score): Score
  {
    match score
    case Cosine(d, m1, m2) => Cosine(d, m2, m1)
    case _ => score
  }

  /** Lines 49-64 on two bigram lists: the vocabulary, both frequency vectors
      over it, their dot product and their squared magnitudes.  A non-empty
      list has squared magnitude at least one, so the denominator at line 66 is
      never zero; the dot product is non-negative and obeys Cauchy–Schwarz, so
      the score lies in [0, 1]; no fold exceeds the product of the list
      lengths. */
  function CosineOf(s1: seq<Bigram>, s2: seq<Bigram>): (score: Score)
    ensures score.Cosine?
    ensures 0 <= score.dot
    ensures score.dot * score.dot <= score.magnitude1 * score.magnitude2
    ensures s1 != [] ==> 1 <= score.magnitude1
    ensures s2 != [] ==> 1 <= score.magnitude2
    ensures score.magnitude1 <= |s1| * |s1| && score.magnitude2 <= |s2| * |s2|
    ensures score.dot <= |s1| * |s2|
  {
    var vocab := Vocabulary(s1, s2);
    var f1 := Frequencies(vocab, s1);
    var f2 := Frequencies(vocab, s2);
    assert Distinct(vocab);
    FrequenciesSumToLength(vocab, s1);
    FrequenciesSumToLength(vocab, s2);
    SumSquaresBetween(f1);
    SumSquaresBetween(f2);
    DotNonNegative(f1, f2);
    CauchySchwarz(f1, f2);
    DotAtMostSumProduct(f1, f2);
    Cosine(Dot(f1, f2), SumSquares(f1), SumSquares(f2))
  }

  /** What `gram_str(string1, string2)` computes.  Lines 14-20 return 0.0 when
      either string is empty and 1.0 when both are equal, before any bigram is
      built. */
  function GramScore(string1: seq<char>, string2: seq<char>): (score: Score)
    ensures score == EmptyInput <==> string1 == [] || string2 == []
    ensures score == EqualInput <==> string1 != [] && string1 == string2
    ensures score.Cosine? <==> string1 != [] && string2 != [] && string1 != string2
  {
    if string1 == [] || string2 == [] then EmptyInput
    else if string1 == string2 then EqualInput
    else CosineOf(Bigrams.Of(string1), Bigrams.Of(string2))
  }

  /** The inputs on which `gram_str` stays in range.  It reaches its bigram
      loops only for two non-empty, different strings, and there it indexes the
      characters with `len() - 1`, a byte count, which is in range exactly when
      the byte count is the character count, that is when the string is ASCII
      (`Utf8.LastByteIndexOutOfRange`). */
  function Admissible(string1: seq<char>, string2: seq<char>): (ok: bool)
    ensures string1 != [] && string2 != [] && string1 != string2 ==>
      (ok <==> ByteLen(string1) == |string1| && ByteLen(string2) == |string2|)
  {
    AsciiByteLen(string1);
    AsciiByteLen(string2);
    string1 == [] || string2 == [] || string1 == string2 || (IsAscii(string1) && IsAscii(string2))
  }

  /** Lines 22-31: the padded bigram list `s1` of the first string. */
  method ExtractBigrams(string1: seq<char>) returns (s1: seq<Bigram>)
    requires string1 != [] && IsAscii(string1)
    ensures s1 == Bigrams.Of(string1)
  {
    AsciiByteLen(string1);
    var l1 := ByteLen(string1) - 1;
    OfStart(string1);
    s1 := [(Pad, string1[0])];
    var chars1 := string1;
    for i := 0 to l1
      invariant s1 == Bigrams.Of(string1)[..i + 1]
    {
      OfStep(string1, i);
      s1 := s1 + [(chars1[i], chars1[i + 1])];
    }
    OfEnd(string1);
    s1 := s1 + [(chars1[l1], Pad)];
  }

  /** Lines 33-46: the padded bigram list `s2` of the second string, pushed
      both onto `s2` and onto `sunion`, which starts as a copy of `s1`. */
  method ExtractIntoUnion(s1: seq<Bigram>, string2: seq<char>) returns (s2: seq<Bigram>, sunion: seq<Bigram>)
    requires string2 != [] && IsAscii(string2)
    ensures s2 == Bigrams.Of(string2)
    ensures sunion == s1 + s2
  {
    AsciiByteLen(string2);
    var l2 := ByteLen(string2) - 1;
    sunion := s1;
    OfStart(string2);
    s2 := [(Pad, string2[0])];
    sunion := sunion + [(Pad, string2[0])];
    var chars2 := string2;
    for i := 0 to l2
      invariant s2 == Bigrams.Of(string2)[..i + 1]
      invariant sunion == s1 + s2
    {
      OfStep(string2, i);
      assert sunion + [(chars2[i], chars2[i + 1])] == s1 + (s2 + [(chars2[i], chars2[i + 1])]);
      s2 := s2 + [(chars2[i], chars2[i + 1])];
      sunion := sunion + [(chars2[i], chars2[i + 1])];
    }
    OfEnd(string2);
    assert sunion + [(chars2[l2], Pad)] == s1 + (s2 + [(chars2[l2], Pad)]);
    s2 := s2 + [(chars2[l2], Pad)];
    sunion := sunion + [(chars2[l2], Pad)];
  }

  /** Lines 53-59: one count per vocabulary entry, in each bigram list. */
  method CountFrequencies(sunion: seq<Bigram>, s1: seq<Bigram>, s2: seq<Bigram>)
    returns (f1: seq<int>, f2: seq<int>)
    ensures |f1| == |sunion| && |f2| == |sunion|
    ensures forall i :: 0 <= i < |sunion| ==> f1[i] == multiset(s1)[sunion[i]]
    ensures forall i :: 0 <= i < |sunion| ==> f2[i] == multiset(s2)[sunion[i]]
  {
    f1, f2 := [], [];
    for k := 0 to |sunion|
      invariant |f1| == k && |f2| == k
      invariant forall i :: 0 <= i < k ==> f1[i] == multiset(s1)[sunion[i]]
      invariant forall i :: 0 <= i < k ==> f2[i] == multiset(s2)[sunion[i]]
    {
      var bi := sunion[k];
      CountIsMultiplicity(s1, bi);
      CountIsMultiplicity(s2, bi);
      f1 := f1 + [Count(s1, bi)];
      f2 := f2 + [Count(s2, bi)];
    }
  }

  /** `gram_str` as written: the bigram lists, their union, the vocabulary
      sorted and deduplicated in place, the frequency vectors and the integer
      folds, or one of the two early returns. */
  method GramStr(string1: seq<char>, string2: seq<char>) returns (score: Score)
    requires Admissible(string1, string2)
    ensures score == GramScore(string1, string2)
    ensures score.Cosine? ==>
      && 0 <= score.dot
      && score.dot * score.dot <= score.magnitude1 * score.magnitude2
      && 1 <= score.magnitude1
      && 1 <= score.magnitude2
  {
    if string1 == [] || string2 == [] {
      return EmptyInput;
    } else if string1 == string2 {
      return EqualInput;
    }
    var s1 := ExtractBigrams(string1);
    var s2, sunion := ExtractIntoUnion(s1, string2);
    sunion := Sort(sunion);
    sunion := Dedup(sunion);
    var f1, f2 := CountFrequencies(sunion, s1, s2);
    forall i | 0 <= i < |sunion|
      ensures f1[i] == Frequencies(sunion, s1)[i] && f2[i] == Frequencies(sunion, s2)[i]
    {
      CountIsMultiplicity(s1, sunion[i]);
      CountIsMultiplicity(s2, sunion[i]);
    }
    assert f1 == Frequencies(sunion, s1) && f2 == Frequencies(sunion, s2);
    var dotProduct := Dot(f1, f2);
    var magnitude1 := SumSquares(f1);
    var magnitude2 := SumSquares(f2);
    score := Cosine(dotProduct, magnitude1, magnitude2);
    assert score == CosineOf(s1, s2);
  }

  /** An integer ratio d^2 / (m1 * m2) with positive m1, m2 and
      d^2 <= m1 * m2 lies in [0, 1]. */
  lemma SquaredRatioBounds(d: int, m1: int, m2: int)
    ensures 1 <= m1 && 1 <= m2 && d * d <= m1 * m2 ==>
      0 < m1 * m2 && 0.0 <= (d * d) as real / (m1 * m2) as real <= 1.0
  {
    if 1 <= m1 && 1 <= m2 && d * d <= m1 * m2 {
      assert m1 * m2 >= m2 >= 1 by { assert m1 * m2 == (m1 - 1) * m2 + m2; assert (m1 - 1) * m2 >= 0; }
      var num, den := (d * d) as real, (m1 * m2) as real;
      assert 0.0 <= num <= den;
    }
  }

  /** Every score squares to a value in [0, 1], and a cosine score has a
      non-negative numerator and a positive denominator. */
  lemma ScoreWithinUnitInterval(string1: seq<char>, string2: seq<char>)
    ensures 0.0 <= SquaredValue(GramScore(string1, string2)) <= 1.0
    ensures GramScore(string1, string2).Cosine? ==>
      0 <= GramScore(string1, string2).dot && 0 < GramScore(string1, string2).magnitude1 * GramScore(string1, string2).magnitude2
  {
    var score := GramScore(string1, string2);
    if score.Cosine? {
      assert score == CosineOf(Bigrams.Of(string1), Bigrams.Of(string2));
      SquaredRatioBounds(score.dot, score.magnitude1, score.magnitude2);
    }
  }

  /** Exchanging the strings keeps the dot product and exchanges the two
      magnitudes, so the score is symmetric. */
  lemma ScoreSymmetric(string1: seq<char>, string2: seq<char>)
    ensures GramScore(string2, string1) == Swapped(GramScore(string1, string2))
    ensures SquaredValue(GramScore(string2, string1)) == SquaredValue(GramScore(string1, string2))
  {
    if GramScore(string1, string2).Cosine? {
      var s1, s2 := Bigrams.Of(string1), Bigrams.Of(string2);
      VocabularyCanonical(s1, s2, Vocabulary(s1, s2));
      var vocab := Vocabulary(s1, s2);
      DotSymmetric(Frequencies(vocab, s1), Frequencies(vocab, s2));
    }
    SwappedValue(GramScore(string1, string2));
  }

  /** Exchanging the magnitudes does not change the squared value. */
  lemma SwappedValue(score: Score)
    ensures SquaredValue(Swapped(score)) == SquaredValue(score)
  {
    if score.Cosine? {
      assert score.magnitude1 * score.magnitude2 == score.magnitude2 * score.magnitude1;
    }
  }

  /** Without the equality short-cut of lines 18-20 equal strings would still
      get dot = magnitude1 = magnitude2, an exact ratio of 1.  The f64 the
      source would compute from them may differ from 1.0 by rounding. */
  lemma EqualShortcutAgrees(string1: seq<char>)
    requires string1 != []
    ensures CosineOf(Bigrams.Of(string1), Bigrams.Of(string1)).dot
         == CosineOf(Bigrams.Of(string1), Bigrams.Of(string1)).magnitude1
         == CosineOf(Bigrams.Of(string1), Bigrams.Of(string1)).magnitude2
    ensures SquaredValue(CosineOf(Bigrams.Of(string1), Bigrams.Of(string1))) == 1.0
  {
    var s := Bigrams.Of(string1);
    DotWithItself(Frequencies(Vocabulary(s, s), s));
  }

  lemma SelfRatio(m: int)
    ensures m >= 1 ==> m * m != 0 && (m * m) as real / (m * m) as real == 1.0
  {
    if m >= 1 {
      assert m * m >= m by { assert m * m == (m - 1) * m + m; assert (m - 1) * m >= 0; }
    }
  }

  /** Largest value of Rust's `i32`. */
  const I32Max: int := 0x7fff_ffff

  /** The source counts and sums in `i32`; this model in unbounded integers.
      Below 46340 characters per string no count and no fold can overflow, so
      the two agree there. */
  lemma CountsFitInI32(string1: seq<char>, string2: seq<char>)
    requires |string1| < 46340 && |string2| < 46340
    ensures GramScore(string1, string2).Cosine? ==>
      && GramScore(string1, string2).dot <= I32Max
      && GramScore(string1, string2).magnitude1 <= I32Max
      && GramScore(string1, string2).magnitude2 <= I32Max
  {
    if GramScore(string1, string2).Cosine? {
      assert GramScore(string1, string2) == CosineOf(Bigrams.Of(string1), Bigrams.Of(string2));
      ProductBound(|string1| + 1, |string1| + 1, 46340);
      ProductBound(|string2| + 1, |string2| + 1, 46340);
      ProductBound(|string1| + 1, |string2| + 1, 46340);
    }
  }

  lemma ProductBound(a: int, b: int, c: int)
    requires 0 <= a <= c && 0 <= b <= c
    ensures a * b <= c * c
  {
    MultiplyMonotone(a, b, c);
    MultiplyMonotone(c, a, c);
  }

  lemma MultiplyMonotone(x: int, y: int, z: int)
    requires 0 <= x && y <= z
    ensures x * y <= x * z
  {
    var k := z - y;
    assert x * k >= 0;
    assert x * z == x * y + x * k;
  }

  datatype Option<T> = None | Some(value: T)

  /** Lines 72-82: `gram` applies `gram_str` to each pair of rows of two string
      columns; a missing value on either side gives a missing result. */
  function Gram(left: seq<Option<seq<char>>>, right: seq<Option<seq<char>>>): (out: seq<Option<Score>>)
    requires |left| == |right|
    requires forall i :: 0 <= i < |left| && left[i].Some? && right[i].Some? ==>
      Admissible(left[i].value, right[i].value)
    ensures |out| == |left|
    ensures forall i :: 0 <= i < |out| ==> (out[i].Some? <==> left[i].Some? && right[i].Some?)
    ensures forall i :: 0 <= i < |out| && out[i].Some? ==>
      out[i].value == GramScore(left[i].value, right[i].value)
  {
    seq(|left|, i requires 0 <= i < |left| =>
      if left[i].Some? && right[i].Some? then Some(GramScore(left[i].value, right[i].value)) else None)
  }
}
