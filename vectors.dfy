/** Frequency vectors over a vocabulary and the integer folds `gram_str` takes
    of them: the dot product and the squared magnitudes. */
module Vectors {
  import opened Bigrams

  /** `s.iter().filter(|&&x| x == b).count()`: how often b occurs in s. */
  function Count(s: seq<Bigram>, b: Bigram): (n: nat)
    ensures n <= |s|
  {
    if s == [] then 0 else (if s[0] == b then 1 else 0) + Count(s[1..], b)
  }

  /** The count is the multiplicity of b in the multiset of s. */
  lemma {:induction false} CountIsMultiplicity(s: seq<Bigram>, b: Bigram)
    ensures Count(s, b) == multiset(s)[b]
  {
    if s != [] {
      CountIsMultiplicity(s[1..], b);
      assert s == [s[0]] + s[1..];
    }
  }

  /** The frequency vector of s over vocab: entry i counts vocab[i] in s. */
  function Frequencies(vocab: seq<Bigram>, s: seq<Bigram>): (f: seq<int>)
    ensures |f| == |vocab|
    ensures forall i :: 0 <= i < |vocab| ==> f[i] == Count(s, vocab[i])
  {
    if vocab == [] then [] else [Count(s, vocab[0])] + Frequencies(vocab[1..], s)
  }

  predicate NonNegative(f: seq<int>)
  {
    forall i :: 0 <= i < |f| ==> f[i] >= 0
  }

  function Sum(f: seq<int>): int
  {
    if f == [] then 0 else f[0] + Sum(f[1..])
  }

  /** `f.iter().zip(g).map(|(a, b)| a * b).sum()`; zip stops at the shorter. */
  function Dot(f: seq<int>, g: seq<int>): int
  {
    if f == [] || g == [] then 0 else f[0] * g[0] + Dot(f[1..], g[1..])
  }

  /** `f.iter().map(|&x| x * x).sum()`: the squared magnitude, never negative. */
  function SumSquares(f: seq<int>): (m: int)
    ensures m >= 0
  {
    if f == [] then 0 else f[0] * f[0] + SumSquares(f[1..])
  }

  /** The sum over i of (x * g[i] - y * f[i])^2, the slack in Cauchy–Schwarz. */
  function CrossSquares(f: seq<int>, g: seq<int>, x: int, y: int): (c: int)
    ensures c >= 0
  {
    if f == [] || g == [] then 0
    else
      var d := x * g[0] - y * f[0];
      d * d + CrossSquares(f[1..], g[1..], x, y)
  }

  lemma {:induction false} DotSymmetric(f: seq<int>, g: seq<int>)
    ensures Dot(f, g) == Dot(g, f)
  {
    if f != [] && g != [] {
      DotSymmetric(f[1..], g[1..]);
    }
  }

  /** zip stops at the shorter vector: the entries of the longer one past the
      length of the shorter take no part in the dot product. */
  lemma {:induction false} DotTruncates(f: seq<int>, g: seq<int>)
    ensures |f| <= |g| ==> Dot(f, g) == Dot(f, g[..|f|])
    ensures |g| <= |f| ==> Dot(f, g) == Dot(f[..|g|], g)
  {
    if f != [] && g != [] {
      DotTruncates(f[1..], g[1..]);
      if |f| <= |g| {
        assert g[..|f|][1..] == g[1..][..|f| - 1];
      }
      if |g| <= |f| {
        assert f[..|g|][1..] == f[1..][..|g| - 1];
      }
    }
  }

  lemma {:induction false} DotWithItself(f: seq<int>)
    ensures Dot(f, f) == SumSquares(f)
  {
    if f != [] {
      DotWithItself(f[1..]);
    }
  }

  lemma {:induction false} DotNonNegative(f: seq<int>, g: seq<int>)
    requires NonNegative(f) && NonNegative(g)
    ensures Dot(f, g) >= 0
  {
    if f != [] && g != [] {
      DotNonNegative(f[1..], g[1..]);
      assert f[0] * g[0] >= 0;
    }
  }

  /** One step of the expansion below, on plain integers. */
  lemma ExpansionStep(x: int, y: int, a: int, b: int, A: int, B: int, D: int, c: int)
    requires c == x * x * B - 2 * x * y * D + y * y * A
    ensures (x * b - y * a) * (x * b - y * a) + c
      == x * x * (b * b + B) - 2 * x * y * (a * b + D) + y * y * (a * a + A)
  {
    var p, q := x * b, y * a;
    assert (p - q) * (p - q) == p * p - 2 * (p * q) + q * q;
    assert p * p == x * x * (b * b);
    assert q * q == y * y * (a * a);
    assert p * q == x * y * (a * b);
  }

  lemma {:induction false} CrossSquaresExpansion(f: seq<int>, g: seq<int>, x: int, y: int)
    requires |f| == |g|
    ensures CrossSquares(f, g, x, y)
      == x * x * SumSquares(g) - 2 * x * y * Dot(f, g) + y * y * SumSquares(f)
  {
    if f != [] {
      CrossSquaresExpansion(f[1..], g[1..], x, y);
      ExpansionStep(x, y, f[0], g[0], SumSquares(f[1..]), SumSquares(g[1..]), Dot(f[1..], g[1..]),
        CrossSquares(f[1..], g[1..], x, y));
    }
  }

  /** Cauchy–Schwarz for the integer vectors: dot^2 <= |f|^2 * |g|^2. */
  lemma {:induction false} CauchySchwarz(f: seq<int>, g: seq<int>)
    requires |f| == |g|
    ensures Dot(f, g) * Dot(f, g) <= SumSquares(f) * SumSquares(g)
  {
    if f != [] {
      var a, b := f[0], g[0];
      var A, B, D := SumSquares(f[1..]), SumSquares(g[1..]), Dot(f[1..], g[1..]);
      CauchySchwarz(f[1..], g[1..]);
      CrossSquaresExpansion(f[1..], g[1..], a, b);
      assert a * a * B - 2 * a * b * D + b * b * A >= 0;
      assert (a * a + A) * (b * b + B) == a * a * (b * b) + a * a * B + A * (b * b) + A * B;
      assert (a * b + D) * (a * b + D) == a * a * (b * b) + 2 * a * b * D + D * D;
    }
  }

  lemma {:induction false} SumNonNegative(f: seq<int>)
    requires NonNegative(f)
    ensures Sum(f) >= 0
  {
    if f != [] {
      SumNonNegative(f[1..]);
    }
  }

  /** For a non-negative vector: sum <= sum of squares <= sum^2. */
  lemma {:induction false} SumSquaresBetween(f: seq<int>)
    requires NonNegative(f)
    ensures Sum(f) <= SumSquares(f) <= Sum(f) * Sum(f)
  {
    if f != [] {
      var a, S := f[0], Sum(f[1..]);
      SumSquaresBetween(f[1..]);
      SumNonNegative(f[1..]);
      assert a <= a * a;
      assert a * S >= 0;
      assert (a + S) * (a + S) == a * a + 2 * (a * S) + S * S;
    }
  }

  /** For non-negative vectors the dot product is at most the product of sums. */
  lemma {:induction false} DotAtMostSumProduct(f: seq<int>, g: seq<int>)
    requires NonNegative(f) && NonNegative(g)
    ensures Dot(f, g) <= Sum(f) * Sum(g)
  {
    if f != [] && g != [] {
      var a, b, S, T := f[0], g[0], Sum(f[1..]), Sum(g[1..]);
      DotAtMostSumProduct(f[1..], g[1..]);
      SumNonNegative(f[1..]);
      SumNonNegative(g[1..]);
      assert a * T >= 0 && S * b >= 0;
      assert (a + S) * (b + T) == a * b + a * T + S * b + S * T;
    } else {
      SumNonNegative(f);
      SumNonNegative(g);
    }
  }

  lemma {:induction false} FrequenciesOfEmpty(vocab: seq<Bigram>)
    ensures Sum(Frequencies(vocab, [])) == 0
  {
    if vocab != [] {
      FrequenciesOfEmpty(vocab[1..]);
    }
  }

  /** Putting x in front of s adds one to the total count exactly when x is in
      the (duplicate-free) vocabulary. */
  lemma {:induction false} FrequenciesOfCons(vocab: seq<Bigram>, x: Bigram, s: seq<Bigram>)
    requires Distinct(vocab)
    ensures Sum(Frequencies(vocab, [x] + s)) == Sum(Frequencies(vocab, s)) + (if x in vocab then 1 else 0)
  {
    if vocab != [] {
      FrequenciesOfCons(vocab[1..], x, s);
      assert x == vocab[0] ==> x !in vocab[1..];
      assert x in vocab <==> x == vocab[0] || x in vocab[1..] by {
        assert vocab == [vocab[0]] + vocab[1..];
      }
      assert ([x] + s)[1..] == s;
    }
  }

  /** Over a duplicate-free vocabulary that holds every element of s, the
      frequency vector of s sums to |s|. */
  lemma {:induction false} FrequenciesSumToLength(vocab: seq<Bigram>, s: seq<Bigram>)
    requires Distinct(vocab)
    requires forall x :: x in s ==> x in vocab
    ensures Sum(Frequencies(vocab, s)) == |s|
  {
    if s == [] {
      FrequenciesOfEmpty(vocab);
    } else {
      FrequenciesSumToLength(vocab, s[1..]);
      FrequenciesOfCons(vocab, s[0], s[1..]);
      assert s == [s[0]] + s[1..];
    }
  }
}
