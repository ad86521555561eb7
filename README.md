# rfuzz `gram_str` in Dafny

rfuzz is a Polars plugin for fuzzy string comparison. Its core is `gram_str`
in `src/expressions.rs`, which scores how similar two strings are by the cosine
of their character-bigram frequency vectors:

1. If either string is empty the score is 0.0. If the two strings are equal
   it is 1.0. In both cases no bigram is built.
2. Each string becomes its list of adjacent character pairs, with a space
   before the first character and after the last. A string of n characters
   gives n + 1 bigrams.
3. The two lists are concatenated into `sunion`. `sunion` is then sorted by
   Rust's lexicographic `(char, char)` order and deduplicated, which gives the
   vocabulary.
4. For every vocabulary entry, its occurrences are counted in each string's
   list. This gives two frequency vectors.
5. The integer dot product and the two squared magnitudes are computed. The
   score is dot / (sqrt(magnitude1) * sqrt(magnitude2)).

`gram` is the Polars expression that applies `gram_str` row by row to two
string columns.

The model is written in the source's own form. The loops that build `s1`, `s2`
and `sunion`, and the loop that fills `f1` and `f2`, are Dafny methods with loop
invariants. `GramStr` runs them in the source's order. The extraction methods
are proved equal to `Bigrams.Of`. `CountFrequencies` is proved to give, at each
index, the multiplicity of `sunion[i]` in each bigram list. `GramStr` as a whole
is proved equal to `Expressions.GramScore`, which is built from
`Sorting.Vocabulary` and `Vectors.Frequencies`. The lemmas are proved about
those functions. The library calls `sort` and `dedup`, and the iterator folds
(`filter().count()`, the zip/map/sum dot product, the sums of squares), are
Dafny functions.

The result of `gram_str` is kept exact rather than as an f64. It is the
datatype `Score`: `EmptyInput` (0.0), `EqualInput` (1.0), or
`Cosine(dot, magnitude1, magnitude2)`. `SquaredValue` gives the square of the
exact ratio as a rational. The f64 the source returns for a `Cosine` is that
ratio after rounding, and can differ from it in the last bits.

Files:
- `utf8.dfy` holds the UTF-8 byte length that `str::len` returns.
- `bigrams.dfy` holds the bigram type, its order and the padded extraction.
- `sorting.dfy` holds `sort`, `dedup` and the vocabulary.
- `vectors.dfy` holds the counts, the frequency vectors, the folds and Cauchy–Schwarz.
- `expressions.dfy` holds `gram_str` and `gram`.
- `scenarios.dfy` works through "night" against "nacht".

Points where the code behaves in ways a reader might not expect:
- The code takes `len()` of each string, which counts UTF-8 bytes, and uses
  it to index the vector of the string's characters (lines 22 and 33). The
  model computes the index the same way and requires the strings that reach
  the bigram loops to be ASCII, where the two counts agree.
- `src/expressions.rs` defines only the `gram` expression. `tests/test_rfuzz.py:7` also
  imports `ratio` and `partial_ratio`, which `src/expressions.rs` does not define.
- The code never extracts bigrams from an empty string, and line 22 would
  underflow if it did. `Bigrams.Of` therefore requires a non-empty string.

## Model

| member | source | states |
|---|---|---|
| `Utf8.CharLen` | src/expressions.rs:22 | a character takes 1 to 4 UTF-8 bytes, and exactly 1 when it is ASCII |
| `Utf8.ByteLen` | src/expressions.rs:22 | `str::len` of a string is at least its character count and at most four times it |
| `Utf8.AsciiByteLen` | src/expressions.rs:22 | `len()` equals the character count exactly on ASCII strings |
| `Utf8.LastByteIndexOutOfRange` | src/expressions.rs:22-31 | on a non-empty non-ASCII string `l1 = len() - 1` is at least the character count, so `chars1[l1]` is out of range |
| `Bigrams.Of` | src/expressions.rs:22-31 | n characters give n + 1 bigrams: (' ', c[0]) first, (c[i], c[i+1]) at position i + 1, (c[n-1], ' ') last |
| `Bigrams.StrictlySortedUnique` | src/expressions.rs:49-50 | two strictly sorted sequences with the same elements are equal |
| `Bigrams.SortedPermutationUnique` | src/expressions.rs:49 | two sorted permutations of the same multiset are equal, so any correct sort gives Rust's `sort` result |
| `Sorting.Sort` | src/expressions.rs:49 | the result is sorted, has the same multiset as the input and so the same elements |
| `Sorting.Dedup` | src/expressions.rs:50 | same elements, same first element, no two equal neighbours, strictly sorted when the input is sorted |
| `Sorting.Vocabulary` | src/expressions.rs:35-50 | `sunion` after sort and dedup is strictly increasing and holds exactly the bigrams of `s1` or `s2` |
| `Sorting.VocabularyCanonical` | src/expressions.rs:35-50 | every strictly sorted sequence of exactly those bigrams is the vocabulary, and the vocabulary does not depend on which list came first |
| `Vectors.Count` | src/expressions.rs:57-58 | the count of a bigram in a list never exceeds the list's length |
| `Vectors.CountIsMultiplicity` | src/expressions.rs:57-58 | `filter(x == bi).count()` is the multiplicity of `bi` in the list |
| `Vectors.Frequencies` | src/expressions.rs:53-59 | a frequency vector has one entry per vocabulary entry, and entry i counts vocabulary entry i |
| `Vectors.SumSquares` | src/expressions.rs:63-64 | a squared magnitude is never negative |
| `Vectors.DotTruncates` | src/expressions.rs:62 | the zip/map/sum dot product stops at the shorter vector: the longer one's extra entries take no part |
| `Vectors.DotSymmetric` | src/expressions.rs:62 | the dot product does not depend on the order of its arguments |
| `Vectors.DotWithItself` | src/expressions.rs:62-64 | a vector's dot product with itself is its squared magnitude |
| `Vectors.DotNonNegative` | src/expressions.rs:62 | the dot product of two count vectors is non-negative |
| `Vectors.CauchySchwarz` | src/expressions.rs:62-64 | dot^2 <= magnitude1 * magnitude2 |
| `Vectors.SumSquaresBetween` | src/expressions.rs:63-64 | for a count vector, sum <= squared magnitude <= sum^2 |
| `Vectors.DotAtMostSumProduct` | src/expressions.rs:62 | for count vectors, dot <= sum(f1) * sum(f2) |
| `Vectors.FrequenciesSumToLength` | src/expressions.rs:53-59 | over a duplicate-free vocabulary containing all of a list's bigrams, the frequency vector sums to the list's length |
| `Expressions.SquaredValue` | src/expressions.rs:66 | the exact square of the returned ratio lies in [0, 1] for every score with positive magnitudes that obeys Cauchy–Schwarz, and is exactly 1 when the dot product equals both magnitudes |
| `Expressions.CosineOf` | src/expressions.rs:49-64 | on the vocabulary and frequency vectors of two bigram lists: dot >= 0, dot^2 <= magnitude1 * magnitude2, each magnitude is at least 1 for a non-empty list, so the denominator at line 66 is never zero, and every fold is bounded by the products of the list lengths |
| `Expressions.GramScore` | src/expressions.rs:14-20 | returns `EmptyInput` (0.0) exactly when a string is empty, and `EqualInput` (1.0) exactly when both are non-empty and equal; otherwise `Cosine`, whose value can also be 0 or 1 |
| `Expressions.Admissible` | src/expressions.rs:22-46 | for two non-empty, different strings, which reach the bigram loops, the inputs are admitted exactly when `len()` of each equals its character count, which keeps every character index in range |
| `Expressions.ExtractBigrams` | src/expressions.rs:22-31 | the loop over `0..l1` builds exactly the padded bigram list of the first string |
| `Expressions.ExtractIntoUnion` | src/expressions.rs:33-46 | the loop over `0..l2` builds the padded bigram list `s2`, and `sunion` ends as `s1` followed by `s2`, of length (n1 + 1) + (n2 + 1) |
| `Expressions.CountFrequencies` | src/expressions.rs:53-59 | `f1` and `f2` have the length of `sunion`, and `f1[i]` and `f2[i]` are the multiplicities of `sunion[i]` in `s1` and `s2` |
| `Expressions.GramStr` | src/expressions.rs:8-70 | on every input where the source stays in range, the method returns `GramScore`, and a cosine result has dot >= 0, dot^2 <= magnitude1 * magnitude2 and both magnitudes >= 1 |
| `Expressions.ScoreWithinUnitInterval` | src/expressions.rs:62-66 | the exact score squares to a value in [0, 1], and a cosine result has a non-negative numerator and a positive denominator |
| `Expressions.ScoreSymmetric` | src/expressions.rs:35-66 | exchanging the strings keeps the dot product and exchanges the magnitudes, so the exact score is symmetric |
| `Expressions.EqualShortcutAgrees` | src/expressions.rs:18-20 | without the equality short-cut, equal strings would still get dot = magnitude1 = magnitude2, an exact ratio of 1 |
| `Expressions.CountsFitInI32` | src/expressions.rs:54-64 | for strings under 46340 characters, no count, dot product or magnitude exceeds `i32::MAX` |
| `Expressions.Gram` | src/expressions.rs:72-82 | one result per row: missing exactly when either input is missing, and otherwise `gram_str` of the pair |
| `Scenarios.NightNacht` | src/expressions.rs:8-70 | "night" against "nacht" gives dot 3 and magnitudes 6 and 6 |
| `Scenarios.NightNachtValue` | src/expressions.rs:66 | the exact score of "night" against "nacht" squares to 1/4, so the exact score is 0.5 |

## Left out

- The final `sqrt` calls and f64 division (lines 63-66) are floating point. The model keeps the integer `Cosine(dot, magnitude1, magnitude2)`. It states its properties on those integers and on the exact rational `SquaredValue`. The [0, 1] bound and the value 1 for equal dot product and magnitudes hold for the exact ratio. The f64 the source returns can differ from it by rounding, and can even exceed 1.0: with dot = magnitude1 = magnitude2 = 3, `sqrt(3) * sqrt(3)` rounds to just below 3, so the quotient rounds to just above 1.0.
- GramStr: counts and sums are unbounded integers, while the source uses `i32` and the `as i32` cast (lines 57-64). Inputs long enough to overflow (a string of at least about 46340 characters) are not modelled. `CountsFitInI32` proves that shorter inputs cannot overflow.
- GramStr: inputs that reach the bigram loops with a non-ASCII string are excluded by the precondition `Admissible`. On those inputs the source indexes past the last character and panics (`Utf8.LastByteIndexOutOfRange`). The panic itself is not modelled.
- `sort` and `dedup` (lines 49-50) change the vector in place. The model assigns their results to the local `sunion`. `Sorting.Sort` is an insertion sort. `Bigrams.SortedPermutationUnique` shows that every correct sort gives the same vector, Rust's stable sort included.
- The capacity reservations `reserve` and `with_capacity` (lines 23, 35, 37, 54-55) are allocation hints with no observable effect.
- Gram: the failure of `str()?` on a column that does not hold strings is not modelled. Neither are Polars chunking, broadcasting of length-one columns, or building the result `Series`. `Gram` requires two columns of equal length.
- `rfuzz/__init__.py` only registers the plugin with Polars.
- `tests/test_rfuzz.py` is a timing benchmark with no expected values. The `ratio` and `partial_ratio` it imports, and any windowed comparison, are not defined in `src/expressions.rs`, so they are not part of this model.
