/** Character bigrams as `gram_str` builds them: pairs of adjacent characters,
    with a space before the first and after the last character, compared the way
    Rust compares a `(char, char)` tuple. */
module Bigrams {

  /** Rust's `(char, char)`. */
  type Bigram = (char, char)

  /** The padding character put at both ends of a string. */
  const Pad: char := ' '

  /** Rust's derived `Ord` on tuples: lexicographic, each `char` by its scalar value. */
  predicate Below(a: Bigram, b: Bigram)
  {
    a.0 < b.0 || (a.0 == b.0 && a.1 < b.1)
  }

  predicate AtMost(a: Bigram, b: Bigram)
  {
    a == b || Below(a, b)
  }

  /** Non-decreasing, as `slice::sort` leaves a vector. */
  predicate Sorted(s: seq<Bigram>)
  {
    forall i, j :: 0 <= i < j < |s| ==> AtMost(s[i], s[j])
  }

  /** Strictly increasing: sorted and free of duplicates. */
  predicate StrictlySorted(s: seq<Bigram>)
  {
    forall i, j :: 0 <= i < j < |s| ==> Below(s[i], s[j])
  }

  predicate Distinct(s: seq<Bigram>)
  {
    forall i, j :: 0 <= i < j < |s| ==> s[i] != s[j]
  }

  /** The padded bigram sequence of a non-empty string: bigram i pairs the
      characters at positions i - 1 and i, with the pad character standing in
      before the first and after the last position. */
  function Of(c: seq<char>): (r: seq<Bigram>)
    requires c != []
    ensures |r| == |c| + 1
    ensures r[0] == (Pad, c[0])
    ensures forall i :: 0 <= i < |c| - 1 ==> r[i + 1] == (c[i], c[i + 1])
    ensures r[|c|] == (c[|c| - 1], Pad)
  {
    seq(|c| + 1, i requires 0 <= i <= |c| =>
      (if i == 0 then Pad else c[i - 1], if i == |c| then Pad else c[i]))
  }

  /** `Of` read as the loops of `gram_str` build it: one opening bigram, one
      bigram per step, one closing bigram. */
  lemma OfStart(c: seq<char>)
    requires c != []
    ensures Of(c)[..1] == [(Pad, c[0])]
  {
  }

  lemma OfStep(c: seq<char>, i: nat)
    requires i < |c| - 1
    ensures Of(c)[..i + 2] == Of(c)[..i + 1] + [(c[i], c[i + 1])]
  {
    var r := Of(c);
    assert r[i + 1] == (c[i], c[i + 1]);
    assert r[..i + 2] == r[..i + 1] + [r[i + 1]];
  }

  lemma OfEnd(c: seq<char>)
    requires c != []
    ensures Of(c) == Of(c)[..|c|] + [(c[|c| - 1], Pad)]
  {
    var r := Of(c);
    assert r == r[..|c|] + [r[|c|]];
  }

  /** The first element of a non-empty sorted sequence is at most every element. */
  lemma FirstIsLeast(s: seq<Bigram>)
    requires Sorted(s) && s != []
    ensures forall x :: x in s ==> AtMost(s[0], x)
  {
  }

  /** Past the first element of a strictly sorted sequence lie exactly the
      elements above it. */
  lemma TailIsAboveFirst(s: seq<Bigram>)
    requires StrictlySorted(s) && s != []
    ensures forall x :: x in s[1..] <==> x in s && Below(s[0], x)
  {
    forall x | x in s && Below(s[0], x) ensures x in s[1..] {
      var i :| 0 <= i < |s| && s[i] == x;
      assert i != 0;
      assert s[1..][i - 1] == x;
    }
  }

  /** A strictly sorted sequence is determined by its elements: the vocabulary
      of `gram_str` does not depend on the order of the bigrams it came from. */
  lemma {:induction false} StrictlySortedUnique(a: seq<Bigram>, b: seq<Bigram>)
    requires StrictlySorted(a) && StrictlySorted(b)
    requires forall x :: x in a <==> x in b
    ensures a == b
    decreases |a|
  {
    assert a != [] ==> a[0] in b;
    assert b != [] ==> b[0] in a;
    if a != [] {
      FirstIsLeast(a);
      FirstIsLeast(b);
      assert a[0] == b[0];
      TailIsAboveFirst(a);
      TailIsAboveFirst(b);
      StrictlySortedUnique(a[1..], b[1..]);
      assert a == [a[0]] + a[1..];
      assert b == [b[0]] + b[1..];
    }
  }

  /** A sorted sequence is determined by its multiset of elements: every correct
      sort, Rust's stable merge sort included, produces the same vector. */
  lemma {:induction false} SortedPermutationUnique(a: seq<Bigram>, b: seq<Bigram>)
    requires Sorted(a) && Sorted(b)
    requires multiset(a) == multiset(b)
    ensures a == b
    decreases |a|
  {
    assert |a| == |multiset(a)| == |multiset(b)| == |b|;
    if a != [] {
      assert a == [a[0]] + a[1..];
      assert b == [b[0]] + b[1..];
      assert a[0] in multiset(b) && b[0] in multiset(a);
      FirstIsLeast(a);
      FirstIsLeast(b);
      assert a[0] == b[0];
      assert multiset(a[1..]) == multiset(a) - multiset{a[0]};
      assert multiset(b[1..]) == multiset(b) - multiset{b[0]};
      SortedPermutationUnique(a[1..], b[1..]);
    }
  }
}
