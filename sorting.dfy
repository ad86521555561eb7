/** The two library calls that turn the union of bigrams into the vocabulary:
    `slice::sort` and `Vec::dedup`, modelled on values. */
module Sorting {
  import opened Bigrams

  /** Inserts x into a sorted sequence, keeping it sorted. */
  function Insert(x: Bigram, s: seq<Bigram>): (r: seq<Bigram>)
    requires Sorted(s)
    ensures Sorted(r)
    ensures multiset(r) == multiset(s) + multiset{x}
    ensures forall y :: y in r <==> y == x || y in s
  {
    if s == [] || AtMost(x, s[0]) then [x] + s
    else
      var rest := Insert(x, s[1..]);
      assert forall y :: y in rest ==> AtMost(s[0], y);
      assert s == [s[0]] + s[1..];
      [s[0]] + rest
  }

  /** `slice::sort`: a sorted permutation of its input. */
  function Sort(s: seq<Bigram>): (r: seq<Bigram>)
    ensures Sorted(r)
    ensures multiset(r) == multiset(s)
    ensures forall y :: y in r <==> y in s
  {
    if s == [] then []
    else
      assert s == [s[0]] + s[1..];
      Insert(s[0], Sort(s[1..]))
  }

  /** `Vec::dedup`: drops every element equal to the one before it.  It keeps
      the same elements, starts with the same element, leaves no two neighbours
      equal, and turns a sorted sequence into a strictly sorted one. */
  function Dedup(s: seq<Bigram>): (r: seq<Bigram>)
    ensures forall y :: y in r <==> y in s
    ensures |r| <= |s|
    ensures s != [] ==> r != [] && r[0] == s[0]
    ensures forall i :: 0 <= i < |r| - 1 ==> r[i] != r[i + 1]
    ensures Sorted(s) ==> StrictlySorted(r)
  {
    if |s| <= 1 then s
    else if s[0] == s[1] then
      assert forall y :: y in s <==> y in s[1..] by {
        assert s == [s[1]] + s[1..];
      }
      Dedup(s[1..])
    else
      assert forall y :: y in s <==> y == s[0] || y in s[1..] by {
        assert s == [s[0]] + s[1..];
      }
      assert Sorted(s) ==> forall y :: y in s[1..] ==> Below(s[0], y);
      [s[0]] + Dedup(s[1..])
  }

  /** The vocabulary `gram_str` builds at lines 49-50: the union of both bigram
      lists, sorted and deduplicated.  It is strictly sorted and holds exactly
      the bigrams that occur in either list. */
  function Vocabulary(s1: seq<Bigram>, s2: seq<Bigram>): (v: seq<Bigram>)
    ensures StrictlySorted(v)
    ensures forall x :: x in v <==> x in s1 || x in s2
  {
    Dedup(Sort(s1 + s2))
  }

  /** Any strictly sorted sequence of exactly those bigrams is the vocabulary;
      in particular the vocabulary does not depend on which string came first. */
  lemma VocabularyCanonical(s1: seq<Bigram>, s2: seq<Bigram>, w: seq<Bigram>)
    requires StrictlySorted(w)
    requires forall x :: x in w <==> x in s1 || x in s2
    ensures w == Vocabulary(s1, s2)
    ensures Vocabulary(s1, s2) == Vocabulary(s2, s1)
  {
    StrictlySortedUnique(w, Vocabulary(s1, s2));
    StrictlySortedUnique(w, Vocabulary(s2, s1));
  }
}
