/** Byte length of a Rust `&str`.  `gram_str` takes `len()` of its inputs, which
    counts UTF-8 bytes, and then indexes the vector of their characters with it. */
module Utf8 {

  /** Bytes taken by one character in UTF-8 (Rust's `char::len_utf8`). */
  function CharLen(c: char): (n: nat)
    ensures 1 <= n <= 4
    ensures n == 1 <==> (c as int) < 0x80
  {
    if (c as int) < 0x80 then 1
    else if (c as int) < 0x800 then 2
    else if (c as int) < 0x1_0000 then 3
    else 4
  }

  /** Bytes taken by a whole string in UTF-8 (Rust's `str::len`): never fewer
      than its characters, never more than four per character. */
  function ByteLen(s: seq<char>): (n: nat)
    ensures |s| <= n <= 4 * |s|
  {
    if s == [] then 0 else CharLen(s[0]) + ByteLen(s[1..])
  }

  predicate IsAscii(s: seq<char>)
  {
    forall i :: 0 <= i < |s| ==> (s[i] as int) < 0x80
  }

  /** The byte length equals the character count exactly on ASCII strings. */
  lemma {:induction false} AsciiByteLen(s: seq<char>)
    ensures ByteLen(s) == |s| <==> IsAscii(s)
  {
    if s != [] {
      AsciiByteLen(s[1..]);
      assert IsAscii(s) <==> (s[0] as int) < 0x80 && IsAscii(s[1..]) by {
        if (s[0] as int) < 0x80 && IsAscii(s[1..]) {
          forall i | 0 <= i < |s| ensures (s[i] as int) < 0x80 {
            if i > 0 { assert s[i] == s[1..][i - 1]; }
          }
        }
      }
    }
  }

  /** On a non-ASCII string the last index `len() - 1` lies beyond the last
      character, so the character lookup that uses it is out of range. */
  lemma LastByteIndexOutOfRange(s: seq<char>)
    requires s != [] && !IsAscii(s)
    ensures ByteLen(s) - 1 >= |s|
  {
    AsciiByteLen(s);
  }
}
