/** Rust's `String` holds a sequence of Unicode scalar values stored as UTF-8.
    Dafny's `string` is a sequence of Unicode scalar values as well, so the
    abstract value carries over unchanged; what this module adds is the length
    Rust reports, which counts the bytes of the UTF-8 encoding rather than the
    characters. */
module Utf8 {

  /** Number of bytes UTF-8 spends on one scalar value. */
  function CharLen(c: char): (n: nat)
    ensures 1 <= n <= 4
    ensures n == 1 <==> c as int < 0x80
  {
    if c as int < 0x80 then 1
    else if c as int < 0x800 then 2
    else if c as int < 0x1_0000 then 3
    else 4
  }

  /** `String::len`: the byte length of the UTF-8 encoding of `s`. */
  function Len(s: string): (n: nat)
    ensures |s| <= n <= 4 * |s|
  {
    if s == [] then 0 else CharLen(s[0]) + Len(s[1..])
  }

  /** `String::is_empty`, defined as Rust defines it: a byte length of zero. */
  predicate IsEmpty(s: string) {
    Len(s) == 0
  }

  /** A string of 7-bit characters, one byte each. */
  predicate IsAscii(s: string) {
    forall i :: 0 <= i < |s| ==> s[i] as int < 0x80
  }

  /** The string made of `n` copies of `c`. */
  function Repeat(c: char, n: nat): (s: string)
    ensures |s| == n
    ensures forall i :: 0 <= i < n ==> s[i] == c
  {
    seq(n, _ => c)
  }

  /** Being empty in bytes and being empty in characters coincide. */
  lemma IsEmptyIffNoChars(s: string)
    ensures IsEmpty(s) <==> s == []
  {
  }

  /** For ASCII text the byte length is the character count. */
  lemma {:induction false} LenAscii(s: string)
    requires IsAscii(s)
    ensures Len(s) == |s|
  {
    if s != [] {
      assert IsAscii(s[1..]) by {
        forall i | 0 <= i < |s[1..]| ensures s[1..][i] as int < 0x80 {
          assert s[1..][i] == s[i + 1];
        }
      }
      LenAscii(s[1..]);
    }
  }

  /** A run of one character costs that character's width once per copy. */
  lemma {:induction false} LenRepeat(c: char, n: nat)
    ensures Len(Repeat(c, n)) == n * CharLen(c)
  {
    if n > 0 {
      assert Repeat(c, n)[1..] == Repeat(c, n - 1);
      LenRepeat(c, n - 1);
    }
  }
}
