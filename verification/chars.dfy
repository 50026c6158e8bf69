/**
 * Character classes of Python's `str` methods and `re` patterns as used by the
 * resume parser. Whitespace is the exact `str.isspace()` set; letters, digits,
 * word characters and case mapping are the ASCII part of Python's Unicode rules.
 */
module Chars {

  /** `str.isspace()`, `str.strip()` and the regex class `\s`: Unicode White_Space. */
  predicate IsSpace(c: char)
  {
    var n := c as int;
    || (9 <= n <= 13) || (28 <= n <= 32) || n == 0x85 || n == 0xA0 || n == 0x1680
    || (0x2000 <= n <= 0x200A) || n == 0x2028 || n == 0x2029 || n == 0x202F
    || n == 0x205F || n == 0x3000
  }

  predicate IsUpper(c: char) { 'A' <= c <= 'Z' }

  predicate IsLower(c: char) { 'a' <= c <= 'z' }

  predicate IsLetter(c: char) { IsUpper(c) || IsLower(c) }

  /** The regex class `\d` and `str.isdigit()` on single characters. */
  predicate IsDigit(c: char) { '0' <= c <= '9' }

  /** The regex class `\w`. */
  predicate IsWordChar(c: char) { IsLetter(c) || IsDigit(c) || c == '_' }

  function LowerChar(c: char): (d: char)
    ensures !IsUpper(d)
    ensures !IsUpper(c) ==> d == c
    ensures IsSpace(d) <==> IsSpace(c)
    ensures IsWordChar(d) <==> IsWordChar(c)
  {
    if IsUpper(c) then (c as int + 32) as char else c
  }

  predicate NoUpper(s: string)
  {
    forall i :: 0 <= i < |s| ==> !IsUpper(s[i])
  }

  /** `str.lower()`. */
  function Lower(s: string): (r: string)
    ensures |r| == |s|
    ensures forall i :: 0 <= i < |s| ==> r[i] == LowerChar(s[i])
    ensures NoUpper(r)
  {
    seq(|s|, i requires 0 <= i < |s| => LowerChar(s[i]))
  }

  lemma LowerOfNoUpper(s: string)
    requires NoUpper(s)
    ensures Lower(s) == s
  {
  }

  lemma LowerConcat(a: string, b: string)
    ensures Lower(a + b) == Lower(a) + Lower(b)
  {
  }

  lemma LowerSlice(s: string, i: nat, j: nat)
    requires i <= j <= |s|
    ensures Lower(s[i..j]) == Lower(s)[i..j]
  {
  }
}
