/** Decimal digits (src/math.ts:4-5) and the characters that spell them. */
module Digits {

  import Strings

  /** A decimal digit, the element type of the successor tuple. */
  type Digit = d: int | 0 <= d <= 9

  /** A carry, `0 | 1` in the source. */
  type Bit = b: int | 0 <= b <= 1

  /** The successor tuple: entry `d` is the digit after `d`, wrapping 9 to 0. */
  const NextDigitTable: seq<Digit> := [1, 2, 3, 4, 5, 6, 7, 8, 9, 0]

  /** Looks up the successor of a digit. */
  function NextDigit(d: Digit): (r: Digit)
    ensures r == (d + 1) % 10
  {
    NextDigitTable[d]
  }

  /** A character '0' to '9'. */
  predicate IsDigitChar(c: char) {
    '0' <= c <= '9'
  }

  /** A string made of digit characters only. */
  predicate AllDigits(s: string) {
    forall i :: 0 <= i < |s| ==> IsDigitChar(s[i])
  }

  /** The digit a character spells, as `infer D extends Digit` reads it. */
  function DigitOf(c: char): (d: Digit)
    requires IsDigitChar(c)
  {
    c as int - '0' as int
  }

  /** The character that spells a digit, as `${D}` renders it. */
  function DigitChar(d: Digit): (c: char)
    ensures IsDigitChar(c)
    ensures DigitOf(c) == d
  {
    (d + '0' as int) as char
  }

  /** Reading a digit character and spelling it again gives it back. */
  lemma DigitCharOf(c: char)
    requires IsDigitChar(c)
    ensures DigitChar(DigitOf(c)) == c
  {
  }

  /** A digit-only string stays digit-only when reversed. */
  lemma {:induction false} ReversedAllDigits(s: string)
    ensures AllDigits(Strings.Reversed(s)) <==> AllDigits(s)
  {
    var r := Strings.Reversed(s);
    if AllDigits(s) {
      forall i | 0 <= i < |r|
        ensures IsDigitChar(r[i])
      {
        assert r[i] == s[|s| - 1 - i];
      }
    }
    if AllDigits(r) {
      forall i | 0 <= i < |s|
        ensures IsDigitChar(s[i])
      {
        assert r[|s| - 1 - i] == s[i];
      }
    }
  }
}
