/**
 * The numeric meaning of digit strings, and the two conversions `Sum` makes
 * between numbers and strings: rendering a number with `${T}` and reading a
 * string back with `extends ${infer Res extends number}` (src/math.ts:91-92).
 */
module DecimalValue {

  import opened Digits
  import opened Wrappers
  import Strings

  /** Ten to the power `k`, the weight of digit position `k`. */
  function Pow10(k: nat): (r: nat)
    ensures r >= 1
  {
    if k == 0 then 1 else 10 * Pow10(k - 1)
  }

  /** The value of a digit string read least-significant digit first. */
  function LeValue(s: string): nat
    requires AllDigits(s)
  {
    if s == [] then 0 else DigitOf(s[0]) + 10 * LeValue(s[1..])
  }

  /** The value of a digit string read most-significant digit first. */
  function BeValue(s: string): nat
    requires AllDigits(s)
  {
    if s == [] then 0 else 10 * BeValue(s[..|s| - 1]) + DigitOf(s[|s| - 1])
  }

  /** A decimal literal with no superfluous leading zero: "0", or digits not starting with '0'. */
  predicate Canonical(s: string) {
    && |s| >= 1
    && AllDigits(s)
    && (s[0] == '0' ==> |s| == 1)
  }

  /** A little-endian value of `|s|` digits is below `10^|s|`. */
  lemma {:induction false} LeValueBound(s: string)
    requires AllDigits(s)
    ensures LeValue(s) < Pow10(|s|)
  {
    if s != [] {
      LeValueBound(s[1..]);
    }
  }

  /** Appending digits above the top position adds them scaled by `10^|a|`. */
  lemma {:induction false} LeValueAppend(a: string, b: string)
    requires AllDigits(a) && AllDigits(b)
    ensures AllDigits(a + b)
    ensures LeValue(a + b) == LeValue(a) + Pow10(|a|) * LeValue(b)
  {
    assert AllDigits(a + b) by {
      forall i | 0 <= i < |a + b|
        ensures IsDigitChar((a + b)[i])
      {
        if i >= |a| {
          assert (a + b)[i] == b[i - |a|];
        }
      }
    }
    if a != [] {
      assert (a + b)[1..] == a[1..] + b;
      LeValueAppend(a[1..], b);
      assert LeValue(a + b) == DigitOf(a[0]) + 10 * LeValue(a[1..] + b);
      ShiftScaled(LeValue(a[1..]), Pow10(|a| - 1), LeValue(b));
    } else {
      assert a + b == b;
    }
  }

  /** Scaling by ten distributes over a higher-position term. */
  lemma ShiftScaled(x: int, p: int, v: int)
    ensures 10 * (x + p * v) == 10 * x + (10 * p) * v
  {
  }

  /** A string of '0' characters is worth nothing. */
  lemma {:induction false} LeValueOfZeros(z: string)
    requires forall i :: 0 <= i < |z| ==> z[i] == '0'
    ensures AllDigits(z)
    ensures LeValue(z) == 0
  {
    if z != [] {
      LeValueOfZeros(z[1..]);
    }
  }

  /** Reading most-significant first is reading the reversal least-significant first. */
  lemma {:induction false} BeValueIsReversedLe(s: string)
    requires AllDigits(s)
    ensures AllDigits(Strings.Reversed(s))
    ensures BeValue(s) == LeValue(Strings.Reversed(s))
  {
    ReversedAllDigits(s);
    if s != [] {
      var p, c := s[..|s| - 1], s[|s| - 1];
      assert s == p + [c];
      assert AllDigits(p);
      BeValueIsReversedLe(p);
      Strings.ReversedConcat(p, [c]);
      var r := Strings.Reversed(s);
      assert r == [c] + Strings.Reversed(p);
      assert r[1..] == Strings.Reversed(p);
    }
  }

  /** The leading digit of a most-significant-first string weighs `10^(|s|-1)`. */
  lemma BeValueLead(s: string)
    requires AllDigits(s) && |s| >= 1
    ensures AllDigits(s[1..])
    ensures BeValue(s) == DigitOf(s[0]) * Pow10(|s| - 1) + BeValue(s[1..])
  {
    assert AllDigits(s[1..]);
    BeValueIsReversedLe(s);
    BeValueIsReversedLe(s[1..]);
    var rt := Strings.Reversed(s[1..]);
    assert Strings.Reversed(s) == rt + [s[0]];
    LeValueAppend(rt, [s[0]]);
    assert LeValue([s[0]]) == DigitOf(s[0]) by {
      assert [s[0]][1..] == [];
    }
    assert |rt| == |s| - 1;
    var p := Pow10(|s| - 1);
    assert LeValue(rt + [s[0]]) == LeValue(rt) + p * DigitOf(s[0]);
    assert p * DigitOf(s[0]) == DigitOf(s[0]) * p;
  }

  /** A canonical literal of several digits is at least `10^(|s|-1)`. */
  lemma CanonicalLowerBound(s: string)
    requires Canonical(s) && |s| > 1
    ensures BeValue(s) >= Pow10(|s| - 1)
  {
    BeValueLead(s);
    assert DigitOf(s[0]) >= 1;
  }

  /** The plain decimal rendering of a natural number, `${n}` on a `number`. */
  function DecimalString(n: nat): (r: string)
    ensures Canonical(r)
    ensures BeValue(r) == n
  {
    if n < 10 then
      [DigitChar(n)]
    else
      var p := DecimalString(n / 10);
      var r := p + [DigitChar(n % 10)];
      assert r[..|r| - 1] == p;
      r
  }

  /**
   * Reads a string as a natural-number literal type: a canonical literal
   * (a number's own rendering) is read as exactly that number, and every
   * other string gives `None`. TypeScript itself widens a numeric string that
   * does not round-trip through a double, such as one with a leading zero,
   * to `number`, and gives `never` only for non-numeric text; the model does
   * not distinguish those two outcomes.
   */
  function ParseNat(s: string): Option<nat> {
    if Canonical(s) then Some(BeValue(s)) else None
  }

  /** Parsing accepts exactly the renderings of natural numbers, each as its own number. */
  lemma {:induction false} ParseNatIffDecimalString(s: string, n: nat)
    ensures ParseNat(s) == Some(n) <==> s == DecimalString(n)
  {
    if ParseNat(s) == Some(n) {
      CanonicalIsDecimalString(s);
    }
  }

  /** A canonical literal is the rendering of its own value. */
  lemma {:induction false} CanonicalIsDecimalString(s: string)
    requires Canonical(s)
    ensures s == DecimalString(BeValue(s))
    decreases |s|
  {
    var n := BeValue(s);
    if |s| == 1 {
      assert s[..0] == [];
      DigitCharOf(s[0]);
    } else {
      CanonicalLowerBound(s);
      assert Pow10(|s| - 1) >= 10 by {
        assert Pow10(|s| - 1) == 10 * Pow10(|s| - 2);
      }
      var p, c := s[..|s| - 1], s[|s| - 1];
      assert p[0] == s[0];
      assert Canonical(p);
      assert n == 10 * BeValue(p) + DigitOf(c);
      assert n / 10 == BeValue(p) && n % 10 == DigitOf(c);
      CanonicalIsDecimalString(p);
      DigitCharOf(c);
      assert s == p + [c];
    }
  }
}
