/**
 * Schoolbook addition of natural numbers over decimal strings
 * (src/math.ts): the digit-pair table, the carry step, zero padding, the
 * carry chain, and `Sum`, which composes them.
 */
module Math {

  import opened Digits
  import opened DecimalValue
  import opened Wrappers
  import opened Strings

  /** One column of an addition: the outgoing carry and the digit written. */
  datatype CarryDigit = CarryDigit(carry: Bit, digit: Digit)

  /** The digit-pair table: row `t`, column `u` holds `[carry, digit]` for `t + u`. */
  const DigitSumTable: seq<seq<(Bit, Digit)>> := [
    /* 0x */ [(0, 0), (0, 1), (0, 2), (0, 3), (0, 4), (0, 5), (0, 6), (0, 7), (0, 8), (0, 9)],
    /* 1x */ [(0, 1), (0, 2), (0, 3), (0, 4), (0, 5), (0, 6), (0, 7), (0, 8), (0, 9), (1, 0)],
    /* 2x */ [(0, 2), (0, 3), (0, 4), (0, 5), (0, 6), (0, 7), (0, 8), (0, 9), (1, 0), (1, 1)],
    /* 3x */ [(0, 3), (0, 4), (0, 5), (0, 6), (0, 7), (0, 8), (0, 9), (1, 0), (1, 1), (1, 2)],
    /* 4x */ [(0, 4), (0, 5), (0, 6), (0, 7), (0, 8), (0, 9), (1, 0), (1, 1), (1, 2), (1, 3)],
    /* 5x */ [(0, 5), (0, 6), (0, 7), (0, 8), (0, 9), (1, 0), (1, 1), (1, 2), (1, 3), (1, 4)],
    /* 6x */ [(0, 6), (0, 7), (0, 8), (0, 9), (1, 0), (1, 1), (1, 2), (1, 3), (1, 4), (1, 5)],
    /* 7x */ [(0, 7), (0, 8), (0, 9), (1, 0), (1, 1), (1, 2), (1, 3), (1, 4), (1, 5), (1, 6)],
    /* 8x */ [(0, 8), (0, 9), (1, 0), (1, 1), (1, 2), (1, 3), (1, 4), (1, 5), (1, 6), (1, 7)],
    /* 9x */ [(0, 9), (1, 0), (1, 1), (1, 2), (1, 3), (1, 4), (1, 5), (1, 6), (1, 7), (1, 8)]
  ]

  /** Looks up the column result for two digits. */
  function DigitSum(t: Digit, u: Digit): (r: CarryDigit)
    ensures t + u == 10 * r.carry + r.digit
  {
    var (c, v) := DigitSumTable[t][u];
    CarryDigit(c, v)
  }

  /** Adds two digits and an incoming carry by bumping the table entry. */
  function DigitSumWithCarry(t: Digit, u: Digit, carry: Bit): (r: CarryDigit)
    ensures t + u + carry == 10 * r.carry + r.digit
  {
    if carry == 0 then
      DigitSum(t, u)
    else
      var s := DigitSum(t, u);
      if s.digit == 9 then CarryDigit(NextDigit(s.carry), 0)
      else CarryDigit(s.carry, NextDigit(s.digit))
  }

  /** The larger of two lengths. */
  function Max(a: nat, b: nat): nat {
    if a < b then b else a
  }

  /**
   * Pads the shorter of two strings with '0' characters at its end. The
   * strings are reversed numbers, so the padding adds leading zeros.
   */
  function WithTrailingZeroes(t: string, u: string): (r: (string, string))
    ensures |r.0| == Max(|t|, |u|) && |r.1| == Max(|t|, |u|)
    ensures r.0[..|t|] == t && r.1[..|u|] == u
    ensures forall i :: |t| <= i < |r.0| ==> r.0[i] == '0'
    ensures forall i :: |u| <= i < |r.1| ==> r.1[i] == '0'
    ensures |t| == |u| ==> r == (t, u)
    decreases Max(|t|, |u|), 2 * Max(|t|, |u|) - |t| - |u|
  {
    if |t| > 0 && |u| > 0 then
      var (tp, up) := WithTrailingZeroes(t[1..], u[1..]);
      assert |t| == |u| ==> [t[0]] + tp == t && [u[0]] + up == u;
      ([t[0]] + tp, [u[0]] + up)
    else if t == [] && u == [] then
      (t, u)
    else if t == [] then
      WithTrailingZeroes(t + "0", u)
    else
      WithTrailingZeroes(t, u + "0")
  }

  /**
   * Adds two reversed digit strings column by column, threading the carry,
   * and writes a final '1' when a carry is left over. It stops at the first
   * position where either string ends or holds a non-digit.
   */
  function SumImpl(t: string, u: string, carry: Bit): (r: string)
    ensures AllDigits(r)
    ensures AllDigits(t) && AllDigits(u) && |t| == |u| ==>
              LeValue(r) == LeValue(t) + LeValue(u) + carry
  {
    if |t| > 0 && |u| > 0 && IsDigitChar(t[0]) && IsDigitChar(u[0]) then
      var s := DigitSumWithCarry(DigitOf(t[0]), DigitOf(u[0]), carry);
      var rest := SumImpl(t[1..], u[1..], s.carry);
      var r := [DigitChar(s.digit)] + rest;
      assert r[1..] == rest;
      r
    else if carry == 1 then
      "1"
    else
      ""
  }

  /**
   * The string part of `Sum`: reverse both literals, pad them to equal
   * length, add the columns, and reverse the result back.
   */
  function ColumnSum(a: string, b: string): string {
    var padded := WithTrailingZeroes(Reversed(a), Reversed(b));
    Reversed(SumImpl(padded.0, padded.1, 0))
  }

  /** The sum of two natural numbers; the source's `never` would be `None`. */
  function Sum(t: nat, u: nat): (r: Option<nat>)
    ensures r == Some(t + u)
  {
    var a, b := DecimalString(t), DecimalString(u);
    ColumnSumValue(a, b);
    ColumnSumCanonical(a, b);
    ParseNat(ColumnSum(a, b))
  }

  /** The table is symmetric: the order of the two digits does not matter. */
  lemma DigitSumSymmetric(t: Digit, u: Digit)
    ensures DigitSum(t, u) == DigitSum(u, t)
  {
  }

  /** The table entry is the quotient and remainder of `t + u` by ten. */
  lemma DigitSumIsDivMod(t: Digit, u: Digit)
    ensures DigitSum(t, u) == CarryDigit((t + u) / 10, (t + u) % 10)
  {
  }

  /**
   * A table digit of 9 only occurs with carry 0, so the carry step's
   * successor of the carry is 1.
   */
  lemma DigitSumNineHasNoCarry(t: Digit, u: Digit)
    ensures DigitSum(t, u).digit == 9 ==> DigitSum(t, u).carry == 0 && NextDigit(DigitSum(t, u).carry) == 1
  {
  }

  /** The carry step is the quotient and remainder of `t + u + carry` by ten. */
  lemma DigitSumWithCarryIsDivMod(t: Digit, u: Digit, carry: Bit)
    ensures DigitSumWithCarry(t, u, carry) == CarryDigit((t + u + carry) / 10, (t + u + carry) % 10)
  {
  }

  /** Reference padding: `s` followed by '0' characters up to length `n`. */
  function PadZeros(s: string, n: nat): (r: string)
    requires |s| <= n
  {
    s + seq(n - |s|, _ => '0')
  }

  /** `WithTrailingZeroes` pads each string to the longer length with '0's. */
  lemma WithTrailingZeroesIsPadding(t: string, u: string)
    ensures WithTrailingZeroes(t, u) == (PadZeros(t, Max(|t|, |u|)), PadZeros(u, Max(|t|, |u|)))
  {
    var m := Max(|t|, |u|);
    var r := WithTrailingZeroes(t, u);
    assert r.0 == PadZeros(t, m) by {
      assert r.0 == r.0[..|t|] + r.0[|t|..];
    }
    assert r.1 == PadZeros(u, m) by {
      assert r.1 == r.1[..|u|] + r.1[|u|..];
    }
  }

  /** Padding keeps strings digit-only and keeps their little-endian values. */
  lemma WithTrailingZeroesPreservesValue(t: string, u: string)
    requires AllDigits(t) && AllDigits(u)
    ensures var r := WithTrailingZeroes(t, u);
      && AllDigits(r.0) && AllDigits(r.1)
      && LeValue(r.0) == LeValue(t) && LeValue(r.1) == LeValue(u)
  {
    WithTrailingZeroesIsPadding(t, u);
    var m := Max(|t|, |u|);
    PaddingPreservesValue(t, m);
    PaddingPreservesValue(u, m);
  }

  /** Padding one digit string with '0's keeps it digit-only and keeps its value. */
  lemma PaddingPreservesValue(s: string, n: nat)
    requires AllDigits(s) && |s| <= n
    ensures AllDigits(PadZeros(s, n)) && LeValue(PadZeros(s, n)) == LeValue(s)
  {
    var z := seq(n - |s|, _ => '0');
    LeValueOfZeros(z);
    LeValueAppend(s, z);
  }

  /**
   * On equal-length digit strings the result has one digit per column, plus
   * a final '1' exactly when the total reaches the next power of ten.
   */
  lemma {:induction false} SumImplLength(t: string, u: string, carry: Bit)
    requires AllDigits(t) && AllDigits(u) && |t| == |u|
    ensures var r := SumImpl(t, u, carry);
      var total := LeValue(t) + LeValue(u) + carry;
      || (|r| == |t| && total < Pow10(|t|))
      || (|r| == |t| + 1 && r[|t|] == '1' && total >= Pow10(|t|))
  {
    if |t| > 0 {
      var s := DigitSumWithCarry(DigitOf(t[0]), DigitOf(u[0]), carry);
      assert AllDigits(t[1..]) && AllDigits(u[1..]);
      SumImplLength(t[1..], u[1..], s.carry);
      var rest := SumImpl(t[1..], u[1..], s.carry);
      assert SumImpl(t, u, carry) == [DigitChar(s.digit)] + rest;
    }
  }

  /** A little-endian digit string worth at least `10^(|s|-1)` has a nonzero top digit. */
  lemma TopDigitNonZero(s: string)
    requires AllDigits(s) && |s| >= 1 && LeValue(s) >= Pow10(|s| - 1)
    ensures s[|s| - 1] != '0'
  {
    var init := s[..|s| - 1];
    assert s == init + [s[|s| - 1]];
    assert AllDigits(init);
    LeValueAppend(init, [s[|s| - 1]]);
    LeValueBound(init);
    assert LeValue([s[|s| - 1]]) == DigitOf(s[|s| - 1]) by {
      assert [s[|s| - 1]][1..] == [];
    }
  }

  /** The column sum of two digit strings is worth the sum of their values. */
  lemma ColumnSumValue(a: string, b: string)
    requires AllDigits(a) && AllDigits(b)
    ensures AllDigits(ColumnSum(a, b))
    ensures BeValue(ColumnSum(a, b)) == BeValue(a) + BeValue(b)
  {
    BeValueIsReversedLe(a);
    BeValueIsReversedLe(b);
    var padded := WithTrailingZeroes(Reversed(a), Reversed(b));
    WithTrailingZeroesPreservesValue(Reversed(a), Reversed(b));
    var s := SumImpl(padded.0, padded.1, 0);
    assert LeValue(s) == BeValue(a) + BeValue(b);
    ReversedAllDigits(s);
    ReversedInvolution(s);
    BeValueIsReversedLe(Reversed(s));
  }

  /**
   * When the operands are large enough to need all `|p|` columns, the
   * column sum does not end in a '0' digit above its lowest one.
   */
  lemma SumImplNoLeadingZero(p: string, q: string)
    requires AllDigits(p) && AllDigits(q) && |p| == |q| >= 1
    requires |p| == 1 || LeValue(p) + LeValue(q) >= Pow10(|p| - 1)
    ensures var s := SumImpl(p, q, 0);
      |s| >= 1 && (|s| > 1 ==> s[|s| - 1] != '0')
  {
    SumImplLength(p, q, 0);
    var s := SumImpl(p, q, 0);
    if |s| == |p| && |p| > 1 {
      TopDigitNonZero(s);
    }
  }

  /**
   * The column sum of two canonical literals is canonical: it has no
   * leading zero, so the parse in `Sum` never falls through.
   */
  lemma ColumnSumCanonical(a: string, b: string)
    requires Canonical(a) && Canonical(b)
    ensures Canonical(ColumnSum(a, b))
  {
    BeValueIsReversedLe(a);
    BeValueIsReversedLe(b);
    var padded := WithTrailingZeroes(Reversed(a), Reversed(b));
    WithTrailingZeroesPreservesValue(Reversed(a), Reversed(b));
    var n := Max(|a|, |b|);
    if n > 1 {
      if |a| == n {
        CanonicalLowerBound(a);
      } else {
        CanonicalLowerBound(b);
      }
    }
    SumImplNoLeadingZero(padded.0, padded.1);
    var s := SumImpl(padded.0, padded.1, 0);
    ReversedAllDigits(s);
    assert Reversed(s)[0] == s[|s| - 1];
  }

}
