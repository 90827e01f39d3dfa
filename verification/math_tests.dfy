/** The `_test` cases of src/math.ts, and the algebraic laws they sample. */
module MathTests {

  import opened Math
  import opened Wrappers
  import Strings

  /** Operand order does not matter. */
  lemma SumCommutative(t: nat, u: nat)
    ensures Sum(t, u) == Sum(u, t)
  {
  }

  /** Zero is an identity on either side. */
  lemma SumZeroIdentity(t: nat)
    ensures Sum(t, 0) == Some(t)
    ensures Sum(0, t) == Some(t)
  {
  }

  /** Identity and small cases. */
  lemma SumSmallCases()
    ensures Sum(0, 0) == Some(0)
    ensures Sum(1, 0) == Some(1) && Sum(0, 1) == Some(1)
    ensures Sum(5, 4) == Some(9) && Sum(4, 5) == Some(9)
    ensures Sum(0, 1_000_000_000) == Some(1_000_000_000)
    ensures Sum(1_000_000_000, 0) == Some(1_000_000_000)
  {
  }

  /** Carries that ripple across several columns, in both operand orders. */
  lemma SumCarryRipples()
    ensures Sum(999_999_999, 1) == Some(1_000_000_000)
    ensures Sum(1, 999_999_999) == Some(1_000_000_000)
    ensures Sum(99, 10) == Some(109) && Sum(10, 99) == Some(109)
    ensures Sum(1001, 110) == Some(1111)
    ensures Sum(1001, 1000) == Some(2001)
    ensures Sum(1001, 999) == Some(2000)
  {
  }

  /** The digit-string path of `Sum<99, 10>`, column by column. */
  lemma ColumnSumExample()
    ensures ColumnSum("99", "10") == "109"
  {
    ReversedOperands();
    assert WithTrailingZeroes("99", "01") == ("99", "01");
    ColumnsOfExample();
    ReversedResult();
  }

  /** Both operands of the example, least significant digit first. */
  lemma ReversedOperands()
    ensures Strings.Reversed("99") == "99" && Strings.Reversed("10") == "01"
  {
    assert "10"[1..] == "0";
    assert "99"[1..] == "9";
  }

  /** The two columns of the example: 9+0 gives 9, then 9+1 gives 0 carry 1. */
  lemma ColumnsOfExample()
    ensures SumImpl("99", "01", 0) == "901"
  {
    assert "99"[1..] == "9" && "01"[1..] == "1";
    assert "9"[1..] == "" && "1"[1..] == "";
    assert DigitSumWithCarry(9, 0, 0) == CarryDigit(0, 9);
    assert DigitSumWithCarry(9, 1, 0) == CarryDigit(1, 0);
    assert SumImpl("", "", 1) == "1";
    assert SumImpl("9", "1", 0) == "01";
  }

  /** The example's result read back most significant digit first. */
  lemma ReversedResult()
    ensures Strings.Reversed("901") == "109"
  {
    assert "901"[1..] == "01" && "01"[1..] == "1";
  }
}
