# typedash `Sum`: decimal-string addition

This project models the arithmetic core of typedash, a library that performs
computation on TypeScript's type level. The core is `Sum<T, U>`, which adds two
natural numbers through their decimal strings:

1. render each operand as a decimal string;
2. reverse both strings so the least significant digit comes first;
3. pad the shorter string with `'0'` characters (`WithTrailingZeroes`);
4. add column by column, threading the carry through a digit-pair table and
   a successor tuple (`SumImpl`, `DigitSumWithCarry`, `DigitSum`, `NextDigit`);
5. reverse the result back and read it as a number.

The helper `Reversed` (string reversal) and the unary naturals of `num.ts`
(`Nat`, `ToNatImpl`, `ToNat`) are modelled as well.

`Strings`, `Num` and `Math` correspond to src/string.ts, src/num.ts and
src/math.ts. `Digits` holds the `Digit` type and `NextDigit` tuple of
src/math.ts:4-5, split out so that `DecimalValue` can use them too; it also
holds the digit-only property of `Reversed`. `DecimalValue` and `Wrappers` are
helpers with no source file of their own: they give digit strings a numeric
meaning and provide `Option`.

- `Strings` (strings.dfy): `Reversed`, as a generic sequence function.
- `Num` (num.dfy): `Nat` is a sequence of the literal `0`, and `ToNat` builds it.
- `Digits` (digits.dfy): the `Digit` and carry (`Bit`) types, the `NextDigit`
  tuple, and the characters that spell digits.
- `DecimalValue` (decimal_value.dfy): what a digit string is worth. It gives
  the little-endian value `LeValue` and the big-endian value `BeValue`.
  `DecimalString` models the template rendering `${T}`. `ParseNat` models the
  re-parse `extends ${infer Res extends number}`. It reads a canonical literal
  (the number's own rendering) as exactly that number, and gives `None` for
  every other string.
- `Math` (math.dfy): the digit-pair table, the carry step, padding, the carry
  chain, and `Sum`. `Sum` returns `Option<nat>`, where `None` stands for `never`.
- `MathTests` (math_tests.dfy): the `_test` tuple of math.ts as lemmas.
- `Wrappers` (wrappers.dfy): the `Option` type.

Type-level strings are `seq<char>`. `infer D extends Digit` on a character is
`DigitOf`, and rendering a digit with `${D}` is `DigitChar`. `SumImpl` has no
precondition. As in the source, it stops at the first column where either
string has ended or holds a non-digit. Its value contract applies to
equal-length digit strings, which is the only way `Sum` calls it.

The carry of a table entry has type `Bit` (0 or 1). So the table literal is
checked to hold only carries 0 and 1. The same type forces the proof that
`NextDigit[C]` in the `V extends 9` branch of `DigitSumWithCarry` is a valid
carry.

## Model

| member | source | states |
|---|---|---|
| `Digits.NextDigit` | src/math.ts:4 | the successor tuple maps each digit d to (d+1) mod 10 |
| `Digits.DigitChar` | src/math.ts:79-81 | rendering a digit gives a digit character, and reading that character gives the digit back |
| `Digits.DigitCharOf` | src/math.ts:79-81 | reading a digit character and rendering it again gives the same character |
| `Digits.ReversedAllDigits` | src/string.ts:1-4 | a string is digit-only exactly when its reversal is, which `Sum` relies on before `SumImpl` |
| `Strings.Reversed` | src/string.ts:1-4 | the reversal has the input's length, and character i is input character len(s)-1-i |
| `Strings.ReversedEmpty` | src/string.ts:2-4 | the reversal of the empty string is empty |
| `Strings.ReversedInvolution` | src/string.ts:1-4 | reversing twice returns the input |
| `Strings.ReversedConcat` | src/string.ts:2-3 | the reversal of a ++ b is reversal(b) ++ reversal(a) |
| `Strings.ReversedElements` | src/string.ts:1-4 | reversal keeps exactly the input's elements |
| `Num.ToNatImpl` | src/num.ts:9-11 | from an accumulator no longer than N, the result has length N and starts with the accumulator |
| `Num.ToNatImplAppendsZeros` | src/num.ts:9-11 | the result is the accumulator followed by exactly N-len(C) zeros |
| `Num.ToNat` | src/num.ts:13 | `ToNat<N>` has length N; its elements are 0 by the type `Nat` |
| `Num.ToNatIsZeros` | src/num.ts:9-13 | `ToNat<N>` equals the reference tuple of N zeros |
| `Num.ToNatZero` | src/num.ts:9-13 | `ToNat<0>` is the empty tuple |
| `Num.ToNatSucc` | src/num.ts:11 | `ToNat<N+1>` is `ToNat<N>` with one more 0 appended |
| `Math.DigitSum` | src/math.ts:6-57 | every table entry [c, v] for digits t, u has t+u = 10c+v with c in {0,1} and v a digit |
| `Math.DigitSumSymmetric` | src/math.ts:6-57 | the table gives the same entry for t,u as for u,t |
| `Math.DigitSumIsDivMod` | src/math.ts:6-57 | each table entry is the quotient and remainder of t+u by ten |
| `Math.DigitSumNineHasNoCarry` | src/math.ts:59-65 | an entry with digit 9 has carry 0, so the `V extends 9` branch yields carry 1 |
| `Math.DigitSumWithCarry` | src/math.ts:59-65 | the carry step's [c, v] satisfies t+u+carry = 10c+v with c in {0,1} |
| `Math.DigitSumWithCarryIsDivMod` | src/math.ts:59-65 | the carry step is the quotient and remainder of t+u+carry by ten |
| `Math.WithTrailingZeroes` | src/math.ts:67-76 | both outputs have length max(len(T), len(U)), each starts with its input, every added character is '0', and equal-length inputs come back unchanged |
| `Math.WithTrailingZeroesIsPadding` | src/math.ts:67-76 | the outputs equal the reference padding of each input with '0's to the longer length |
| `Math.WithTrailingZeroesPreservesValue` | src/math.ts:67-76 | padding keeps digit strings digit-only and keeps their least-significant-first values |
| `Math.SumImpl` | src/math.ts:78-83 | the output is digit-only, and for equal-length digit strings its least-significant-first value is value(T)+value(U)+Carry |
| `Math.SumImplLength` | src/math.ts:78-83 | for equal-length digit strings the output has length len(T), or len(T)+1 ending in '1' exactly when the total reaches 10^len(T) |
| `Math.ColumnSumValue` | src/math.ts:91-92 | reversing, padding, adding and reversing back gives a string worth the sum of the operands' values |
| `Math.SumImplNoLeadingZero` | src/math.ts:78-83 | when the operands need all len(T) columns, the most significant output digit is not '0' |
| `Math.ColumnSumCanonical` | src/math.ts:91-92 | for canonical operands that string has no leading zero (apart from "0"), so the parse never yields `never` |
| `Math.Sum` | src/math.ts:85-95 | `Sum<T, U>` is T+U for all natural numbers T and U, never `never` |
| `DecimalValue.DecimalString` | src/math.ts:91 | the rendering of n is a canonical literal whose value is n |
| `DecimalValue.ParseNatIffDecimalString` | src/math.ts:92 | parsing a string yields n exactly when the string is the rendering of n |
| `DecimalValue.CanonicalIsDecimalString` | src/math.ts:92 | a canonical literal is the rendering of its own value |
| `DecimalValue.BeValueIsReversedLe` | src/math.ts:91-92 | the value of a string read most-significant first is the value of its reversal read least-significant first |
| `MathTests.SumCommutative` | src/math.ts:100-109 | `Sum<T, U>` = `Sum<U, T>` |
| `MathTests.SumZeroIdentity` | src/math.ts:99-105 | `Sum<T, 0>` = `Sum<0, T>` = T |
| `MathTests.SumSmallCases` | src/math.ts:99-105 | the listed cases `Sum<0,0>`=0, `Sum<1,0>`=`Sum<0,1>`=1, `Sum<5,4>`=`Sum<4,5>`=9, and 1_000_000_000 plus 0 in both orders |
| `MathTests.SumCarryRipples` | src/math.ts:106-112 | `Sum<999_999_999,1>`=1_000_000_000 (both orders), `Sum<99,10>`=109 (both orders), `Sum<1001,110>`=1111, `Sum<1001,1000>`=2001, `Sum<1001,999>`=2000 |
| `MathTests.ColumnSumExample` | src/math.ts:108 | the string path of `Sum<99, 10>` (reverse, pad, add columns, reverse back) turns "99" and "10" into "109" |

## Left out

- src/test.ts: `Eq`, `EqInternal`, `EqStructural` and `Expect` depend on the TypeScript checker's treatment of `any` and of mapped and intersection types. The `Expect<Eq<…>>` tuple is replaced by the lemmas in `MathTests`.
- Number rendering: TypeScript's `${T}` on a `number` can produce exponent notation, a sign or a fraction. The operands are modelled as `nat` with their plain decimal digits. Negative, fractional and very large floating-point operands are not modelled.
- `Math.Sum`: the parse at src/math.ts:92 is modelled as exact for every canonical literal. TypeScript widens a string that does not round-trip through a double to `number` instead of a literal: one with leading zeros, a sum above 2^53 that is not exactly representable, or a sum of 1e21 or more. The model returns `Some(t + u)` in those cases, and gives `None` for a leading zero.
- `DecimalValue.ParseNat` treats every non-digit string as not a natural number. TypeScript could read some of them, such as "-1", as other numbers. This never arises, because `SumImpl` only ever produces digits.
- Compiler recursion depth and tuple-size limits (src/num.ts:3-5): sequences are unbounded.
- The complexity claim at src/math.ts:86-88 is not a functional property.
- The fallback `''` of `SumImpl` (src/math.ts:82) and `never` of `DigitSumWithCarry` (src/math.ts:65) are unreachable. The carry is typed `Bit`, and every table entry is a digit pair, so these branches are not written out.
- `Math.SumImpl`: on strings of unequal length, or with a non-digit, the model stops where the source stops. No value is stated for that output, because the source promises none.
- `Num.ToNatImpl`: when the accumulator is longer than N, or N is not a natural number, the source recurses until the compiler gives up. The model requires len(C) ≤ N instead.
- Subtraction, multiplication, signed numbers and fractional parts do not appear in the modelled source files.
