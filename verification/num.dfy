/** Unary natural numbers of src/num.ts: a number N is a tuple of N zeros. */
module Num {

  /** The only element type a `Nat` tuple may hold: the literal 0. */
  type Zero = z: int | z == 0

  /** A natural number in unary, as a sequence of zeros. */
  type Nat = seq<Zero>

  /** The reference unary form of `n`: `n` zeros. */
  function Zeros(n: nat): (r: Nat)
    ensures |r| == n
  {
    seq(n, _ => 0)
  }

  /** Appends zeros to the accumulator `c` until it has length `n`. */
  function ToNatImpl(n: nat, c: Nat): (r: Nat)
    requires |c| <= n
    ensures |r| == n
    ensures r[..|c|] == c
    decreases n - |c|
  {
    if |c| == n then c else ToNatImpl(n, c + [0])
  }

  /** The unary form of `n`, grown from the empty tuple. */
  function ToNat(n: nat): (r: Nat)
    ensures |r| == n
  {
    ToNatImpl(n, [])
  }

  /** The accumulator is followed by exactly the missing zeros. */
  lemma {:induction false} ToNatImplAppendsZeros(n: nat, c: Nat)
    requires |c| <= n
    ensures ToNatImpl(n, c) == c + Zeros(n - |c|)
    decreases n - |c|
  {
    if |c| < n {
      ToNatImplAppendsZeros(n, c + [0]);
      assert (c + [0]) + Zeros(n - |c| - 1) == c + Zeros(n - |c|);
    }
  }

  /** `ToNat` agrees with the reference unary form. */
  lemma ToNatIsZeros(n: nat)
    ensures ToNat(n) == Zeros(n)
  {
    ToNatImplAppendsZeros(n, []);
  }

  /** Zero is the empty tuple. */
  lemma ToNatZero()
    ensures ToNat(0) == []
  {
  }

  /** The successor of `n` is `n` with one more zero. */
  lemma ToNatSucc(n: nat)
    ensures ToNat(n + 1) == ToNat(n) + [0]
  {
    ToNatIsZeros(n);
    ToNatIsZeros(n + 1);
    assert Zeros(n + 1) == Zeros(n) + [0];
  }
}
