/**
 * The bit operations the vector kernels apply to a lane mask, on unsigned
 * integers: reading bit `j`, bitwise AND (for `mask &= mask - 1`),
 * `__builtin_ctz` and `__builtin_popcount`. A mask is a `nat`; every
 * definition peels off the lowest bit with `% 2` and `/ 2`.
 */
module Bits {
  /** Bit `j` of `m`. */
  predicate Bit(m: nat, j: nat)
  {
    if j == 0 then m % 2 == 1 else Bit(m / 2, j - 1)
  }

  /** Zero has no bit set. */
  lemma {:induction false} ZeroBits(j: nat)
    ensures !Bit(0, j)
  {
    if j > 0 {
      ZeroBits(j - 1);
    }
  }

  /** The bits of `b + 2 * r` (with `b` a single bit): `b`, then the bits
      of `r` one position higher. */
  lemma {:induction false} BitCons(b: nat, r: nat, j: nat)
    requires b < 2
    ensures Bit(b + 2 * r, j) == if j == 0 then b == 1 else Bit(r, j - 1)
  {
    assert (b + 2 * r) / 2 == r;
  }

  /** Bitwise AND of two unsigned integers. */
  function And(a: nat, b: nat): (r: nat)
    ensures r <= a && r <= b
    decreases a
  {
    if a == 0 || b == 0 then 0
    else 2 * And(a / 2, b / 2) + (if a % 2 == 1 && b % 2 == 1 then 1 else 0)
  }

  /** Each bit of `And(a, b)` is set exactly when it is set in both. */
  lemma {:induction false} AndBit(a: nat, b: nat, j: nat)
    ensures Bit(And(a, b), j) == (Bit(a, j) && Bit(b, j))
    decreases j
  {
    if a == 0 || b == 0 {
      ZeroBits(j);
    } else {
      var low := if a % 2 == 1 && b % 2 == 1 then 1 else 0;
      BitCons(low, And(a / 2, b / 2), j);
      if j > 0 {
        AndBit(a / 2, b / 2, j - 1);
      }
    }
  }

  /** `__builtin_ctz`: the position of the lowest set bit of a non-zero
      mask. */
  function Ctz(m: nat): (k: nat)
    requires m > 0
    ensures Bit(m, k)
    ensures forall i :: 0 <= i < k ==> !Bit(m, i)
    decreases m
  {
    if m % 2 == 1 then 0
    else
      var k := Ctz(m / 2) + 1;
      assert forall i :: 0 < i < k ==> Bit(m, i) == Bit(m / 2, i - 1);
      k
  }

  /** The bits of `m - 1`: below the lowest set bit of `m` they are set,
      that bit is clear, and above it they are those of `m`. */
  lemma {:induction false} PredBit(m: nat, j: nat)
    requires m > 0
    ensures Bit(m - 1, j) == if j < Ctz(m) then true else if j == Ctz(m) then false else Bit(m, j)
    decreases m
  {
    var q := m / 2;
    if m % 2 == 1 {
      assert Ctz(m) == 0;
      assert m == 1 + 2 * q && m - 1 == 0 + 2 * q;
      BitCons(1, q, j);
      BitCons(0, q, j);
    } else {
      assert Ctz(m) == Ctz(q) + 1;
      assert m == 0 + 2 * q && m - 1 == 1 + 2 * (q - 1);
      BitCons(0, q, j);
      BitCons(1, q - 1, j);
      if j > 0 {
        PredBit(q, j - 1);
      }
    }
  }

  /** `m & (m - 1)` clears exactly the lowest set bit of a non-zero mask
      and keeps every other bit. */
  lemma {:induction false} ClearLowest(m: nat)
    requires m > 0
    ensures forall j :: Bit(And(m, m - 1), j) == (Bit(m, j) && j != Ctz(m))
  {
    forall j
      ensures Bit(And(m, m - 1), j) == (Bit(m, j) && j != Ctz(m))
    {
      AndBit(m, m - 1, j);
      PredBit(m, j);
    }
  }

  /** `__builtin_popcount`: the number of set bits. */
  function Popcount(m: nat): (n: nat)
    ensures n <= m
    ensures n == 0 <==> m == 0
    decreases m
  {
    if m == 0 then 0 else Popcount(m / 2) + m % 2
  }
}
