/**
 * Unsigned 32-bit words as bounded naturals, with the two bit operations the
 * answer mask needs: `1 << i` (Pow2) and `|` (Or).
 */
module Bits {

  const WordBits: nat := 32

  /** Rust's `u32`. */
  type u32 = x: nat | x < 0x1_0000_0000

  function Pow2(k: nat): (r: nat)
    ensures r >= 1
  {
    if k == 0 then 1 else 2 * Pow2(k - 1)
  }

  /** Bit k of x: the remainder by 2 after k halvings. */
  predicate Bit(x: nat, k: nat) {
    if k == 0 then x % 2 == 1 else Bit(x / 2, k - 1)
  }

  /** Bitwise or of two naturals, bit by bit from the least significant end. */
  function Or(a: nat, b: nat): (r: nat)
    decreases a + b
  {
    if a == 0 then b
    else if b == 0 then a
    else 2 * Or(a / 2, b / 2) + (if a % 2 == 1 || b % 2 == 1 then 1 else 0)
  }

  lemma {:induction false} ZeroHasNoBits(k: nat)
    ensures !Bit(0, k)
  {
    if k > 0 {
      ZeroHasNoBits(k - 1);
    }
  }

  /** The bits of `a | b` are the disjunction of the bits of a and b. */
  lemma {:induction false} OrBits(a: nat, b: nat, k: nat)
    ensures Bit(Or(a, b), k) == (Bit(a, k) || Bit(b, k))
    decreases a + b, k
  {
    if a == 0 || b == 0 {
      ZeroHasNoBits(k);
    } else {
      var low := if a % 2 == 1 || b % 2 == 1 then 1 else 0;
      var high := Or(a / 2, b / 2);
      assert Or(a, b) == 2 * high + low;
      if k == 0 {
        assert (2 * high + low) % 2 == low;
      } else {
        assert (2 * high + low) / 2 == high;
        OrBits(a / 2, b / 2, k - 1);
      }
    }
  }

  /** `1 << i` has exactly bit i set. */
  lemma {:induction false} Pow2Bits(i: nat, k: nat)
    ensures Bit(Pow2(i), k) == (k == i)
  {
    if i == 0 {
      if k > 0 {
        ZeroHasNoBits(k - 1);
      }
    } else if k > 0 {
      assert Pow2(i) / 2 == Pow2(i - 1);
      Pow2Bits(i - 1, k - 1);
    }
  }

  lemma {:induction false} Pow2Monotone(m: nat, k: nat)
    requires m <= k
    ensures Pow2(m) <= Pow2(k)
    decreases k
  {
    if m < k {
      Pow2Monotone(m, k - 1);
    }
  }

  lemma {:induction false} Pow2Add(a: nat, b: nat)
    ensures Pow2(a + b) == Pow2(a) * Pow2(b)
  {
    if a > 0 {
      Pow2Add(a - 1, b);
      assert Pow2(a + b) == 2 * Pow2(a - 1 + b);
    }
  }

  /** 2^32, built up by doubling the exponent. */
  lemma Pow2Word()
    ensures Pow2(WordBits) == 0x1_0000_0000
  {
    assert Pow2(4) == 16;
    Pow2Add(4, 4);
    assert Pow2(8) == 0x100;
    Pow2Add(8, 8);
    assert Pow2(16) == 0x1_0000;
    Pow2Add(16, 16);
  }

  /** Every value below 2^i for i <= 32 fits a u32. */
  lemma {:induction false} FitsWord(x: nat, i: nat)
    requires x < Pow2(i) && i <= WordBits
    ensures x < 0x1_0000_0000
  {
    Pow2Monotone(i, WordBits);
    Pow2Word();
  }

  /** Or never leaves the range [0, 2^m) of its operands. */
  lemma {:induction false} OrBelow(a: nat, b: nat, m: nat)
    requires a < Pow2(m) && b < Pow2(m)
    ensures Or(a, b) < Pow2(m)
    decreases a + b
  {
    if a != 0 && b != 0 {
      assert m > 0;
      OrBelow(a / 2, b / 2, m - 1);
    }
  }
}
