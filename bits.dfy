/**
 * Python's bitwise `&` and `>>` on non-negative integers, written arithmetically
 * (bit by bit, least significant first), and the facts the decoder needs about
 * masking single bits and nibbles.
 */
module Bits {

  /** 2 to the power k. */
  function Pow2(k: nat): (r: nat)
    ensures r >= 1
  {
    if k == 0 then 1 else 2 * Pow2(k - 1)
  }

  /** `a & b` on non-negative integers. */
  function And(a: nat, b: nat): nat
    decreases a
  {
    if a == 0 || b == 0 then 0 else 2 * And(a / 2, b / 2) + (a % 2) * (b % 2)
  }

  /** `a >> k` on a non-negative integer: k halvings. */
  function Shr(a: nat, k: nat): nat
  {
    if k == 0 then a else Shr(a / 2, k - 1)
  }

  /** `m << k` on a non-negative integer: k doublings. */
  function Shl(m: nat, k: nat): nat
  {
    if k == 0 then m else 2 * Shl(m, k - 1)
  }

  /** The n low bits of a, rebuilt bit by bit: the reference for `a & (2^n - 1)`. */
  function Low(a: nat, n: nat): nat
  {
    if n == 0 then 0 else 2 * Low(a / 2, n - 1) + a % 2
  }

  /** The n-bit field of a that starts at bit k. */
  function Field(a: nat, k: nat, n: nat): nat
  {
    Low(Shr(a, k), n)
  }

  /** Bit k of a. */
  function Bit(a: nat, k: nat): (r: nat)
    ensures r <= 1
  {
    Shr(a, k) % 2
  }

  /** A field of n bits is below 2^n. */
  lemma {:induction false} LowBound(a: nat, n: nat)
    ensures Low(a, n) < Pow2(n)
  {
    if n > 0 {
      LowBound(a / 2, n - 1);
    }
  }

  /** Splitting a value at bit n: the low part plus 2^n times the high part gives it back. */
  lemma {:induction false} LowShr(a: nat, n: nat)
    ensures Low(a, n) + Pow2(n) * Shr(a, n) == a
  {
    if n > 0 {
      LowShr(a / 2, n - 1);
      var high := Shr(a / 2, n - 1);
      assert Shr(a, n) == high;
      Double(Pow2(n - 1), high);
    }
  }

  lemma Double(p: nat, s: nat)
    ensures (2 * p) * s == 2 * (p * s)
  {
  }

  /** A value below 2^n is its own n low bits. */
  lemma {:induction false} LowOfSmall(a: nat, n: nat)
    requires a < Pow2(n)
    ensures Low(a, n) == a
  {
    if n > 0 {
      LowOfSmall(a / 2, n - 1);
    }
  }

  /** A value below 2^(n + k), shifted right by k, is below 2^n. */
  lemma {:induction false} ShrBound(a: nat, k: nat, n: nat)
    requires a < Pow2(n + k)
    ensures Shr(a, k) < Pow2(n)
  {
    if k > 0 {
      ShrBound(a / 2, k - 1, n);
    }
  }

  /** Shifting twice is shifting by the sum. */
  lemma {:induction false} ShrShr(a: nat, j: nat, k: nat)
    ensures Shr(Shr(a, j), k) == Shr(a, j + k)
  {
    if j > 0 {
      ShrShr(a / 2, j - 1, k);
    }
  }

  /** Masking with 2^n - 1 keeps the n low bits. */
  lemma {:induction false} AndLowMask(a: nat, n: nat)
    ensures And(a, Pow2(n) - 1) == Low(a, n)
  {
    if n > 0 && a > 0 {
      var mask := Pow2(n) - 1;
      assert mask == 2 * (Pow2(n - 1) - 1) + 1;
      assert mask / 2 == Pow2(n - 1) - 1 && mask % 2 == 1;
      assert And(a, mask) == 2 * And(a / 2, mask / 2) + (a % 2) * (mask % 2);
      AndLowMask(a / 2, n - 1);
    } else if n > 0 {
      assert Low(0, n) == 2 * Low(0, n - 1);
      AndLowMask(0, n - 1);
    }
  }

  /** Masking with m shifted left by k, then shifting right by k, masks the shifted value. */
  lemma {:induction false} AndShifted(a: nat, m: nat, k: nat)
    ensures Shr(And(a, Shl(m, k)), k) == And(Shr(a, k), m)
  {
    if k > 0 {
      if a == 0 || m == 0 {
        ShlZero(k);
        ShrZero(k - 1);
        ShrZero(k);
      } else {
        var half := Shl(m, k - 1);
        ShlNonzero(m, k - 1);
        assert Shl(m, k) == 2 * half && (2 * half) / 2 == half && (2 * half) % 2 == 0;
        var masked := And(a / 2, half);
        assert And(a, Shl(m, k)) == 2 * masked;
        assert Shr(2 * masked, k) == Shr(masked, k - 1);
        AndShifted(a / 2, m, k - 1);
      }
    }
  }

  lemma {:induction false} ShlZero(k: nat)
    ensures Shl(0, k) == 0
  {
    if k > 0 {
      ShlZero(k - 1);
    }
  }

  lemma {:induction false} ShlNonzero(m: nat, k: nat)
    requires m > 0
    ensures Shl(m, k) > 0
  {
    if k > 0 {
      ShlNonzero(m, k - 1);
    }
  }

  lemma {:induction false} ShrZero(k: nat)
    ensures Shr(0, k) == 0
  {
    if k > 0 {
      ShrZero(k - 1);
    }
  }

  /** `(a & ((2^n - 1) << k)) >> k` is the n-bit field of a that starts at bit k. */
  lemma MaskedField(a: nat, k: nat, n: nat)
    ensures Shr(And(a, Shl(Pow2(n) - 1, k)), k) == Field(a, k, n)
  {
    AndShifted(a, Pow2(n) - 1, k);
    AndLowMask(Shr(a, k), n);
  }

  /** `(a & (1 << k)) != 0` holds exactly when bit k of a is set. */
  lemma MaskedBit(a: nat, k: nat)
    ensures (And(a, Shl(1, k)) != 0) <==> Bit(a, k) == 1
  {
    var masked := And(a, Shl(1, k));
    var x := Shr(a, k);
    AndShifted(a, 1, k);
    assert Pow2(1) - 1 == 1;
    AndLowMask(x, 1);
    assert Low(x, 1) == x % 2;
    assert Shr(masked, k) == Bit(a, k);
    AndMultiple(a, k);
    if Bit(a, k) == 1 {
      ShlNonzero(1, k);
    } else {
      ShlZero(k);
    }
  }

  /** `a & (1 << k)` is 0 or `1 << k`: it is its own shift by k, shifted back. */
  lemma {:induction false} AndMultiple(a: nat, k: nat)
    ensures And(a, Shl(1, k)) == Shl(Shr(And(a, Shl(1, k)), k), k)
  {
    if k == 0 {
    } else if a == 0 {
      ShrZero(k);
      ShlZero(k);
    } else {
      ShlNonzero(1, k - 1);
      assert And(a, Shl(1, k)) == 2 * And(a / 2, Shl(1, k - 1));
      AndMultiple(a / 2, k - 1);
    }
  }

  /**
   * Bit k of `2^n * hi + lo`, with lo below 2^n, is bit k of lo for k < n and
   * bit k - n of hi above: a word assembled from two parts keeps both parts' bits.
   */
  lemma {:induction false} BitOfSum(hi: nat, lo: nat, n: nat, k: nat)
    requires lo < Pow2(n)
    ensures Bit(Pow2(n) * hi + lo, k) == if k < n then Bit(lo, k) else Bit(hi, k - n)
  {
    if n > 0 {
      var x := Pow2(n - 1) * hi;
      assert Pow2(n) * hi + lo == 2 * x + lo;
      if k > 0 {
        BitOfSum(hi, lo / 2, n - 1, k - 1);
        assert (2 * x + lo) / 2 == x + lo / 2;
      }
    }
  }
}
