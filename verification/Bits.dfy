/**
 C's unsigned arithmetic on natural numbers. Shifts, masks and remainders are defined by
 recursion, bit by bit or subtraction by subtraction, so that proofs about them stay linear;
 ShrIsDiv, LowIsRem and QuotRemAre say that they are division and remainder.
 */
module Bits {
  const U32: nat := 0x1_0000_0000

  function Pow2(k: nat): (p: nat)
    ensures p > 0
  {
    if k == 0 then 1 else 2 * Pow2(k - 1)
  }

  function Bit(b: bool): nat {
    if b then 1 else 0
  }

  function And(x: nat, y: nat): nat {
    if x == 0 || y == 0 then 0 else 2 * And(x / 2, y / 2) + Bit(x % 2 == 1 && y % 2 == 1)
  }

  function Or(x: nat, y: nat): nat {
    if x == 0 then y else if y == 0 then x else 2 * Or(x / 2, y / 2) + Bit(x % 2 == 1 || y % 2 == 1)
  }

  function Shl(x: nat, k: nat): nat {
    if k == 0 then x else 2 * Shl(x, k - 1)
  }

  function Shr(x: nat, k: nat): nat {
    if k == 0 then x else Shr(x / 2, k - 1)
  }

  /** The k low bits. */
  function Low(x: nat, k: nat): nat {
    if k == 0 then 0 else 2 * Low(x / 2, k - 1) + x % 2
  }

  /** Unsigned division and remainder. */
  function Quot(x: nat, m: nat): nat
    requires m > 0
  {
    if x < m then 0 else 1 + Quot(x - m, m)
  }

  function Rem(x: nat, m: nat): (r: nat)
    requires m > 0
    ensures r < m && r <= x
  {
    if x < m then x else Rem(x - m, m)
  }

  /** The value a 32-bit unsigned integer keeps of a result. */
  function Wrap(x: int): (w: nat)
    ensures w < U32
    ensures 0 <= x < U32 ==> w == x
    decreases if x < 0 then U32 - x else x
  {
    if x < 0 then Wrap(x + U32) else if x >= U32 then Wrap(x - U32) else x
  }

  // ----- these are division and remainder -----

  lemma {:induction false} QuotRemJoin(x: nat, m: nat)
    requires m > 0
    ensures x == Quot(x, m) * m + Rem(x, m)
  {
    if x >= m {
      QuotRemJoin(x - m, m);
      var q := Quot(x - m, m);
      assert (1 + q) * m == m + q * m;
    }
  }

  lemma MultipleIsFar(d: int, m: int)
    requires m > 0
    ensures d >= 1 ==> d * m >= m
    ensures d <= -1 ==> d * m <= -m
  {
    if d >= 1 {
      assert d * m == m + (d - 1) * m;
    } else if d <= -1 {
      assert d * m == -m + (d + 1) * m;
    }
  }

  lemma QuotRemAre(x: nat, m: nat)
    requires m > 0
    ensures Quot(x, m) == x / m && Rem(x, m) == x % m
  {
    QuotRemJoin(x, m);
    var d := x / m - Quot(x, m);
    assert x == (x / m) * m + x % m;
    assert d * m == (x / m) * m - Quot(x, m) * m;
    MultipleIsFar(d, m);
  }

  lemma {:induction false} LowIsRem(x: nat, k: nat)
    ensures Low(x, k) == Rem(x, Pow2(k)) && Shr(x, k) == Quot(x, Pow2(k))
  {
    if k > 0 {
      LowIsRem(x / 2, k - 1);
      HalveRem(x, Pow2(k - 1));
    } else {
      QuotOne(x);
    }
  }

  lemma {:induction false} QuotOne(x: nat)
    ensures Quot(x, 1) == x && Rem(x, 1) == 0
  {
    if x > 0 {
      QuotOne(x - 1);
    }
  }

  lemma {:induction false} HalveRem(x: nat, m: nat)
    requires m > 0
    ensures Rem(x, 2 * m) == 2 * Rem(x / 2, m) + x % 2
    ensures Quot(x, 2 * m) == Quot(x / 2, m)
  {
    if x >= 2 * m {
      HalveRem(x - 2 * m, m);
      assert (x - 2 * m) / 2 == x / 2 - m;
    }
  }

  lemma ShrIsDiv(x: nat, k: nat)
    ensures Shr(x, k) == x / Pow2(k) && Low(x, k) == x % Pow2(k)
  {
    LowIsRem(x, k);
    QuotRemAre(x, Pow2(k));
  }

  lemma {:induction false} WrapIsMod(x: int)
    ensures Wrap(x) == x % U32
    decreases if x < 0 then U32 - x else x
  {
    if x < 0 {
      WrapIsMod(x + U32);
      ModShift(x);
    } else if x >= U32 {
      WrapIsMod(x - U32);
      ModShift(x - U32);
    }
  }

  lemma ModShift(x: int)
    ensures (x + U32) % U32 == x % U32
  {
  }

  // ----- multiples -----

  lemma {:induction false} RemShift(x: nat, d: nat, m: nat)
    requires m > 0 && Rem(x, m) + d < m
    ensures Rem(x + d, m) == Rem(x, m) + d && Quot(x + d, m) == Quot(x, m)
  {
    if x >= m {
      RemShift(x - m, d, m);
    }
  }

  lemma {:induction false} RemComplete(x: nat, m: nat)
    requires m > 0
    ensures Rem(x + m - Rem(x, m), m) == 0 && Quot(x + m - Rem(x, m), m) == Quot(x, m) + 1
    ensures Rem(x - Rem(x, m), m) == 0 && Quot(x - Rem(x, m), m) == Quot(x, m)
  {
    if x >= m {
      RemComplete(x - m, m);
    }
  }

  lemma {:induction false} SumOfMultiples(a: nat, b: nat, m: nat)
    requires m > 0 && Rem(a, m) == 0
    ensures Rem(a + b, m) == Rem(b, m) && Quot(a + b, m) == Quot(a, m) + Quot(b, m)
  {
    if a >= m {
      SumOfMultiples(a - m, b, m);
    }
  }

  lemma {:induction false} MultiplesApart(a: nat, b: nat, m: nat)
    requires m > 0 && a < b && Rem(a, m) == 0 && Rem(b, m) == 0
    ensures a + m <= b
  {
    if a >= m {
      MultiplesApart(a - m, b - m, m);
    }
  }

  lemma {:induction false} RemPred(x: nat, m: nat)
    requires m > 0 && x > 0
    ensures Rem(x - 1, m) == if Rem(x, m) == 0 then m - 1 else Rem(x, m) - 1
  {
    if x > m {
      RemPred(x - m, m);
    }
  }

  lemma {:induction false} QuotMonotone(a: nat, b: nat, m: nat)
    requires m > 0 && a <= b
    ensures Quot(a, m) <= Quot(b, m)
  {
    if a >= m {
      QuotMonotone(a - m, b - m, m);
    }
  }

  // ----- powers of two -----

  lemma {:induction false} Pow2Monotone(a: nat, b: nat)
    requires a <= b
    ensures Pow2(a) <= Pow2(b)
  {
    if a < b {
      Pow2Monotone(a, b - 1);
    }
  }

  lemma {:induction false} Pow2Add(a: nat, b: nat)
    ensures Pow2(a + b) == Shl(Pow2(a), b)
  {
    if b > 0 {
      Pow2Add(a, b - 1);
    }
  }

  lemma Pow2Is32()
    ensures Pow2(32) == U32
  {
    assert Pow2(8) == 256;
    assert Pow2(16) == 256 * Pow2(8);
    assert Pow2(24) == 256 * Pow2(16);
    assert Pow2(32) == 256 * Pow2(24);
  }

  lemma {:induction false} LowBounds(x: nat, k: nat)
    ensures Low(x, k) < Pow2(k) && Low(x, k) <= x
    ensures x < Pow2(k) ==> Low(x, k) == x
  {
    if k > 0 {
      LowBounds(x / 2, k - 1);
    }
  }

  lemma {:induction false} Pow2RemZero(n: nat, k: nat)
    requires k <= n
    ensures Low(Pow2(n), k) == 0
  {
    if k > 0 {
      assert Pow2(n) / 2 == Pow2(n - 1);
      Pow2RemZero(n - 1, k - 1);
    }
  }

  /** is_power_of_2 */
  predicate IsPowerOf2(n: nat) {
    n != 0 && And(n, n - 1) == 0
  }

  lemma {:induction false} AndSelf(x: nat)
    ensures And(x, x) == x
  {
    if x > 0 {
      AndSelf(x / 2);
    }
  }

  function Log2(n: nat): nat
    requires n > 0
  {
    if n == 1 then 0 else 1 + Log2(n / 2)
  }

  /** The bit trick recognises exactly the powers of two. */
  lemma {:induction false} IsPowerOf2Iff(n: nat)
    requires n > 0
    ensures IsPowerOf2(n) <==> n == Pow2(Log2(n))
  {
    if n > 1 {
      var h := n / 2;
      assert Pow2(Log2(n)) == 2 * Pow2(Log2(h));
      if n % 2 == 1 {
        assert (n - 1) / 2 == h && (n - 1) % 2 == 0;
        AndSelf(h);
      } else {
        IsPowerOf2Iff(h);
        assert (n - 1) / 2 == h - 1 && (n - 1) % 2 == 1;
      }
    }
  }

  // ----- masks and fields -----

  /** Masking with k ones keeps the k low bits. */
  lemma {:induction false} AndMask(x: nat, k: nat)
    ensures And(x, Pow2(k) - 1) == Low(x, k)
  {
    if x == 0 {
      LowBounds(0, k);
    } else if k > 0 {
      AndMask(x / 2, k - 1);
      var mask := Pow2(k) - 1;
      assert mask / 2 == Pow2(k - 1) - 1 && mask % 2 == 1;
    }
  }

  /** The n-bit number with zeros in its k low bits: the complement of 2^k - 1. */
  function HighMask(n: nat, k: nat): nat
    requires k <= n
  {
    Pow2Monotone(k, n);
    Pow2(n) - Pow2(k)
  }

  /** Masking with n - k ones above k zeros clears the k low bits. */
  lemma {:induction false} AndHighMask(x: nat, n: nat, k: nat)
    requires k <= n && x < Pow2(n)
    ensures And(x, HighMask(n, k)) == x - Low(x, k)
  {
    if k == 0 {
      AndMask(x, n);
      LowBounds(x, n);
    } else if x == 0 {
      LowBounds(0, k);
    } else {
      AndHighMask(x / 2, n - 1, k - 1);
      Pow2Monotone(k, n);
      Pow2Monotone(k - 1, n - 1);
      var mask := HighMask(n, k);
      assert mask / 2 == HighMask(n - 1, k - 1) && mask % 2 == 0;
    }
  }

  /** Filling in k ones from below. */
  lemma {:induction false} OrMask(x: nat, k: nat)
    ensures Or(x, Pow2(k) - 1) == x - Low(x, k) + Pow2(k) - 1
  {
    if x == 0 {
      LowBounds(0, k);
    } else if k > 0 {
      OrMask(x / 2, k - 1);
      var mask := Pow2(k) - 1;
      assert mask / 2 == Pow2(k - 1) - 1 && mask % 2 == 1;
    }
  }

  /** Or-ing a field into zeros adds it. */
  lemma {:induction false} OrIsSum(high: nat, low: nat, k: nat)
    requires low < Pow2(k)
    ensures Or(Shl(high, k), low) == Shl(high, k) + low
  {
    if k > 0 && low > 0 {
      OrIsSum(high, low / 2, k - 1);
      var x := Shl(high, k);
      assert x / 2 == Shl(high, k - 1) && x % 2 == 0;
    }
  }

  /** A number is its high bits above its low bits. */
  lemma {:induction false} SplitAt(x: nat, k: nat)
    ensures x == Shl(Shr(x, k), k) + Low(x, k)
  {
    if k > 0 {
      SplitAt(x / 2, k - 1);
    }
  }

  /** Putting two parts together and taking them apart again. */
  lemma {:induction false} JoinSplits(high: nat, low: nat, k: nat)
    requires low < Pow2(k)
    ensures Shr(Shl(high, k) + low, k) == high && Low(Shl(high, k) + low, k) == low
  {
    if k > 0 {
      var x := Shl(high, k) + low;
      assert x / 2 == Shl(high, k - 1) + low / 2 && x % 2 == low % 2;
      JoinSplits(high, low / 2, k - 1);
    }
  }

  lemma {:induction false} ShlBound(x: nat, n: nat, k: nat)
    requires x < Pow2(n)
    ensures Shl(x, k) <= Pow2(n + k) - Pow2(k)
  {
    if k > 0 {
      ShlBound(x, n, k - 1);
    }
  }

  lemma {:induction false} ShlAdd(x: nat, y: nat, k: nat)
    ensures Shl(x + y, k) == Shl(x, k) + Shl(y, k)
  {
    if k > 0 {
      ShlAdd(x, y, k - 1);
    }
  }

  lemma {:induction false} ShlShl(x: nat, a: nat, b: nat)
    ensures Shl(Shl(x, a), b) == Shl(x, a + b)
  {
    if b > 0 {
      ShlShl(x, a, b - 1);
    }
  }

  lemma {:induction false} ShrShr(x: nat, a: nat, b: nat)
    ensures Shr(Shr(x, a), b) == Shr(x, a + b)
  {
    if a > 0 {
      ShrShr(x / 2, a - 1, b);
    }
  }
}
