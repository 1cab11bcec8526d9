/** Shifts and bitwise operators of unsigned words, on natural numbers. */
module Bits {
  const TWO_TO_64: nat := 0x1_0000_0000_0000_0000

  function Xor(a: nat, b: nat): nat
    decreases a + b
  {
    if a == 0 && b == 0 then 0 else 2 * Xor(a / 2, b / 2) + (a + b) % 2
  }

  function ShiftRight(a: nat, k: nat): nat {
    if k == 0 then a else ShiftRight(a / 2, k - 1)
  }

  ghost function Pow2(k: nat): nat {
    if k == 0 then 1 else 2 * Pow2(k - 1)
  }

  lemma {:induction false} XorBelow(a: nat, b: nat, k: nat)
    requires a < Pow2(k) && b < Pow2(k)
    ensures Xor(a, b) < Pow2(k)
    decreases k
  {
    if k > 0 {
      XorBelow(a / 2, b / 2, k - 1);
    }
  }

  lemma XorStep(a: nat, b: nat)
    ensures Xor(a, b) / 2 == Xor(a / 2, b / 2) && Xor(a, b) % 2 == (a + b) % 2
  {
  }

  lemma SameHalves(a: nat, b: nat)
    requires a / 2 == b / 2 && a % 2 == b % 2
    ensures a == b
  {
  }

  lemma Parity(a: nat, b: nat, x: nat, r: nat)
    requires x % 2 == (a + b) % 2 && r % 2 == (x + b) % 2
    ensures r % 2 == a % 2
  {
  }

  lemma {:induction false} XorTwice(a: nat, b: nat)
    ensures Xor(Xor(a, b), b) == a
    decreases a + b
  {
    if a > 0 || b > 0 {
      var x := Xor(a, b);
      XorStep(a, b);
      XorStep(x, b);
      XorTwice(a / 2, b / 2);
      Parity(a, b, x, Xor(x, b));
      SameHalves(Xor(x, b), a);
    }
  }

  lemma {:induction false} XorZero(a: nat)
    ensures Xor(a, 0) == a
  {
    if a > 0 {
      XorZero(a / 2);
    }
  }

  lemma {:induction false} ShiftXor(a: nat, b: nat, k: nat)
    ensures ShiftRight(Xor(a, b), k) == Xor(ShiftRight(a, k), ShiftRight(b, k))
    decreases k
  {
    if k > 0 {
      XorStep(a, b);
      ShiftXor(a / 2, b / 2, k - 1);
    }
  }

  /** Bit k of the result is one exactly when the two bits differ. */
  lemma XorBits(a: nat, b: nat, k: nat)
    ensures ShiftRight(Xor(a, b), k) % 2 == 1 <==> ShiftRight(a, k) % 2 != ShiftRight(b, k) % 2
  {
    ShiftXor(a, b, k);
    XorStep(ShiftRight(a, k), ShiftRight(b, k));
  }

  lemma {:induction false} ShiftBelow(a: nat, k: nat, j: nat)
    requires a < Pow2(k + j)
    ensures ShiftRight(a, k) < Pow2(j)
    decreases k
  {
    if k > 0 {
      ShiftBelow(a / 2, k - 1, j);
    }
  }

  lemma {:induction false} Pow2Monotone(i: nat, j: nat)
    requires i <= j
    ensures 0 < Pow2(i) <= Pow2(j)
  {
    if i < j {
      Pow2Monotone(i, j - 1);
    } else if i > 0 {
      Pow2Monotone(i - 1, i - 1);
    }
  }

  lemma {:induction false} Pow2Add(i: nat, j: nat)
    ensures Pow2(i + j) == Pow2(i) * Pow2(j)
  {
    if i > 0 {
      Pow2Add(i - 1, j);
    }
  }

  lemma SixtyFourBits()
    ensures Pow2(64) == TWO_TO_64
  {
    assert Pow2(8) == 256;
    Pow2Add(8, 8);
    Pow2Add(16, 16);
    Pow2Add(32, 32);
  }

  lemma {:induction false} ShiftSmaller(a: nat, k: nat)
    ensures ShiftRight(a, k) <= a
    decreases k
  {
    if k > 0 {
      ShiftSmaller(a / 2, k - 1);
    }
  }

  lemma {:induction false} XorCommutes(a: nat, b: nat)
    ensures Xor(a, b) == Xor(b, a)
    decreases a + b
  {
    if a > 0 || b > 0 {
      XorCommutes(a / 2, b / 2);
    }
  }

  /** Shifting to the right divides by a power of two, rounding down. */
  lemma {:induction false} ShiftIsDivision(a: nat, k: nat)
    ensures Pow2(k) * ShiftRight(a, k) <= a < Pow2(k) * (ShiftRight(a, k) + 1)
  {
    if k > 0 {
      ShiftIsDivision(a / 2, k - 1);
      Doubled(a, Pow2(k - 1), ShiftRight(a / 2, k - 1), Pow2(k));
    }
  }

  lemma Doubled(a: nat, p: nat, s: nat, q: nat)
    requires p * s <= a / 2 < p * (s + 1) && q == 2 * p
    ensures q * s <= a < q * (s + 1)
  {
    assert q * s == 2 * (p * s);
    assert q * (s + 1) == 2 * (p * (s + 1));
  }

  // ---- Single bits ----

  predicate Bit(a: nat, k: nat) {
    ShiftRight(a, k) % 2 == 1
  }

  lemma {:induction false} ShiftOnce(a: nat, k: nat)
    ensures ShiftRight(a, k + 1) == ShiftRight(a, k) / 2
  {
    if k > 0 {
      ShiftOnce(a / 2, k - 1);
    }
  }

  lemma {:induction false} ShiftTwice(a: nat, i: nat, j: nat)
    ensures ShiftRight(ShiftRight(a, i), j) == ShiftRight(a, i + j)
  {
    if i > 0 {
      ShiftTwice(a / 2, i - 1, j);
    }
  }

  lemma {:induction false} NoBitAbove(a: nat, width: nat, k: nat)
    requires a < Pow2(width) <= Pow2(k)
    ensures ShiftRight(a, k) == 0 && !Bit(a, k)
  {
    ShiftBelow(a, k, 0);
  }

  lemma {:induction false} ZeroHasNoBit(k: nat)
    ensures !Bit(0, k)
  {
    ShiftSmaller(0, k);
  }

  function Or(a: nat, b: nat): nat
    decreases a + b
  {
    if a == 0 && b == 0 then 0 else 2 * Or(a / 2, b / 2) + if a % 2 == 1 || b % 2 == 1 then 1 else 0
  }

  lemma OrStep(a: nat, b: nat)
    ensures Or(a, b) / 2 == Or(a / 2, b / 2)
    ensures Or(a, b) % 2 == 1 <==> a % 2 == 1 || b % 2 == 1
  {
  }

  lemma {:induction false} ShiftOr(a: nat, b: nat, k: nat)
    ensures ShiftRight(Or(a, b), k) == Or(ShiftRight(a, k), ShiftRight(b, k))
    decreases k
  {
    if k > 0 {
      OrStep(a, b);
      ShiftOr(a / 2, b / 2, k - 1);
    }
  }

  lemma OrBits(a: nat, b: nat, k: nat)
    ensures Bit(Or(a, b), k) <==> Bit(a, k) || Bit(b, k)
  {
    ShiftOr(a, b, k);
    OrStep(ShiftRight(a, k), ShiftRight(b, k));
  }

  lemma {:induction false} OrBelow(a: nat, b: nat, k: nat)
    requires a < Pow2(k) && b < Pow2(k)
    ensures Or(a, b) < Pow2(k)
    decreases k
  {
    if k > 0 {
      OrBelow(a / 2, b / 2, k - 1);
    }
  }
}
