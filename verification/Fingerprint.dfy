/**
 * Concatenation of 64-bit fingerprints (platform/fingerprint.h). A `uint64` is a natural number below
 * 2 to the 64; multiplication wraps, shifts and exclusive or work bit by bit.
 */
module Fingerprint {
  import opened Bits

  type Uint64 = n: nat | n < TWO_TO_64

  const K_MUL: Uint64 := 0xc6a4a7935bd1e995

  /** The inverse of `K_MUL` modulo 2 to the 64. */
  const K_INV: Uint64 := 0x5f7a0ea7e59b19bd

  // ---- The code ----

  function Xor64(a: Uint64, b: Uint64): Uint64 {
    SixtyFourBits();
    XorBelow(a, b, 64);
    Xor(a, b)
  }

  function ShiftMix(val: Uint64): Uint64 {
    ShiftSmaller(val, 47);
    Xor64(val, ShiftRight(val, 47))
  }

  function Scale(val: Uint64): Uint64 {
    val * K_MUL % TWO_TO_64
  }

  method FingerprintCat64(fp1: Uint64, fp2: Uint64) returns (result: Uint64)
    ensures result == Cat(fp1, fp2)
  {
    result := Xor64(fp1, K_MUL);
    result := Xor64(result, Scale(ShiftMix(Scale(fp2))));
    result := Scale(result);
    result := Scale(ShiftMix(result));
    result := ShiftMix(result);
  }

  ghost function Finish(val: Uint64): Uint64 {
    ShiftMix(Scale(ShiftMix(Scale(val))))
  }

  ghost function Cat(fp1: Uint64, fp2: Uint64): Uint64 {
    Finish(Xor64(Xor64(fp1, K_MUL), Scale(ShiftMix(Scale(fp2)))))
  }

  // ---- Each step can be undone ----

  lemma Xor64Twice(a: Uint64, b: Uint64)
    ensures Xor64(Xor64(a, b), b) == a
  {
    XorTwice(a, b);
  }

  /** Bit i of the result is one exactly when bits i and i + 47 of the value differ. */
  lemma ShiftMixBits(val: Uint64, i: nat)
    ensures Bit(ShiftMix(val), i) <==> Bit(val, i) != Bit(val, i + 47)
  {
    XorBits(val, ShiftRight(val, 47), i);
    ShiftTwice(val, 47, i);
  }

  /** Mixing the high bits into the low ones, each into the one 47 below it, changes nothing if done twice. */
  lemma ShiftMixInvolution(val: Uint64)
    ensures ShiftMix(ShiftMix(val)) == val
    ensures forall i: nat :: Bit(ShiftMix(val), i) <==> Bit(val, i) != Bit(val, i + 47)
  {
    MixedTwice(val);
    forall i: nat ensures Bit(ShiftMix(val), i) <==> Bit(val, i) != Bit(val, i + 47) {
      ShiftMixBits(val, i);
    }
  }

  lemma MixedTwice(val: Uint64)
    ensures ShiftMix(ShiftMix(val)) == val
  {
    var high := ShiftRight(val, 47);
    SixtyFourBits();
    Pow2Monotone(64, 47 + 47);
    ShiftBelow(val, 47, 47);
    ShiftBelow(high, 47, 0);
    ShiftXor(val, high, 47);
    XorZero(high);
    XorTwice(val, high);
  }

  ghost function Unscale(val: Uint64): Uint64 {
    val * K_INV % TWO_TO_64
  }

  lemma WrapTwice(v: nat, k: nat, i: nat, q: nat, m: nat)
    requires m > 0 && v < m && k * i == 1 + m * q
    ensures v * k % m * i % m == v
  {
    var p := v * k;
    var r, d := p % m, p / m;
    calc {
      r * i;
      (p - d * m) * i;
      v * (k * i) - d * m * i;
      v * (1 + m * q) - d * m * i;
      v + m * (v * q - d * i);
    }
    ModuloIs(r * i, m, v * q - d * i, v);
  }

  lemma ModuloIs(a: int, m: int, q: int, r: int)
    requires a == r + m * q && 0 <= r < m
    ensures a % m == r
  {
    var d := a / m - q;
    assert a == m * (a / m) + a % m;
    assert m * d == r - a % m;
    assert d >= 1 ==> m * d >= m;
    assert d <= -1 ==> m * d <= -m;
  }

  lemma ScaleInverse(val: Uint64)
    ensures Unscale(Scale(val)) == val && Scale(Unscale(val)) == val
  {
    var q := 0x4a15d006d409ab6f;
    assert K_MUL * K_INV == 1 + TWO_TO_64 * q;
    WrapTwice(val, K_MUL, K_INV, q, TWO_TO_64);
    WrapTwice(val, K_INV, K_MUL, q, TWO_TO_64);
  }

  ghost function Unfinish(val: Uint64): Uint64 {
    Unscale(ShiftMix(Unscale(ShiftMix(val))))
  }

  lemma FinishInverse(val: Uint64)
    ensures Unfinish(Finish(val)) == val && Finish(Unfinish(val)) == val
  {
    var a := Scale(val);
    ScaleInverse(val);
    MixedTwice(a);
    ScaleInverse(ShiftMix(a));
    MixedTwice(Scale(ShiftMix(a)));
    var b := ShiftMix(val);
    MixedTwice(val);
    ScaleInverse(b);
    MixedTwice(Unscale(b));
    ScaleInverse(ShiftMix(Unscale(b)));
  }

  // ---- The fingerprint ----

  /** The first argument that gives `result` together with `fp2`. */
  ghost function First(result: Uint64, fp2: Uint64): Uint64 {
    Xor64(Xor64(Unfinish(result), Scale(ShiftMix(Scale(fp2)))), K_MUL)
  }

  /** The second argument that gives `result` together with `fp1`. */
  ghost function Second(result: Uint64, fp1: Uint64): Uint64 {
    Unscale(ShiftMix(Unscale(Xor64(Unfinish(result), Xor64(fp1, K_MUL)))))
  }

  /** With the second argument fixed, every value is the fingerprint of exactly one first argument. */
  lemma FirstArgument(fp1: Uint64, fp2: Uint64, result: Uint64)
    ensures Cat(fp1, fp2) == result <==> fp1 == First(result, fp2)
  {
    var mixed := Scale(ShiftMix(Scale(fp2)));
    FinishInverse(Xor64(Xor64(fp1, K_MUL), mixed));
    FinishInverse(result);
    Xor64Twice(Xor64(fp1, K_MUL), mixed);
    Xor64Twice(fp1, K_MUL);
    Xor64Twice(Unfinish(result), mixed);
    Xor64Twice(Xor64(Unfinish(result), mixed), K_MUL);
  }

  ghost function MixSecond(fp2: Uint64): Uint64 {
    Scale(ShiftMix(Scale(fp2)))
  }

  lemma MixSecondInverse(fp2: Uint64, mixed: Uint64)
    ensures MixSecond(fp2) == mixed <==> fp2 == Unscale(ShiftMix(Unscale(mixed)))
  {
    ScaleInverse(fp2);
    MixedTwice(Scale(fp2));
    ScaleInverse(ShiftMix(Scale(fp2)));
    ScaleInverse(mixed);
    MixedTwice(Unscale(mixed));
    ScaleInverse(ShiftMix(Unscale(mixed)));
  }

  /** With the first argument fixed, every value is the fingerprint of exactly one second argument. */
  lemma SecondArgument(fp1: Uint64, fp2: Uint64, result: Uint64)
    ensures Cat(fp1, fp2) == result <==> fp2 == Second(result, fp1)
  {
    var a, r := Xor64(fp1, K_MUL), Unfinish(result);
    FinishInverse(Xor64(a, MixSecond(fp2)));
    FinishInverse(result);
    XorCommutes(a, MixSecond(fp2));
    Xor64Twice(MixSecond(fp2), a);
    Xor64Twice(r, a);
    XorCommutes(Xor64(r, a), a);
    MixSecondInverse(fp2, Xor64(r, a));
  }

  // ---- The order of the arguments matters ----

  lemma Xor64Self(a: Uint64)
    ensures Xor64(a, a) == 0 && Xor64(0, a) == a
  {
    XorCommutes(0, a);
    XorZero(a);
    Xor64Twice(0, a);
  }

  /** Mixing leaves values below 2 to the 47 alone. */
  lemma ShiftMixSmall(val: Uint64)
    requires val < Pow2(47)
    ensures ShiftMix(val) == val
  {
    ShiftBelow(val, 47, 0);
    XorZero(val);
  }

  lemma MixOfSmall(fp2: Uint64, scaled: Uint64)
    requires Scale(fp2) == scaled && scaled < Pow2(47)
    ensures MixSecond(fp2) == Scale(scaled)
  {
    ShiftMixSmall(scaled);
  }

  lemma ScaleOfInverse()
    ensures Scale(K_INV) == 1 && Scale(1) == K_MUL && Scale(0) == 0
  {
  }

  lemma MixOfInverse()
    ensures MixSecond(0) == 0 && MixSecond(K_INV) == K_MUL
  {
    ScaleOfInverse();
    Pow2Monotone(1, 47);
    MixOfSmall(K_INV, 1);
    MixOfSmall(0, 0);
  }

  lemma FinishInjective(a: Uint64, b: Uint64)
    ensures Finish(a) == Finish(b) <==> a == b
  {
    FinishInverse(a);
    FinishInverse(b);
  }

  /** Two arguments commute exactly if what is finished is the same in both orders. */
  lemma CommutesIff(a: Uint64, b: Uint64)
    ensures Cat(a, b) == Cat(b, a) <==> Xor64(Xor64(a, K_MUL), MixSecond(b)) == Xor64(Xor64(b, K_MUL), MixSecond(a))
  {
    FinishInjective(Xor64(Xor64(a, K_MUL), MixSecond(b)), Xor64(Xor64(b, K_MUL), MixSecond(a)));
  }

  lemma XorTells(b: Uint64, k: Uint64)
    requires b != k
    ensures Xor64(Xor64(0, k), k) != Xor64(Xor64(b, k), 0)
  {
    Xor64Self(k);
    XorZero(Xor64(b, k));
    Xor64Twice(b, k);
  }

  /** The operation is not commutative. */
  lemma NotCommutative()
    ensures Cat(0, K_INV) != Cat(K_INV, 0)
  {
    MixOfInverse();
    CommutesIff(0, K_INV);
    XorTells(K_INV, K_MUL);
  }

  // ---- One value, worked out ----

  /** Exclusive or, one bit after the other from the top. */
  lemma FirstXor()
    ensures Xor(0x7e060f4d286a90b9, 0xfc0c) == 0x7e060f4d286a6cb5
  {
    XorZero(0x7e060f4d286a);
    assert Xor(0xfc0c1e9a50d5, 1) == 0xfc0c1e9a50d4;
    assert Xor(0x1f8183d34a1aa, 3) == 0x1f8183d34a1a9;
    assert Xor(0x3f0307a694354, 7) == 0x3f0307a694353;
    assert Xor(0x7e060f4d286a9, 0xf) == 0x7e060f4d286a6;
    assert Xor(0xfc0c1e9a50d52, 0x1f) == 0xfc0c1e9a50d4d;
    assert Xor(0x1f8183d34a1aa4, 0x3f) == 0x1f8183d34a1a9b;
    assert Xor(0x3f0307a6943548, 0x7e) == 0x3f0307a6943536;
    assert Xor(0x7e060f4d286a90, 0xfc) == 0x7e060f4d286a6c;
    assert Xor(0xfc0c1e9a50d521, 0x1f8) == 0xfc0c1e9a50d4d9;
    assert Xor(0x1f8183d34a1aa42, 0x3f0) == 0x1f8183d34a1a9b2;
    assert Xor(0x3f0307a69435485, 0x7e0) == 0x3f0307a69435365;
    assert Xor(0x7e060f4d286a90b, 0xfc0) == 0x7e060f4d286a6cb;
    assert Xor(0xfc0c1e9a50d5217, 0x1f81) == 0xfc0c1e9a50d4d96;
    assert Xor(0x1f8183d34a1aa42e, 0x3f03) == 0x1f8183d34a1a9b2d;
    assert Xor(0x3f0307a69435485c, 0x7e06) == 0x3f0307a69435365a;
    assert Xor(0x7e060f4d286a90b9, 0xfc0c) == 0x7e060f4d286a6cb5;
  }

  lemma LastXor()
    ensures Xor(0xcca742779a70259, 0x1994) == 0xcca742779a71bcd
  {
    XorZero(0x6653a13bcd38);
    assert Xor(0xcca742779a70, 1) == 0xcca742779a71;
    assert Xor(0x1994e84ef34e0, 3) == 0x1994e84ef34e3;
    assert Xor(0x3329d09de69c0, 6) == 0x3329d09de69c6;
    assert Xor(0x6653a13bcd381, 0xc) == 0x6653a13bcd38d;
    assert Xor(0xcca742779a702, 0x19) == 0xcca742779a71b;
    assert Xor(0x1994e84ef34e04, 0x33) == 0x1994e84ef34e37;
    assert Xor(0x3329d09de69c09, 0x66) == 0x3329d09de69c6f;
    assert Xor(0x6653a13bcd3812, 0xcc) == 0x6653a13bcd38de;
    assert Xor(0xcca742779a7025, 0x199) == 0xcca742779a71bc;
    assert Xor(0x1994e84ef34e04b, 0x332) == 0x1994e84ef34e379;
    assert Xor(0x3329d09de69c096, 0x665) == 0x3329d09de69c6f3;
    assert Xor(0x6653a13bcd3812c, 0xcca) == 0x6653a13bcd38de6;
    assert Xor(0xcca742779a70259, 0x1994) == 0xcca742779a71bcd;
  }

  lemma FortySeven()
    ensures Pow2(47) == 0x8000_0000_0000
  {
    assert Pow2(11) == 2048 by {
      assert Pow2(6) == 64;
    }
    Pow2Add(11, 12);
    Pow2Add(23, 24);
    Pow2Add(12, 12);
  }

  lemma ShiftIs(val: nat, high: nat, low: nat)
    requires val == 0x8000_0000_0000 * high + low && low < 0x8000_0000_0000
    ensures ShiftRight(val, 47) == high
  {
    FortySeven();
    ShiftIsDivision(val, 47);
  }

  lemma MixIs(val: Uint64, high: nat, low: nat, mixed: nat)
    requires val == 0x8000_0000_0000 * high + low && low < 0x8000_0000_0000 && Xor(val, high) == mixed
    ensures ShiftMix(val) == mixed
  {
    ShiftIs(val, high, low);
  }

  lemma XorEvenOne(a: nat)
    requires a % 2 == 0
    ensures Xor(a, 1) == a + 1
  {
    XorZero(a / 2);
    XorStep(a, 1);
  }

  lemma ScalesOf(fp2: Uint64, b: Uint64, c: Uint64, e: Uint64)
    requires fp2 == 0x8cde_8000_0000_0000 && b == 0x8000_0000_0001 && c == 0xbb6f_2793_5bd1_e995 && e == 0x7e06_0f4d_286a_6cb5
    ensures Scale(fp2) == 0x8000_0000_0000 && Scale(b) == c
    ensures Scale(c) == 0x7e06_0f4d_286a_90b9 && Scale(e) == 0x0cca_7427_79a7_0259
  {
  }

  /** The first argument `K_MUL` leaves only the second one, after its mixing. */
  lemma OnlySecond(fp2: Uint64, b: Uint64, c: Uint64, e: Uint64, result: Uint64)
    ensures ShiftMix(Scale(fp2)) == b && Scale(b) == c && ShiftMix(Scale(c)) == e && ShiftMix(Scale(e)) == result ==>
              Cat(K_MUL, fp2) == result
  {
    Xor64Self(K_MUL);
    Xor64Self(c);
  }

  /** One fingerprint in full; every mixing step changes its value. */
  lemma KnownValue()
    ensures Cat(K_MUL, 0x8cde_8000_0000_0000) == 0x0cca_7427_79a7_1bcd
  {
    ScalesOf(0x8cde_8000_0000_0000, 0x8000_0000_0001, 0xbb6f_2793_5bd1_e995, 0x7e06_0f4d_286a_6cb5);
    XorEvenOne(0x8000_0000_0000);
    MixIs(0x8000_0000_0000, 1, 0, 0x8000_0000_0001);
    FirstXor();
    MixIs(0x7e06_0f4d_286a_90b9, 0xfc0c, 0xf4d286a90b9, 0x7e06_0f4d_286a_6cb5);
    LastXor();
    MixIs(0x0cca_7427_79a7_0259, 0x1994, 0x742779a70259, 0x0cca_7427_79a7_1bcd);
    OnlySecond(0x8cde_8000_0000_0000, 0x8000_0000_0001, 0xbb6f_2793_5bd1_e995, 0x7e06_0f4d_286a_6cb5, 0x0cca_7427_79a7_1bcd);
  }
}
