/**
 * Row-major indexing: `ComputeStride` (framework/ops_util.h), and the check of the sizes of a view in
 * `Tensor::shaped` (framework/tensor.h). Both multiply in a signed type of fixed width, and a product
 * that does not fit wraps.
 */
module Strides {
  function Product(sizes: seq<int>): int {
    if sizes == [] then 1 else sizes[0] * Product(sizes[1..])
  }

  ghost predicate NoNegative(sizes: seq<int>) {
    forall i :: 0 <= i < |sizes| ==> sizes[i] >= 0
  }

  ghost predicate AllPositive(sizes: seq<int>) {
    forall i :: 0 <= i < |sizes| ==> sizes[i] > 0
  }

  // ---- Signed arithmetic of fixed width ----

  const HALF_OF_64: nat := 0x8000_0000_0000_0000

  type Int64 = x: int | -(HALF_OF_64 as int) <= x < HALF_OF_64

  /** A value in the signed type with 2 * half values. */
  function Wrap(x: int, half: nat): (r: int)
    requires half > 0
    ensures -(half as int) <= r < half
  {
    (x + half) % (2 * half) - half
  }

  /** Exactly the values of the type are left as they are. */
  lemma WrapFits(x: int, half: nat)
    requires half > 0
    ensures Wrap(x, half) == x <==> -(half as int) <= x < half
  {
    if -(half as int) <= x < half {
      ModUnique(x + half, 0, x + half, 2 * half);
    }
  }

  lemma ModShift(x: int, k: int, m: nat)
    requires m > 0
    ensures (x + k * m) % m == x % m
  {
    ModUnique(x + k * m, x / m + k, x % m, m);
  }

  lemma ModUnique(x: int, q: int, r: int, m: nat)
    requires 0 <= r < m && x == q * m + r
    ensures x % m == r
  {
    DistinctMultiples(x / m, q, m);
  }

  lemma DistinctMultiples(a: int, b: int, m: nat)
    ensures a < b ==> a * m + m <= b * m
    ensures b < a ==> b * m + m <= a * m
  {
    if a < b {
      MulBelow(a, b, m);
    } else if b < a {
      MulBelow(b, a, m);
    }
  }

  lemma MulBelow(a: int, b: int, p: int)
    requires a < b && p >= 0
    ensures a * p + p <= b * p
  {
    var d := b - a - 1;
    assert d * p >= 0;
    assert b * p == (a + 1 + d) * p;
  }

  lemma WrapShift(x: int, k: int, half: nat, m: nat)
    requires half > 0 && m == 2 * half
    ensures Wrap(x + k * m, half) == Wrap(x, half)
  {
    ModShift(x + half, k, m);
  }

  /** How many times the modulus lies between a value and what it wraps to. */
  ghost function Wraps(x: int, half: nat): (k: int)
    requires half > 0
    ensures x == Wrap(x, half) + k * (2 * half)
  {
    (x + half) / (2 * half)
  }

  /** Wrapping the factors changes nothing about the wrapped product. */
  lemma WrapMul(x: int, y: int, half: nat)
    requires half > 0
    ensures Wrap(Wrap(x, half) * Wrap(y, half), half) == Wrap(x * y, half)
  {
    var m := 2 * half;
    var a, b := Wrap(x, half), Wrap(y, half);
    var i, j := Wraps(x, half), Wraps(y, half);
    MulOut(x, y, a, b, i, j, m);
    WrapShift(a * b, a * j + i * b + i * j * m, half, m);
  }

  lemma MulOut(x: int, y: int, a: int, b: int, i: int, j: int, m: int)
    requires x == a + i * m && y == b + j * m
    ensures x * y == a * b + (a * j + i * b + i * j * m) * m
  {
    calc {
      (a + i * m) * (b + j * m);
      a * b + a * (j * m) + (i * m) * b + (i * m) * (j * m);
      a * b + (a * j) * m + (i * b) * m + (i * j * m) * m;
    }
  }

  /** A product of 64 bits is a given count exactly if the remainders modulo two to the 64 agree. */
  lemma WrapIs(x: int, n: nat)
    requires n < HALF_OF_64
    ensures Wrap(x, HALF_OF_64) == n <==> x % (2 * HALF_OF_64) == n
  {
    var k := Wraps(x, HALF_OF_64);
    if Wrap(x, HALF_OF_64) == n {
      ModUnique(x, k, n, 2 * HALF_OF_64);
    }
    if x % (2 * HALF_OF_64) == n {
      WrapShift(n, x / (2 * HALF_OF_64), HALF_OF_64, 2 * HALF_OF_64);
      WrapFits(n, HALF_OF_64);
    }
  }

  // ---- Strides ----

  /** The product of the sizes that follow, for every dimension; the loop runs downwards. */
  method ComputeStride(sizes: seq<int>, half: nat) returns (strides: array<int>)
    requires half > 1
    ensures strides.Length == |sizes|
    ensures forall i :: 0 <= i < |sizes| ==> strides[i] == Wrap(Product(sizes[i + 1..]), half)
  {
    strides := new int[|sizes|];
    var stride := 1;
    WrapFits(1, half);
    for i := |sizes| downto 0
      invariant stride == Wrap(Product(sizes[i..]), half)
      invariant forall k :: i <= k < |sizes| ==> strides[k] == Wrap(Product(sizes[k + 1..]), half)
    {
      strides[i] := stride;
      assert sizes[i..][1..] == sizes[i + 1..];
      WrapMul(Product(sizes[i + 1..]), sizes[i], half);
      stride := Wrap(stride * Wrap(sizes[i], half), half);
    }
  }

  lemma {:induction false} SuffixSmaller(sizes: seq<int>, i: nat, j: nat)
    requires AllPositive(sizes) && i <= j <= |sizes|
    ensures 0 < Product(sizes[j..]) <= Product(sizes[i..])
    decreases |sizes| - i
  {
    if i < j {
      SuffixSmaller(sizes, i + 1, j);
      assert sizes[i..][1..] == sizes[i + 1..];
      FactorGrows(sizes[i], Product(sizes[i + 1..]));
    } else if j < |sizes| {
      SuffixSmaller(sizes, j + 1, j + 1);
      assert sizes[j..][1..] == sizes[j + 1..];
      FactorGrows(sizes[j], Product(sizes[j + 1..]));
    }
  }

  lemma FactorGrows(a: int, p: int)
    requires a > 0 && p > 0
    ensures a * p >= p
  {
  }

  /** For positive sizes the strides are the row-major ones exactly if the greatest of them, the first, fits. */
  lemma StridesExactIff(sizes: seq<int>, half: nat)
    requires AllPositive(sizes) && half > 1
    ensures (forall i :: 0 <= i < |sizes| ==> StridesOf(sizes)[i] == Wrap(Product(sizes[i + 1..]), half))
        <==> sizes == [] || Product(sizes[1..]) < half
  {
    forall i | 0 <= i < |sizes| 
      ensures 0 < StridesOf(sizes)[i] <= Product(sizes[1..])
      ensures Wrap(Product(sizes[i + 1..]), half) == StridesOf(sizes)[i] <==> StridesOf(sizes)[i] < half
    {
      SuffixSmaller(sizes, 1, i + 1);
      WrapFits(Product(sizes[i + 1..]), half);
    }
    if sizes != [] && Product(sizes[1..]) >= half {
      assert StridesOf(sizes)[0] != Wrap(Product(sizes[0 + 1..]), half);
    }
  }

  // ---- Offsets ----

  ghost predicate InBounds(sizes: seq<int>, index: seq<int>) {
    |index| == |sizes| && forall i :: 0 <= i < |sizes| ==> 0 <= index[i] < sizes[i]
  }

  /** The sum of index times stride. */
  function Sum(index: seq<int>, strides: seq<int>): int
    requires |index| == |strides|
  {
    if index == [] then 0 else index[0] * strides[0] + Sum(index[1..], strides[1..])
  }

  ghost function StridesOf(sizes: seq<int>): (strides: seq<int>)
    ensures |strides| == |sizes| && forall i :: 0 <= i < |sizes| ==> strides[i] == Product(sizes[i + 1..])
  {
    seq(|sizes|, i requires 0 <= i < |sizes| => Product(sizes[i + 1..]))
  }

  ghost function Offset(sizes: seq<int>, index: seq<int>): int
    requires |index| == |sizes|
  {
    Sum(index, StridesOf(sizes))
  }

  lemma OffsetStep(sizes: seq<int>, index: seq<int>)
    requires |index| == |sizes| && sizes != []
    ensures Offset(sizes, index) == index[0] * Product(sizes[1..]) + Offset(sizes[1..], index[1..])
  {
    var rest := StridesOf(sizes)[1..];
    forall i | 0 <= i < |rest| ensures rest[i] == StridesOf(sizes[1..])[i] {
      assert sizes[1..][i + 1..] == sizes[i + 2..];
    }
    assert rest == StridesOf(sizes[1..]);
  }

  lemma {:induction false} PositiveProduct(sizes: seq<int>, index: seq<int>)
    requires InBounds(sizes, index)
    ensures Product(sizes) > 0
  {
    if sizes != [] {
      PositiveProduct(sizes[1..], index[1..]);
    }
  }

  lemma {:induction false} NonNegativeProduct(sizes: seq<int>)
    requires NoNegative(sizes)
    ensures Product(sizes) >= 0
  {
    if sizes != [] {
      NonNegativeProduct(sizes[1..]);
    }
  }

  /** Every offset lies in the buffer. */
  lemma {:induction false} OffsetInBuffer(sizes: seq<int>, index: seq<int>)
    requires InBounds(sizes, index)
    ensures 0 <= Offset(sizes, index) < Product(sizes)
  {
    if sizes != [] {
      OffsetStep(sizes, index);
      OffsetInBuffer(sizes[1..], index[1..]);
      MulBelow(index[0], sizes[0], Product(sizes[1..]));
    }
  }

  ghost predicate LexLess(a: seq<int>, b: seq<int>)
    requires |a| == |b|
  {
    a != [] && (a[0] < b[0] || (a[0] == b[0] && LexLess(a[1..], b[1..])))
  }

  lemma {:induction false} LexTotal(a: seq<int>, b: seq<int>)
    requires |a| == |b|
    ensures a == b || LexLess(a, b) || LexLess(b, a)
  {
    if a != [] {
      LexTotal(a[1..], b[1..]);
      if a[0] == b[0] && a[1..] == b[1..] {
        assert a == [a[0]] + a[1..];
        assert b == [b[0]] + b[1..];
      }
    }
  }

  lemma {:induction false} LexImpliesLess(sizes: seq<int>, a: seq<int>, b: seq<int>)
    requires InBounds(sizes, a) && InBounds(sizes, b) && LexLess(a, b)
    ensures Offset(sizes, a) < Offset(sizes, b)
  {
    OffsetStep(sizes, a);
    OffsetStep(sizes, b);
    if a[0] < b[0] {
      OffsetInBuffer(sizes[1..], a[1..]);
      OffsetInBuffer(sizes[1..], b[1..]);
      MulBelow(a[0], b[0], Product(sizes[1..]));
    } else {
      LexImpliesLess(sizes[1..], a[1..], b[1..]);
    }
  }

  /** Offsets are ordered as the indices are, lexicographically; in particular they are distinct. */
  lemma OffsetsInOrder(sizes: seq<int>, a: seq<int>, b: seq<int>)
    requires InBounds(sizes, a) && InBounds(sizes, b)
    ensures Offset(sizes, a) < Offset(sizes, b) <==> LexLess(a, b)
    ensures Offset(sizes, a) == Offset(sizes, b) <==> a == b
  {
    LexTotal(a, b);
    if LexLess(a, b) {
      LexImpliesLess(sizes, a, b);
    }
    if LexLess(b, a) {
      LexImpliesLess(sizes, b, a);
    }
  }

  /** The index at an offset. */
  ghost function IndexAt(sizes: seq<int>, offset: int): seq<int>
    requires NoNegative(sizes)
    requires 0 <= offset < Product(sizes)
  {
    if sizes == [] then []
    else
      var p := Product(sizes[1..]);
      RestPositive(sizes);
      [offset / p] + IndexAt(sizes[1..], offset % p)
  }

  lemma RestPositive(sizes: seq<int>)
    requires sizes != [] && NoNegative(sizes) && Product(sizes) > 0
    ensures Product(sizes[1..]) > 0 && sizes[0] > 0
  {
    NonNegativeProduct(sizes[1..]);
  }

  lemma QuotientBelow(a: int, p: int, n: int)
    requires 0 <= a < n * p && p > 0
    ensures 0 <= a / p < n && a == a / p * p + a % p
  {
    if a / p >= n {
      MulBelow(n - 1, a / p, p);
    }
  }

  /** Every position of the buffer is the offset of an index. */
  lemma {:induction false} OffsetsCover(sizes: seq<int>, offset: int)
    requires NoNegative(sizes) && 0 <= offset < Product(sizes)
    ensures InBounds(sizes, IndexAt(sizes, offset)) && Offset(sizes, IndexAt(sizes, offset)) == offset
  {
    if sizes != [] {
      var p := Product(sizes[1..]);
      RestPositive(sizes);
      QuotientBelow(offset, p, sizes[0]);
      OffsetsCover(sizes[1..], offset % p);
      OffsetStep(sizes, IndexAt(sizes, offset));
    }
  }

  // ---- Views ----

  ghost predicate Reached(sizes: seq<int>, offset: int) {
    exists index: seq<int> :: InBounds(sizes, index) && Offset(sizes, index) == offset
  }

  /** The indices of a view of the given sizes are exactly the positions of a buffer of n elements. */
  ghost predicate OneToOne(sizes: seq<int>, n: int) {
    && (forall index: seq<int> | InBounds(sizes, index) :: 0 <= Offset(sizes, index) < n)
    && (forall a: seq<int>, b: seq<int> | InBounds(sizes, a) && InBounds(sizes, b) && Offset(sizes, a) == Offset(sizes, b) :: a == b)
    && (forall offset: int | 0 <= offset < n :: Reached(sizes, offset))
  }

  /** `CHECK` ends the process if it fails. */
  datatype Outcome = Passed | Aborted

  /** Copies the sizes, and checks that their product, in 64 bits, is the number of elements. */
  method FillDimsAndValidateCompatibleShape(newSizes: seq<Int64>, numElements: Int64, dims: array<Int64>) returns (outcome: Outcome)
    requires numElements >= 0
    modifies dims
    ensures outcome.Passed? <==> dims.Length == |newSizes| && Product(newSizes) % (2 * HALF_OF_64) == numElements
    ensures outcome.Passed? ==> dims[..] == newSizes
  {
    if dims.Length != |newSizes| {
      return Aborted;
    }
    var newNumElements: Int64 := 1;
    WrapFits(1, HALF_OF_64);
    for d := 0 to |newSizes|
      invariant dims[..d] == newSizes[..d]
      invariant newNumElements == Wrap(Product(newSizes[..d]), HALF_OF_64)
    {
      ProductNext(newSizes, d);
      WrapMul(Product(newSizes[..d]), newSizes[d], HALF_OF_64);
      WrapFits(newSizes[d], HALF_OF_64);
      newNumElements := Wrap(newNumElements * newSizes[d], HALF_OF_64);
      dims[d] := newSizes[d];
    }
    assert newSizes[..|newSizes|] == newSizes;
    WrapIs(Product(newSizes), numElements);
    if newNumElements != numElements {
      return Aborted;
    }
    return Passed;
  }

  lemma {:induction false} ProductAppend(a: seq<int>, x: int)
    ensures Product(a + [x]) == Product(a) * x
  {
    if a != [] {
      assert (a + [x])[1..] == a[1..] + [x];
      ProductAppend(a[1..], x);
      calc {
        Product(a + [x]);
        a[0] * Product(a[1..] + [x]);
        a[0] * (Product(a[1..]) * x);
        a[0] * Product(a[1..]) * x;
      }
    }
  }

  lemma ProductNext(sizes: seq<int>, d: nat)
    requires d < |sizes|
    ensures Product(sizes[..d + 1]) == Product(sizes[..d]) * sizes[d]
  {
    assert sizes[..d + 1] == sizes[..d] + [sizes[d]];
    ProductAppend(sizes[..d], sizes[d]);
  }

  /**
   * Sizes that pass the check re-index the buffer one to one exactly when they are positive and their
   * product did not wrap, or the buffer is empty and some size is not positive.
   */
  lemma ShapedIsOneToOne(sizes: seq<int>, n: nat)
    requires n < HALF_OF_64 && Product(sizes) % (2 * HALF_OF_64) == n
    ensures OneToOne(sizes, n) <==> if AllPositive(sizes) then Product(sizes) < 2 * HALF_OF_64 else n == 0
  {
    if AllPositive(sizes) {
      SuffixSmaller(sizes, 0, 0);
      assert sizes[0..] == sizes;
      SmallRemainder(Product(sizes), n);
      if Product(sizes) == n {
        ProductIsOneToOne(sizes);
      } else {
        TooManyIndices(sizes, n);
      }
    } else {
      EmptyIsOneToOne(sizes, n);
    }
  }

  lemma SmallRemainder(p: nat, n: nat)
    requires n < HALF_OF_64 && p % (2 * HALF_OF_64) == n
    ensures p < 2 * HALF_OF_64 <==> p == n
    ensures p >= n
  {
  }

  lemma ProductIsOneToOne(sizes: seq<int>)
    requires NoNegative(sizes)
    ensures OneToOne(sizes, Product(sizes))
  {
    forall index: seq<int> | InBounds(sizes, index) ensures 0 <= Offset(sizes, index) < Product(sizes) {
      OffsetInBuffer(sizes, index);
    }
    forall a: seq<int>, b: seq<int> | InBounds(sizes, a) && InBounds(sizes, b) && Offset(sizes, a) == Offset(sizes, b)
      ensures a == b
    {
      OffsetsInOrder(sizes, a, b);
    }
    forall offset: int | 0 <= offset < Product(sizes) ensures Reached(sizes, offset) {
      OffsetsCover(sizes, offset);
    }
  }

  /** With a product above the number of elements, some index lies behind the buffer. */
  lemma TooManyIndices(sizes: seq<int>, n: nat)
    requires NoNegative(sizes) && Product(sizes) > n
    ensures !OneToOne(sizes, n)
  {
    OffsetsCover(sizes, n);
    var index := IndexAt(sizes, n);
    assert InBounds(sizes, index) && Offset(sizes, index) == n;
  }

  lemma NothingInBounds(sizes: seq<int>)
    requires !AllPositive(sizes)
    ensures forall index: seq<int> :: !InBounds(sizes, index)
  {
    var i :| 0 <= i < |sizes| && sizes[i] <= 0;
    forall index: seq<int> | |index| == |sizes| ensures !InBounds(sizes, index) {
      assert !(0 <= index[i] < sizes[i]);
    }
  }

  lemma EmptyIsOneToOne(sizes: seq<int>, n: nat)
    requires !AllPositive(sizes)
    ensures OneToOne(sizes, n) <==> n == 0
  {
    NothingInBounds(sizes);
    assert !Reached(sizes, 0);
  }

  lemma ProductOfTwo(a: int, b: int)
    ensures Product([a, b]) == a * b
  {
    assert [a, b][1..] == [b];
    assert Product([b]) == b * Product([b][1..]);
  }

  /** Two negative sizes that pass for a buffer of four elements, and reach none of them. */
  lemma NegativeSizesPass()
    ensures Product([-2, -2]) % (2 * HALF_OF_64) == 4 && !OneToOne([-2, -2], 4)
  {
    var sizes: seq<int> := [-2, -2];
    ProductOfTwo(-2, -2);
    assert sizes[0] < 0;
    ShapedIsOneToOne(sizes, 4);
  }

  /** Two positive sizes whose product wraps to four. */
  lemma WrappedSizesPass()
    ensures Product([5, 0x3333_3333_3333_3334]) % (2 * HALF_OF_64) == 4 && !OneToOne([5, 0x3333_3333_3333_3334], 4)
  {
    var sizes: seq<int> := [5, 0x3333_3333_3333_3334];
    ProductOfTwo(5, 0x3333_3333_3333_3334);
    assert AllPositive(sizes);
    ShapedIsOneToOne(sizes, 4);
  }
}
