/**
 * The bit mask `DataTypeSet` and its iterator (framework/types.h), with the portable loops for
 * counting zeros and ones. Everything holds for masks of any width.
 */
module DataTypeSets {
  import opened Bits

  /** A set of data types; `width` is `kNumBits`, the number of bits of the mask. */
  datatype DataTypeSet = DataTypeSet(mask: nat, width: nat) {
    ghost predicate Valid() {
      mask < Pow2(width)
    }

    predicate Contains(dt: int) {
      0 <= dt < width && Bit(mask, dt)
    }
  }

  /** The number of trailing zeros. */
  method CtzUint32(mask: nat, ghost width: nat) returns (n: nat)
    requires 0 < mask < Pow2(width)
    ensures n < width && Bit(mask, n) && forall k: nat | k < n :: !Bit(mask, k)
  {
    var x: nat := mask;
    n := 0;
    while x % 2 == 0
      invariant x == ShiftRight(mask, n) && x > 0
      invariant forall k: nat | k < n :: !Bit(mask, k)
      decreases x
    {
      ShiftOnce(mask, n);
      x := x / 2;
      n := n + 1;
    }
    if n >= width {
      Pow2Monotone(width, n);
      NoBitAbove(mask, width, n);
    }
  }

  /** The number of leading zeros: the loop shifts to the left until the top bit is set. */
  method ClzUint32(mask: nat, width: nat) returns (n: nat)
    requires 0 < mask < Pow2(width)
    ensures n < width && Bit(mask, width - 1 - n) && forall k: nat | width - 1 - n < k :: !Bit(mask, k)
  {
    var x: nat := mask;
    n := 0;
    ShiftedTooFar(mask, 0, width);
    while ShiftRight(x, width - 1) == 0
      invariant n < width && x == mask * Pow2(n) && x < Pow2(width)
      decreases width - n
    {
      TopBitClear(x, width - 1);
      ShiftedOnce(mask, n, x);
      x := x * 2;
      n := n + 1;
      ShiftedTooFar(mask, n, width);
    }
    TopBit(mask, n, width, x);
    BelowTop(mask, n, width, x);
    forall k: nat | width - 1 - n < k ensures !Bit(mask, k) {
      Pow2Monotone(width - n, k);
      NoBitAbove(mask, width - n, k);
    }
  }

  lemma TopBitClear(x: nat, k: nat)
    requires ShiftRight(x, k) == 0
    ensures 2 * x < Pow2(k + 1)
  {
    ShiftIsDivision(x, k);
  }

  lemma ShiftedOnce(mask: nat, n: nat, x: nat)
    requires x == mask * Pow2(n)
    ensures x * 2 == mask * Pow2(n + 1)
  {
  }

  lemma AtLeast(a: nat, b: nat, p: nat)
    requires a >= b
    ensures a * p >= b * p
  {
  }

  lemma ShiftedTooFar(mask: nat, n: nat, width: nat)
    requires mask > 0 && mask * Pow2(n) < Pow2(width)
    ensures n < width
  {
    AtLeast(mask, 1, Pow2(n));
    if n >= width {
      Pow2Monotone(width, n);
    }
  }

  lemma BelowTop(mask: nat, n: nat, width: nat, x: nat)
    requires n <= width && x == mask * Pow2(n) && x < Pow2(width)
    ensures mask < Pow2(width - n)
  {
    Pow2Add(width - n, n);
    if mask >= Pow2(width - n) {
      AtLeast(mask, Pow2(width - n), Pow2(n));
    }
  }

  lemma {:induction false} ShiftBack(mask: nat, n: nat, k: nat)
    ensures ShiftRight(mask * Pow2(n), k + n) == ShiftRight(mask, k)
  {
    if n > 0 {
      assert mask * Pow2(n) == mask * Pow2(n - 1) * 2;
      ShiftBack(mask, n - 1, k);
    }
  }

  lemma TopBit(mask: nat, n: nat, width: nat, x: nat)
    requires n < width && x == mask * Pow2(n) && x < Pow2(width)
    requires ShiftRight(x, width - 1) != 0
    ensures Bit(mask, width - 1 - n)
  {
    ShiftBack(mask, n, width - 1 - n);
    ShiftBelow(x, width - 1, 1);
  }

  // ---- The members ----

  /** The positions below k that are set, in ascending order. */
  ghost function MembersBelow(mask: nat, k: nat): seq<nat> {
    if k == 0 then [] else MembersBelow(mask, k - 1) + if Bit(mask, k - 1) then [k - 1] else []
  }

  lemma {:induction false} MembersAre(mask: nat, k: nat)
    ensures forall p: nat :: p in MembersBelow(mask, k) <==> p < k && Bit(mask, p)
    ensures forall i, j :: 0 <= i < j < |MembersBelow(mask, k)| ==> MembersBelow(mask, k)[i] < MembersBelow(mask, k)[j]
  {
    if k > 0 {
      MembersAre(mask, k - 1);
      var before := MembersBelow(mask, k - 1);
      forall i, j | 0 <= i < j < |MembersBelow(mask, k)|
        ensures MembersBelow(mask, k)[i] < MembersBelow(mask, k)[j]
      {
        assert before[i] in before;
      }
    }
  }

  lemma {:induction false} NoMembersBetween(mask: nat, low: nat, high: nat)
    requires low <= high && forall p: nat | low <= p < high :: !Bit(mask, p)
    ensures MembersBelow(mask, low) == MembersBelow(mask, high)
  {
    if low < high {
      NoMembersBetween(mask, low, high - 1);
    }
  }

  ghost function Ones(x: nat): nat {
    if x == 0 then 0 else x % 2 + Ones(x / 2)
  }

  lemma {:induction false} OnesAreMembers(mask: nat, k: nat)
    ensures |MembersBelow(mask, k)| + Ones(ShiftRight(mask, k)) == Ones(mask)
  {
    if k > 0 {
      OnesAreMembers(mask, k - 1);
      ShiftOnce(mask, k - 1);
    }
  }

  /** The number of members, by the loop that counts ones. */
  method Size(set_: DataTypeSet) returns (n: nat)
    requires set_.Valid()
    ensures n == |MembersBelow(set_.mask, set_.width)|
  {
    n := 0;
    var x: nat := set_.mask;
    while x > 0
      invariant n + Ones(x) == Ones(set_.mask)
    {
      n := n + x % 2;
      x := x / 2;
    }
    OnesAreMembers(set_.mask, set_.width);
    NoBitAbove(set_.mask, set_.width, set_.width);
  }

  // ---- The iterator ----

  class Iterator {
    const of: DataTypeSet
    var pos: nat

    constructor (of: DataTypeSet, pos: nat)
      requires pos <= of.width
      ensures this.of == of && this.pos == pos
    {
      this.of, this.pos := of, pos;
    }

    /** `operator++`: the next member, or the next position if there is none. */
    method Next()
      requires of.Valid() && pos < of.width
      modifies this
      ensures old(pos) < pos <= of.width
      ensures forall k: nat | old(pos) < k < pos :: !Bit(of.mask, k)
      ensures Bit(of.mask, pos) || (pos == old(pos) + 1 && forall k: nat | pos <= k :: !Bit(of.mask, k))
    {
      pos := pos + 1;
      if pos < of.width {
        ShiftSmaller(of.mask, pos);
        var remaining := ShiftRight(of.mask, pos);
        if remaining != 0 {
          var zeros := CtzUint32(remaining, of.width);
          SkipZeros(of, pos, zeros);
          pos := pos + zeros;
        } else {
          NoneRemain(of, pos);
        }
      } else {
        NoneBeyond(of, pos);
      }
    }
  }

  lemma SkipZeros(of: DataTypeSet, pos: nat, zeros: nat)
    requires of.Valid()
    requires Bit(ShiftRight(of.mask, pos), zeros)
    requires forall k: nat | k < zeros :: !Bit(ShiftRight(of.mask, pos), k)
    ensures pos + zeros < of.width && Bit(of.mask, pos + zeros)
    ensures forall k: nat | pos <= k < pos + zeros :: !Bit(of.mask, k)
  {
    ShiftTwice(of.mask, pos, zeros);
    forall k: nat | pos <= k < pos + zeros ensures !Bit(of.mask, k) {
      ShiftTwice(of.mask, pos, k - pos);
      assert !Bit(ShiftRight(of.mask, pos), k - pos);
    }
    assert Bit(of.mask, pos + zeros);
    if pos + zeros >= of.width {
      NoneBeyond(of, pos + zeros);
    }
  }

  lemma NoneRemain(of: DataTypeSet, pos: nat)
    requires ShiftRight(of.mask, pos) == 0
    ensures forall k: nat | pos <= k :: !Bit(of.mask, k)
  {
    forall k: nat | pos <= k ensures !Bit(of.mask, k) {
      ShiftTwice(of.mask, pos, k - pos);
      ZeroHasNoBit(k - pos);
    }
  }

  lemma NoneBeyond(of: DataTypeSet, pos: nat)
    requires of.Valid() && pos >= of.width
    ensures forall k: nat | pos <= k :: !Bit(of.mask, k)
  {
    forall k: nat | pos <= k ensures !Bit(of.mask, k) {
      Pow2Monotone(of.width, k);
      NoBitAbove(of.mask, of.width, k);
    }
  }

  /** The first member, or 0 if there is none. */
  method Begin(of: DataTypeSet) returns (it: Iterator)
    requires of.Valid()
    ensures fresh(it) && it.of == of && it.pos <= of.width
    ensures of.mask != 0 ==> it.pos < of.width && Bit(of.mask, it.pos)
    ensures of.mask == 0 ==> it.pos == 0
    ensures forall k: nat | k < it.pos :: !Bit(of.mask, k)
  {
    if of.mask != 0 {
      var n := CtzUint32(of.mask, of.width);
      it := new Iterator(of, n);
    } else {
      it := new Iterator(of, 0);
    }
  }

  /** One past the last member, or 0 if there is none. */
  method End(of: DataTypeSet) returns (it: Iterator)
    requires of.Valid()
    ensures fresh(it) && it.of == of && it.pos <= of.width
    ensures of.mask != 0 ==> it.pos > 0 && Bit(of.mask, it.pos - 1)
    ensures of.mask == 0 ==> it.pos == 0
    ensures forall k: nat | it.pos <= k :: !Bit(of.mask, k)
  {
    if of.mask != 0 {
      var n := ClzUint32(of.mask, of.width);
      it := new Iterator(of, of.width - n);
    } else {
      it := new Iterator(of, 0);
      NoneRemain(of, 0);
    }
  }

  /** Walking from `begin` to `end` ends, and visits the members in ascending order, each once. */
  method Visit(of: DataTypeSet) returns (visited: seq<nat>)
    requires of.Valid()
    ensures visited == MembersBelow(of.mask, of.width)
    ensures forall dt: nat :: dt in visited <==> of.Contains(dt)
    ensures forall i, j :: 0 <= i < j < |visited| ==> visited[i] < visited[j]
  {
    visited := [];
    var it := Begin(of);
    var end := End(of);
    var last := end.pos;
    NoMembersBetween(of.mask, 0, it.pos);
    while it.pos != end.pos
      invariant it != end && it.of == of && end.pos == last && it.pos <= last <= of.width
      invariant it.pos < last ==> Bit(of.mask, it.pos) && Bit(of.mask, last - 1)
      invariant visited == MembersBelow(of.mask, it.pos)
      decreases of.width - it.pos
    {
      ghost var here := it.pos;
      visited := visited + [it.pos];
      it.Next();
      assert MembersBelow(of.mask, here + 1) == visited;
      NoMembersBetween(of.mask, here + 1, it.pos);
    }
    NoMembersBetween(of.mask, last, of.width);
    MembersAre(of.mask, of.width);
  }

  // ---- Unions ----

  /** The members of `a | b` are those of either. */
  method Union(a: DataTypeSet, b: DataTypeSet) returns (r: DataTypeSet)
    requires a.Valid() && b.Valid() && a.width == b.width
    ensures r.Valid() && forall dt: int :: r.Contains(dt) <==> a.Contains(dt) || b.Contains(dt)
  {
    OrBelow(a.mask, b.mask, a.width);
    r := DataTypeSet(Or(a.mask, b.mask), a.width);
    forall dt: int ensures r.Contains(dt) <==> a.Contains(dt) || b.Contains(dt) {
      if 0 <= dt {
        OrBits(a.mask, b.mask, dt);
      }
    }
  }
}
