/**
 * The packed fields of a tensor proto (framework/tensor_util.h). Integers are their values, floating
 * point numbers their bit patterns; a complex number is two of them.
 */
module FieldCodec {
  datatype NumericType =
    | FLOAT | DOUBLE
    | INT8 | UINT8 | INT16 | UINT16 | INT32 | UINT32 | INT64 | UINT64
    | BOOL
    | QINT8 | QUINT8 | QINT16 | QUINT16 | QINT32
    | HALF | BFLOAT16
    | COMPLEX64 | COMPLEX128
  {
    predicate IsComplex() {
      COMPLEX64? || COMPLEX128?
    }

    function Width(): (w: nat)
      ensures 1 <= w <= 2
    {
      if IsComplex() then 2 else 1
    }

    /** The types stored in the `int_val` or the `half_val` field, of 32-bit integers. */
    predicate InInt32Field() {
      INT8? || UINT8? || INT16? || UINT16? || INT32? || QINT8? || QUINT8? || QINT16? || QUINT16? || QINT32? || HALF? || BFLOAT16?
    }

    predicate Signed() {
      INT8? || INT16? || INT32? || INT64? || QINT8? || QINT16? || QINT32?
    }

    /** The number of values of a component: an integer, a truth value, or the bits of a number. */
    function Modulus(): nat {
      match this
      case BOOL => 2
      case INT8 | UINT8 | QINT8 | QUINT8 => 0x100
      case INT16 | UINT16 | QINT16 | QUINT16 | HALF | BFLOAT16 => 0x1_0000
      case FLOAT | INT32 | UINT32 | QINT32 | COMPLEX64 => 0x1_0000_0000
      case DOUBLE | INT64 | UINT64 | COMPLEX128 => 0x1_0000_0000_0000_0000
    }

    predicate Fits(x: int) {
      if Signed() then -(Modulus() as int) <= 2 * x < Modulus() else 0 <= x < Modulus()
    }

    predicate Valid(v: Value) {
      if IsComplex() then v.Complex? && Fits(v.re) && Fits(v.im) else v.Plain? && Fits(v.x)
    }
  }

  datatype Value = Plain(x: int) | Complex(re: int, im: int)

  /** Conversion to a signed or unsigned integer type keeps the low bits. */
  function Wrap(x: int, modulus: nat, signed: bool): int
    requires modulus > 0
  {
    var r := x % modulus;
    if signed && 2 * r >= modulus then r - modulus else r
  }

  function ToField(t: NumericType, x: int): int {
    if t.InInt32Field() then Wrap(x, 0x1_0000_0000, true) else x
  }

  function FromField(t: NumericType, x: int): int {
    if t.InInt32Field() then Wrap(x, t.Modulus(), t.Signed()) else x
  }

  /** The values of each type; those of floating point types are bit patterns. */
  lemma Ranges(t: NumericType, x: int)
    ensures t.Fits(x) <==>
      match t
      case BOOL => x == 0 || x == 1
      case INT8 | QINT8 => -0x80 <= x <= 0x7f
      case UINT8 | QUINT8 => 0 <= x <= 0xff
      case INT16 | QINT16 => -0x8000 <= x <= 0x7fff
      case UINT16 | QUINT16 | HALF | BFLOAT16 => 0 <= x <= 0xffff
      case INT32 | QINT32 => -0x8000_0000 <= x <= 0x7fff_ffff
      case UINT32 | FLOAT | COMPLEX64 => 0 <= x <= 0xffff_ffff
      case INT64 => -0x8000_0000_0000_0000 <= x <= 0x7fff_ffff_ffff_ffff
      case UINT64 | DOUBLE | COMPLEX128 => 0 <= x <= 0xffff_ffff_ffff_ffff
  {
  }

  /** Every value of every type fits the entries of its field, so that it is stored as it is. */
  lemma StoredAsItIs(t: NumericType, x: int)
    requires t.Fits(x)
    ensures ToField(t, x) == x
  {
  }

  /** Converting to the field stores the value, and converting back loses nothing, in the signed and the unsigned types alike. */
  lemma FieldRoundTrip(t: NumericType, x: int)
    requires t.Fits(x)
    ensures ToField(t, x) == x && FromField(t, ToField(t, x)) == x
  {
    StoredAsItIs(t, x);
    if t.InInt32Field() && x < 0 {
      assert x % t.Modulus() == x + t.Modulus();
    }
  }

  // ---- Encoding ----

  ghost function EncodeOne(t: NumericType, v: Value): (s: seq<int>)
    requires t.Valid(v)
    ensures |s| == t.Width()
  {
    if t.IsComplex() then [v.re, v.im] else [ToField(t, v.x)]
  }

  ghost predicate AllValid(t: NumericType, values: seq<Value>) {
    forall i :: 0 <= i < |values| ==> t.Valid(values[i])
  }

  ghost function Encode(t: NumericType, values: seq<Value>): (s: seq<int>)
    requires AllValid(t, values)
    ensures |s| == t.Width() * |values|
  {
    if values == [] then [] else Encode(t, values[..|values| - 1]) + EncodeOne(t, values[|values| - 1])
  }

  lemma {:induction false} EncodeAt(t: NumericType, values: seq<Value>, i: nat)
    requires AllValid(t, values) && i < |values|
    ensures t.IsComplex() ==> Encode(t, values)[2 * i] == values[i].re && Encode(t, values)[2 * i + 1] == values[i].im
    ensures !t.IsComplex() ==> Encode(t, values)[i] == ToField(t, values[i].x)
  {
    if i < |values| - 1 {
      EncodeAt(t, values[..|values| - 1], i);
    }
  }

  /** What is stored for value i, from entry `start` on: the value itself, or its real and its imaginary part. */
  ghost predicate Stored(t: NumericType, field: seq<int>, start: nat, values: seq<Value>, i: nat)
    requires AllValid(t, values) && i < |values| && |field| >= start + t.Width() * |values|
  {
    if t.IsComplex() then field[start + 2 * i] == values[i].re && field[start + 2 * i + 1] == values[i].im
    else field[start + i] == values[i].x
  }

  lemma EncodingStores(t: NumericType, before: seq<int>, values: seq<Value>, i: nat)
    requires AllValid(t, values) && i < |values|
    ensures Stored(t, before + Encode(t, values), |before|, values, i)
  {
    EncodeAt(t, values, i);
    if !t.IsComplex() {
      StoredAsItIs(t, values[i].x);
    }
  }

  lemma {:induction false} EncodeAppend(t: NumericType, a: seq<Value>, b: seq<Value>)
    requires AllValid(t, a) && AllValid(t, b)
    ensures AllValid(t, a + b) && Encode(t, a + b) == Encode(t, a) + Encode(t, b)
  {
    if b == [] {
      assert a + b == a;
    } else {
      var front, last := b[..|b| - 1], b[|b| - 1];
      assert b == front + [last];
      EncodeAppend(t, a, front);
      AppendLast(t, a, front, last, a + front, b, a + b);
    }
  }

  lemma AppendLast(t: NumericType, a: seq<Value>, front: seq<Value>, last: Value, af: seq<Value>, b: seq<Value>, ab: seq<Value>)
    requires AllValid(t, a) && AllValid(t, front) && t.Valid(last) && AllValid(t, af)
    requires Encode(t, af) == Encode(t, a) + Encode(t, front)
    requires af == a + front && b == front + [last] && ab == a + b
    ensures AllValid(t, ab) && AllValid(t, b) && Encode(t, ab) == Encode(t, a) + Encode(t, b)
  {
    assert ab == af + [last];
    EncodeLast(t, ab, af, last);
    EncodeLast(t, b, front, last);
    Regroup(Encode(t, a), Encode(t, front), EncodeOne(t, last), Encode(t, af), Encode(t, b), Encode(t, ab));
  }

  lemma Regroup(a: seq<int>, b: seq<int>, c: seq<int>, ab: seq<int>, bc: seq<int>, abc: seq<int>)
    requires ab == a + b && bc == b + c && abc == ab + c
    ensures abc == a + bc
  {
  }

  lemma EncodeLast(t: NumericType, values: seq<Value>, front: seq<Value>, last: Value)
    requires AllValid(t, front) && t.Valid(last) && values == front + [last]
    ensures AllValid(t, values) && Encode(t, values) == Encode(t, front) + EncodeOne(t, last)
  {
    assert values[..|values| - 1] == front;
  }

  /** The first k values are encoded in the first entries. */
  lemma EncodePrefix(t: NumericType, values: seq<Value>, k: nat)
    requires AllValid(t, values) && k <= |values|
    ensures t.Width() * k <= |Encode(t, values)| && Encode(t, values)[..t.Width() * k] == Encode(t, values[..k])
  {
    EncodeAppend(t, values[..k], values[k..]);
    assert values[..k] + values[k..] == values;
  }

  /** The encoding determines the values. */
  lemma EncodeInjective(t: NumericType, a: seq<Value>, b: seq<Value>)
    requires AllValid(t, a) && AllValid(t, b) && Encode(t, a) == Encode(t, b)
    ensures a == b
  {
    assert |a| == |b|;
    forall i: nat | i < |a| ensures a[i] == b[i] {
      EncodeAt(t, a, i);
      EncodeAt(t, b, i);
      if !t.IsComplex() {
        FieldRoundTrip(t, a[i].x);
        FieldRoundTrip(t, b[i].x);
      }
    }
  }

  ghost function Concat(batches: seq<seq<Value>>): seq<Value> {
    if batches == [] then [] else Concat(batches[..|batches| - 1]) + batches[|batches| - 1]
  }

  lemma ConcatNext(batches: seq<seq<Value>>, i: nat)
    requires i < |batches|
    ensures Concat(batches[..i + 1]) == Concat(batches[..i]) + batches[i]
  {
    assert batches[..i + 1][..i] == batches[..i];
  }

  lemma EncodeNext(t: NumericType, a: seq<Value>, b: seq<Value>, start: seq<int>, before: seq<int>, after: seq<int>)
    requires AllValid(t, a) && AllValid(t, b)
    requires before == start + Encode(t, a) && after == before + Encode(t, b)
    ensures AllValid(t, a + b) && after == start + Encode(t, a + b)
  {
    EncodeAppend(t, a, b);
  }

  // ---- The code ----

  /** The repeated field of a tensor proto that holds the values of one type. */
  class TensorProto {
    const numeric: NumericType
    var field: seq<int>

    constructor (numeric: NumericType)
      ensures this.numeric == numeric && field == []
    {
      this.numeric, this.field := numeric, [];
    }

    method NumValues(ghost values: seq<Value>) returns (n: nat)
      requires AllValid(numeric, values) && field == Encode(numeric, values)
      ensures n == |values|
    {
      var rawSize := |field|;
      n := if numeric.IsComplex() then rawSize / 2 else rawSize;
    }

    /** The new entries have no particular value. */
    method AppendUninitialized(n: nat) returns (dst: nat)
      modifies this
      ensures dst == |old(field)| && |field| == dst + numeric.Width() * n && field[..dst] == old(field)
    {
      var count := n;
      if numeric.IsComplex() {
        count := count * 2;
      }
      dst := |field|;
      var uninitialized := new int[count];
      field := field + uninitialized[..];
    }

    /** The real and imaginary parts are copied one after the other; other values are converted to the field. */
    method FromArray(values: seq<Value>, dst: nat)
      requires AllValid(numeric, values) && |field| == dst + numeric.Width() * |values|
      modifies this
      ensures field == old(field[..dst]) + Encode(numeric, values)
    {
      if numeric.IsComplex() {
        for k := 0 to 2 * |values|
          invariant |field| == dst + 2 * |values| && field[..dst] == old(field[..dst])
          invariant forall j: nat | j < k :: field[dst + j] == Encode(numeric, values)[j]
        {
          EncodeAt(numeric, values, k / 2);
          field := field[dst + k := if k % 2 == 0 then values[k / 2].re else values[k / 2].im];
        }
      } else {
        for i := 0 to |values|
          invariant |field| == dst + |values| && field[..dst] == old(field[..dst])
          invariant forall j: nat | j < i :: field[dst + j] == Encode(numeric, values)[j]
        {
          EncodeAt(numeric, values, i);
          field := field[dst + i := ToField(numeric, values[i].x)];
        }
      }
      assert field[dst..] == Encode(numeric, values);
      assert field == field[..dst] + field[dst..];
    }

    /** The values go to the end of the field, in order. */
    method AddValues(values: seq<Value>)
      requires AllValid(numeric, values)
      modifies this
      ensures field == old(field) + Encode(numeric, values)
      ensures forall i: nat | i < |values| :: Stored(numeric, field, |old(field)|, values, i)
    {
      var n := |values|;
      var dst := AppendUninitialized(n);
      FromArray(values, dst);
      forall i: nat | i < |values| ensures Stored(numeric, field, |old(field)|, values, i) {
        EncodingStores(numeric, old(field), values, i);
      }
    }

    /** The field goes over the buffer as a sequence of real and imaginary parts. */
    method CopyParts(dst: array<Value>, ghost values: seq<Value>)
      requires numeric.IsComplex() && AllValid(numeric, values) && field == Encode(numeric, values)
      requires dst.Length >= |values| && forall i :: 0 <= i < dst.Length ==> dst[i].Complex?
      modifies dst
      ensures dst[..|values|] == values && dst[|values|..] == old(dst[|values|..])
    {
      for k := 0 to |field|
        invariant forall i :: 0 <= i < dst.Length ==> dst[i].Complex?
        invariant forall i: nat | i < |values| :: 2 * i < k ==> dst[i].re == values[i].re
        invariant forall i: nat | i < |values| :: 2 * i + 1 < k ==> dst[i].im == values[i].im
        invariant dst[|values|..] == old(dst[|values|..])
      {
        EncodeAt(numeric, values, k / 2);
        dst[k / 2] := if k % 2 == 0 then dst[k / 2].(re := field[k]) else dst[k / 2].(im := field[k]);
      }
    }

    /** Copies all values into `dst`, a buffer of values of the type. */
    method CopyValues(dst: array<Value>, ghost values: seq<Value>)
      requires AllValid(numeric, values) && field == Encode(numeric, values)
      requires dst.Length >= |values|
      requires forall i :: 0 <= i < dst.Length ==> (dst[i].Complex? <==> numeric.IsComplex())
      modifies dst
      ensures dst[..|values|] == values && dst[|values|..] == old(dst[|values|..])
    {
      if numeric.IsComplex() {
        CopyParts(dst, values);
      } else {
        for i := 0 to |field|
          invariant dst[..i] == values[..i]
          invariant dst[|values|..] == old(dst[|values|..])
        {
          EncodeAt(numeric, values, i);
          FieldRoundTrip(numeric, values[i].x);
          dst[i] := Plain(FromField(numeric, field[i]));
        }
      }
    }

    /** Keeps the first values; the field must not be shorter than that. */
    method Truncate(newSize: nat, ghost values: seq<Value>)
      requires AllValid(numeric, values) && field == Encode(numeric, values) && newSize <= |values|
      modifies this
      ensures field == Encode(numeric, values[..newSize])
    {
      var size := newSize;
      if numeric.IsComplex() {
        size := size * 2;
      }
      EncodePrefix(numeric, values, newSize);
      field := field[..size];
    }

    method AddBatches(batches: seq<seq<Value>>)
      requires forall i :: 0 <= i < |batches| ==> AllValid(numeric, batches[i])
      modifies this
      ensures AllValid(numeric, Concat(batches))
      ensures field == old(field) + Encode(numeric, Concat(batches))
    {
      for i := 0 to |batches|
        invariant AllValid(numeric, Concat(batches[..i]))
        invariant field == old(field) + Encode(numeric, Concat(batches[..i]))
      {
        ghost var before := field;
        AddValues(batches[i]);
        ConcatNext(batches, i);
        EncodeNext(numeric, Concat(batches[..i]), batches[i], old(field), before, field);
      }
      assert batches[..|batches|] == batches;
    }
  }

  /**
   * Whatever the type: what comes out after adding values batch by batch, and keeping the first
   * `keep` of them, is the beginning of the concatenation of the batches.
   */
  method AddAllThenCopy(numeric: NumericType, batches: seq<seq<Value>>, keep: nat) returns (count: nat, out: array<Value>)
    requires forall i :: 0 <= i < |batches| ==> AllValid(numeric, batches[i])
    requires keep <= |Concat(batches)|
    ensures count == keep && out[..] == Concat(batches)[..keep]
  {
    var proto := new TensorProto(numeric);
    proto.AddBatches(batches);
    proto.Truncate(keep, Concat(batches));
    ghost var kept := Concat(batches)[..keep];
    count := proto.NumValues(kept);
    out := new Value[count](_ => if numeric.IsComplex() then Complex(0, 0) else Plain(0));
    proto.CopyValues(out, kept);
    assert out[..] == out[..count];
  }
}
