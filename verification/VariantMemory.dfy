/**
 * The memory that a `tensorflow::Variant` manages by hand (variant.h): objects of type `Value<T>`
 * constructed by placement new, either in an inline buffer or in a block from `port::Malloc`,
 * and the union `HeapOrInline`, whose bytes are read as a heap pointer or as an `InlineValue`.
 *
 * The preconditions of the methods are the rules of C++ that the container has to respect: never
 * construct over a live object, never destroy or read a dead one, never free a block twice,
 * never clear bytes that still own an object, never read one member of the union through the
 * bytes of the other.
 */
module VariantMemory {
  import opened Wrappers

  /** What `Variant` can see of a decayed C++ type: its TypeIndex and the size and alignment of `Value<T>`. */
  datatype Type = Type(index: nat, size: nat, align: nat)

  const MAX_VALUE_SIZE: nat := 64 - 16
  const MAX_INLINE_ALIGN: nat := 8

  predicate CanInline(t: Type) {
    t.size <= MAX_VALUE_SIZE && t.align <= MAX_INLINE_ALIGN
  }

  /** A live `Value<T>`, as a client can observe it: its dynamic type and the `T` inside. */
  datatype Object = Object(ty: Type, val: int)

  ghost function Count(o: Option<Object>): nat {
    if o.Some? then 1 else 0
  }

  class Memory {
    /** The allocated blocks; a block holds an object from its construction to its destruction. */
    var heap: map<nat, Option<Object>>
    var nextBlock: nat
    ghost var constructed: nat
    ghost var destroyed: nat
    ghost var mallocs: nat
    ghost var frees: nat

    ghost predicate Valid()
      reads this
    {
      && (forall b <- heap :: b < nextBlock)
      && (forall b <- heap :: heap[b].Some? ==> !CanInline(heap[b].value.ty))
      && |heap.Keys| == mallocs - frees
    }

    /** Between two operations of the container no block is without its object. */
    ghost predicate Clean()
      reads this
    {
      Valid() && forall b <- heap :: heap[b].Some?
    }

    ghost function Live(): int
      reads this
    {
      constructed - destroyed
    }

    constructor ()
      ensures Clean() && heap == map[]
      ensures constructed == destroyed == mallocs == frees == 0
    {
      heap, nextBlock := map[], 0;
      constructed, destroyed, mallocs, frees := 0, 0, 0, 0;
    }

    /** `port::Malloc`. */
    method Malloc() returns (b: nat)
      requires Clean()
      modifies this`heap, this`nextBlock, this`mallocs
      ensures Valid() && b == old(nextBlock) && b !in old(heap) && heap == old(heap)[b := None]
      ensures nextBlock == old(nextBlock) + 1 && mallocs == old(mallocs) + 1
    {
      b := nextBlock;
      assert heap[b := None].Keys == heap.Keys + {b};
      heap := heap[b := None];
      nextBlock := nextBlock + 1;
      mallocs := mallocs + 1;
    }

    /** Placement new into a block, which must not hold an object already. */
    method NewInBlock(b: nat, o: Object)
      requires Valid() && b in heap && heap[b].None? && !CanInline(o.ty)
      modifies this`heap, this`constructed
      ensures Valid() && heap == old(heap)[b := Some(o)] && constructed == old(constructed) + 1
    {
      assert heap[b := Some(o)].Keys == heap.Keys;
      heap := heap[b := Some(o)];
      constructed := constructed + 1;
    }

    /**
     * `delete` of a heap `ValueInterface*`: the virtual destructor, then
     * `Value<T>::operator delete`, which frees the block when the type is not stored inline.
     */
    method DeleteBlock(b: nat)
      requires Valid() && b in heap && heap[b].Some?
      modifies this`heap, this`destroyed, this`frees
      ensures Valid() && heap == old(heap) - {b}
      ensures destroyed == old(destroyed) + 1 && frees == old(frees) + 1
    {
      var o := heap[b].value;
      destroyed := destroyed + 1;
      if !CanInline(o.ty) {
        assert (heap - {b}).Keys == heap.Keys - {b};
        heap := heap - {b};
        frees := frees + 1;
      }
    }
  }

  /**
   * What the bytes of the union are: all zero (which both members read as "no value"), a
   * non-null heap pointer, or an InlineValue with its `has_value` byte.
   */
  datatype Bytes = Zero | Pointer(block: nat) | InlineRep(hasValue: bool)

  class HeapOrInline {
    const mem: Memory
    var bytes: Bytes
    /** The object that lives in `value_data`. */
    var buffer: Option<Object>

    /** The bytes own exactly what they say they own. */
    ghost predicate Valid()
      reads this, mem
    {
      && mem.Clean()
      && (bytes == InlineRep(true) <==> buffer.Some?)
      && (buffer.Some? ==> CanInline(buffer.value.ty))
      && (bytes.Pointer? ==> bytes.block in mem.heap)
    }

    ghost predicate AsInline()
      reads this
    {
      !bytes.Pointer?
    }

    ghost predicate AsHeap()
      reads this
    {
      !bytes.InlineRep?
    }

    predicate HasValue()
      reads this
    {
      bytes == InlineRep(true)
    }

    constructor (mem: Memory)
      ensures this.mem == mem && bytes == Zero && buffer == None
    {
      this.mem := mem;
      bytes := Zero;
      buffer := None;
    }

    /** The memset. It must not be applied to bytes that still own an object. */
    method ResetMemory()
      requires buffer.None? && (bytes.Pointer? ==> bytes.block !in mem.heap)
      modifies this`bytes
      ensures bytes == Zero
    {
      bytes := Zero;
    }

    /** `heap_value = HeapValue(p)`: what was owned before is deleted. */
    method HeapReset(p: Option<nat>)
      requires mem.Valid() && AsHeap() && buffer.None?
      requires bytes.Pointer? ==> bytes.block in mem.heap && mem.heap[bytes.block].Some? && p != Some(bytes.block)
      modifies this`bytes, mem`heap, mem`destroyed, mem`frees
      ensures mem.Valid() && bytes == if p.Some? then Pointer(p.value) else Zero
      ensures mem.heap == if old(bytes).Pointer? then old(mem.heap) - {old(bytes).block} else old(mem.heap)
      ensures mem.Live() == old(mem.Live()) - if old(bytes).Pointer? then 1 else 0
      ensures old(bytes) == Zero ==> mem.frees == old(mem.frees)
    {
      if bytes.Pointer? {
        mem.DeleteBlock(bytes.block);
      }
      bytes := if p.Some? then Pointer(p.value) else Zero;
    }

    /** `std::move(heap_value)`: the pointer changes hands and null stays behind. */
    method HeapRelease() returns (p: Option<nat>)
      requires AsHeap()
      modifies this`bytes
      ensures bytes == Zero
      ensures p == if old(bytes).Pointer? then Some(old(bytes).block) else None
    {
      p := if bytes.Pointer? then Some(bytes.block) else None;
      bytes := Zero;
    }

    /** `~HeapValue()`: the object is deleted; the bytes are left as they are. */
    method HeapDestruct()
      requires Valid() && bytes.Pointer?
      modifies mem`heap, mem`destroyed, mem`frees
      ensures mem.Clean() && mem.heap == old(mem.heap) - {bytes.block}
      ensures mem.Live() == old(mem.Live()) - 1 && mem.frees == old(mem.frees) + 1
    {
      mem.DeleteBlock(bytes.block);
    }

    /**
     * Placement new into `value_data`, an array of 48 bytes at an address that is a multiple of 8. The
     * object must fit into it, and the array must not hold an object already.
     */
    method NewInBuffer(o: Object)
      requires buffer.None? && o.ty.size <= 48 && o.ty.align <= 8
      modifies this`buffer, mem`constructed
      ensures buffer == Some(o) && mem.constructed == old(mem.constructed) + 1
    {
      buffer := Some(o);
      mem.constructed := mem.constructed + 1;
    }

    /** `InlineValue::Cleanup`, a no-op on bytes that are all zero. */
    method Cleanup()
      requires Valid() && AsInline()
      modifies this, mem`destroyed
      ensures Valid() && AsInline() && buffer == None
      ensures old(bytes) == Zero ==> bytes == Zero
      ensures mem.destroyed == old(mem.destroyed + Count(buffer))
    {
      if HasValue() {
        buffer := None;
        mem.destroyed := mem.destroyed + 1;
        bytes := InlineRep(false);
      }
    }

    /**
     * `other.AsValueInterface()->MoveInto(AsValueInterface())`: a new object here, and a
     * moved-from object, whose value may be anything, over there.
     */
    method MoveInto(other: HeapOrInline)
      requires buffer.None? && other.Valid() && other.HasValue() && other.mem == mem
      modifies this`buffer, other`buffer, mem`constructed
      ensures buffer == old(other.buffer) && mem.constructed == old(mem.constructed) + 1
      ensures other.buffer.Some? && other.buffer.value.ty == old(other.buffer).value.ty
    {
      var source := other.buffer.value;
      var leftover: int := *;
      other.buffer := Some(source.(val := leftover));
      NewInBuffer(source);
    }

    /** `value.inline_value = InlineValue();` on bytes that are all zero changes nothing. */
    method AssignEmptyInline()
      requires Valid() && bytes == Zero
      modifies this, mem`constructed, mem`destroyed
      ensures Valid() && bytes == Zero && buffer == None && mem.Live() == old(mem.Live())
    {
      var none := new HeapOrInline(mem);
      InlineMoveAssign(none);
    }

    /** Construct the object in a new block and own it: `InsertValue*` and `Clone` on the heap. */
    method NewOnHeap(o: Object)
      requires Valid() && bytes == Zero && !CanInline(o.ty)
      modifies this`bytes, mem
      ensures Valid() && bytes == Pointer(old(mem.nextBlock))
      ensures old(mem.nextBlock) !in old(mem.heap) && mem.heap == old(mem.heap)[old(mem.nextBlock) := Some(o)]
      ensures mem.Live() == old(mem.Live()) + 1
    {
      var b := mem.Malloc();
      mem.NewInBlock(b, o);
      HeapReset(Some(b));
    }

    /** `InlineValue(InlineValue&&)` on raw storage. */
    method InlineMoveConstruct(other: HeapOrInline)
      requires Valid() && bytes == Zero
      requires other.Valid() && other.AsInline() && other.mem == mem && other != this
      modifies this, other, mem`constructed, mem`destroyed
      ensures Valid() && AsInline() && other.Valid() && other.AsInline()
      ensures buffer == old(other.buffer) && other.buffer == None && mem.Live() == old(mem.Live())
    {
      if other.HasValue() {
        MoveInto(other);
        bytes := InlineRep(true);
        other.Cleanup();
      }
    }

    /**
     * `InlineValue& operator=(InlineValue&&)`. A value of the same type on both sides is swapped
     * and stays on both sides; otherwise the value moves over and the old one is destroyed.
     */
    method InlineMoveAssign(other: HeapOrInline)
      requires Valid() && AsInline() && other.Valid() && other.AsInline() && other.mem == mem
      modifies this, other, mem`constructed, mem`destroyed
      ensures Valid() && AsInline() && other.Valid() && other.AsInline()
      ensures buffer == old(other.buffer)
      ensures other == this ==> bytes == old(bytes) && mem.Live() == old(mem.Live())
      ensures old(bytes) == Zero && old(other.buffer) == None ==> bytes == Zero
      ensures other != this ==>
        if old(buffer.Some? && other.buffer.Some? && buffer.value.ty == other.buffer.value.ty) then
          other.buffer == old(buffer) && mem.Live() == old(mem.Live())
        else
          other.buffer == None && mem.Live() == old(mem.Live() - Count(buffer))
    {
      if other == this { return; }
      if other.HasValue() {
        if HasValue() && buffer.value.ty == other.buffer.value.ty {
          buffer, other.buffer := other.buffer, buffer;
        } else {
          if HasValue() {
            if buffer.value.ty != other.buffer.value.ty {
              Cleanup();
              MoveInto(other);
            } else {
              assert false;  // the MoveAssign branch
            }
          } else {
            MoveInto(other);
          }
          bytes := InlineRep(true);
          other.Cleanup();
        }
      } else {
        Cleanup();
      }
    }

    /**
     * The move assignment as Variant uses it: into an InlineValue without a value. Neither its
     * swapping branch nor the one that cleans up an old value is reached from Variant.
     */
    method InlineMoveFill(other: HeapOrInline)
      requires Valid() && AsInline() && !HasValue() && other.Valid() && other.AsInline() && other.mem == mem
      modifies this, other, mem`constructed, mem`destroyed
      ensures Valid() && AsInline() && other.Valid() && other.AsInline()
      ensures buffer == old(other.buffer) && other.buffer == None && mem.Live() == old(mem.Live())
    {
      InlineMoveAssign(other);
    }

    /** `std::swap` of two InlineValues: through a temporary, as the standard library does. */
    method InlineSwap(other: HeapOrInline)
      requires Valid() && HasValue() && other.Valid() && other.HasValue() && other.mem == mem
      modifies this, other, mem`constructed, mem`destroyed
      ensures Valid() && HasValue() && other.Valid() && other.HasValue()
      ensures buffer == old(other.buffer) && other.buffer == old(buffer) && mem.Live() == old(mem.Live())
    {
      var temporary := new HeapOrInline(mem);
      temporary.InlineMoveConstruct(this);
      this.InlineMoveFill(other);
      other.InlineMoveFill(temporary);
      temporary.Cleanup();
    }

    /** `std::swap` of two `HeapValue`s. */
    method HeapSwap(other: HeapOrInline)
      requires Valid() && AsHeap() && other.Valid() && other.AsHeap() && other.mem == mem
      requires other != this && bytes.Pointer? ==> other.bytes != bytes
      modifies this`bytes, other`bytes, mem`heap, mem`destroyed, mem`frees
      ensures bytes == old(other.bytes) && other.bytes == old(bytes)
      ensures mem.Clean() && mem.heap == old(mem.heap) && mem.Live() == old(mem.Live()) && mem.frees == old(mem.frees)
    {
      var temporary := HeapRelease();
      var theirs := other.HeapRelease();
      HeapReset(theirs);
      other.HeapReset(temporary);
    }

    /**
     * What `Variant::swap` does to move an inline value over: clear these bytes, move, clear the
     * other bytes and give them the heap pointer `p`, null or not.
     */
    method TakeInline(other: HeapOrInline, p: Option<nat>)
      requires Valid() && bytes == Zero && (p.Some? ==> p.value in mem.heap)
      requires other.Valid() && other.AsInline() && other.HasValue() && other.mem == mem
      modifies this, other, mem`heap, mem`constructed, mem`destroyed, mem`frees
      ensures Valid() && HasValue() && other.Valid() && buffer == old(other.buffer)
      ensures other.bytes == if p.Some? then Pointer(p.value) else Zero
      ensures mem.heap == old(mem.heap) && mem.Live() == old(mem.Live()) && mem.frees == old(mem.frees)
    {
      ResetMemory();
      InlineMoveFill(other);
      other.ResetMemory();
      other.HeapReset(p);
    }

    /** The four statements with which `Variant::swap` moves a heap pointer into an empty union. */
    method TakeHeap(other: HeapOrInline)
      requires Valid() && bytes == Zero
      requires other.Valid() && other.AsHeap() && other.mem == mem
      modifies this, other, mem`heap, mem`destroyed, mem`frees
      ensures Valid() && bytes == old(other.bytes) && other.Valid() && (other != this ==> other.bytes == Zero)
      ensures buffer == None && other.buffer == None
      ensures mem.heap == old(mem.heap) && mem.Live() == old(mem.Live()) && mem.frees == old(mem.frees)
    {
      ResetMemory();
      var p := other.HeapRelease();
      HeapReset(p);
      other.ResetMemory();
      other.HeapReset(None);
    }
  }
}
