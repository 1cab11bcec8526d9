/** `tensorflow::Variant` (variant.h), on top of its union. */
module VariantContainer {
  import opened Wrappers
  import opened VariantMemory

  type Heap = map<nat, Option<Object>>

  /** The whole state of one Variant. */
  datatype Rep = Rep(isInline: bool, bytes: Bytes, buffer: Option<Object>) {
    function Block(): Option<nat> {
      if bytes.Pointer? then Some(bytes.block) else None
    }

    /** The state is meaningful over the given heap. */
    ghost predicate Valid(heap: Heap) {
      && (bytes == InlineRep(true) <==> buffer.Some?)
      && (buffer.Some? ==> CanInline(buffer.value.ty))
      && (bytes.Pointer? ==> bytes.block in heap && heap[bytes.block].Some? && !CanInline(heap[bytes.block].value.ty))
      && isInline == (bytes == InlineRep(true))
      && (!isInline ==> !bytes.InlineRep?)
    }

    /** The abstract value: nothing, or one typed object. */
    function Value(heap: Heap): Option<Object> {
      if isInline then buffer
      else if bytes.Pointer? && bytes.block in heap then heap[bytes.block]
      else None
    }
  }

  /** `heap'` is `heap` but for the block `gone`, which is freed, and the block `come`, which is new. */
  ghost predicate Changed(heap: Heap, gone: Option<nat>, come: Option<nat>, heap': Heap) {
    && (forall b :: b in heap' <==> (b in heap && gone != Some(b)) || come == Some(b))
    && (come.Some? ==> come.value !in heap || come == gone)
    && (forall b :: b in heap && gone != Some(b) ==> heap'[b] == heap[b])
  }

  class Variant {
    const mem: Memory
    const store: HeapOrInline
    var isInline: bool

    function State(): Rep
      reads this, store
    {
      Rep(isInline, store.bytes, store.buffer)
    }

    /** `is_inline_` is set exactly when the InlineValue in the bytes has its `has_value` byte set. */
    ghost predicate Valid()
      reads this, store, mem
    {
      store.mem == mem && mem.Clean() && State().Valid(mem.heap)
    }

    /** The heap block this Variant owns. */
    function Block(): Option<nat>
      reads this, store
    {
      State().Block()
    }

    /** `GetValue() == nullptr` */
    predicate IsEmpty()
      reads this, store
    {
      !isInline && !store.bytes.Pointer?
    }

    function Value(): Option<Object>
      requires Valid()
      reads this, store, mem
    {
      State().Value(mem.heap)
    }

    ghost predicate ApartFrom(other: Variant)
      reads this, store, other, other.store
    {
      && store != other.store
      && (Block().Some? ==> other.Block() != Block())
    }

    /** `get<T>()`: the stored object when its type is T, and null otherwise. */
    method Get(ty: Type) returns (p: Option<Object>)
      requires Valid()
      ensures p.Some? <==> Value().Some? && Value().value.ty == ty
      ensures p.Some? ==> p == Value()
    {
      if IsEmpty() || Value().value.ty != ty {
        p := None;
      } else {
        p := Value();
      }
    }

    constructor Empty(mem: Memory)
      requires mem.Clean()
      ensures this.mem == mem && fresh(store) && Valid() && Value() == None
    {
      this.mem := mem;
      store := new HeapOrInline(mem);
      isInline := false;
    }

    /** `Variant(T&&)` and `Variant(const T&)`. */
    constructor FromValue(mem: Memory, o: Object)
      requires mem.Clean()
      modifies mem
      ensures this.mem == mem && fresh(store) && Valid() && Value() == Some(o)
      ensures Block().Some? <==> o.ty.size > 48 || o.ty.align > 8
      ensures Changed(old(mem.heap), None, Block(), mem.heap)
      ensures mem.Live() == old(mem.Live()) + 1
    {
      this.mem := mem;
      store := new HeapOrInline(mem);
      isInline := CanInline(o.ty);
      new;
      InsertValue(o);
    }

    /** `InsertValueMove` and `InsertValueCopy`: on construction, or after `clear()`. */
    method InsertValue(o: Object)
      requires store.mem == mem && mem.Clean() && store.bytes == Zero && store.buffer == None
      requires isInline == CanInline(o.ty)
      modifies store, mem
      ensures Valid() && Value() == Some(o)
      ensures Block().Some? <==> !CanInline(o.ty)
      ensures Changed(old(mem.heap), None, Block(), mem.heap)
      ensures Block().Some? ==> Block().value == old(mem.nextBlock)
      ensures mem.Live() == old(mem.Live()) + 1
    {
      if isInline {
        store.NewInBuffer(o);
        store.bytes := InlineRep(true);
      } else {
        store.NewOnHeap(o);
      }
    }

    constructor Copy(other: Variant)
      requires other.Valid()
      modifies other.mem
      ensures mem == other.mem && fresh(store) && Valid() && other.Valid()
      ensures Value() == other.Value() == old(other.Value())
      ensures Block().Some? <==> other.Block().Some?
      ensures Changed(old(other.mem.heap), None, Block(), mem.heap)
      ensures mem.Live() == old(other.mem.Live()) + Count(Value())
    {
      mem := other.mem;
      store := new HeapOrInline(other.mem);
      isInline := other.isInline;
      new;
      if !other.IsEmpty() {
        if other.isInline {
          store.AssignEmptyInline();
          store.NewInBuffer(other.Value().value);
          store.bytes := InlineRep(true);
        } else {
          store.NewOnHeap(other.Value().value);
          isInline := false;
        }
      }
    }

    /** The moved-from Variant is empty exactly when it was not inline. */
    constructor Move(other: Variant)
      requires other.Valid()
      modifies other, other.store, other.mem
      ensures mem == other.mem && fresh(store) && Valid() && other.Valid()
      ensures Value() == old(other.Value()) && Block() == old(other.Block())
      ensures other.IsEmpty() <==> !old(other.isInline)
      ensures other.Block() == None
      ensures old(other.isInline) ==> other.Value().Some? && other.Value().value.ty == old(other.Value()).value.ty
      ensures mem.heap == old(other.mem.heap) && mem.Live() == old(other.mem.Live()) + Count(other.Value())
    {
      mem := other.mem;
      store := new HeapOrInline(other.mem);
      isInline := other.isInline;
      new;
      if !other.IsEmpty() {
        if other.isInline {
          store.AssignEmptyInline();
          store.MoveInto(other.store);
          store.bytes := InlineRep(true);
        } else {
          var p := other.store.HeapRelease();
          store.HeapReset(p);
          isInline := false;
        }
      }
    }

    /** `clear()`, and with it the destructor. */
    method Clear()
      requires Valid()
      modifies this, store, mem`heap, mem`destroyed, mem`frees
      ensures Valid() && Value() == None && IsEmpty() && store.bytes == Zero
      ensures Changed(old(mem.heap), old(Block()), None, mem.heap)
      ensures mem.Live() == old(mem.Live() - Count(Value()))
    {
      if !IsEmpty() {
        if isInline {
          store.Cleanup();
        } else {
          store.HeapDestruct();
        }
        store.ResetMemory();
      }
      isInline := false;
    }

    /** All the branches exchange the two values, without allocating anything. */
    method Swap(other: Variant)
      requires Valid() && other.Valid() && other.mem == mem
      requires other != this ==> ApartFrom(other)
      modifies this, store, other, other.store, mem`heap, mem`constructed, mem`destroyed, mem`frees
      ensures Valid() && other.Valid()
      ensures Value() == old(other.Value()) && other.Value() == old(Value())
      ensures Block() == old(other.Block()) && other.Block() == old(Block())
      ensures mem.heap == old(mem.heap) && mem.frees == old(mem.frees) && mem.Live() == old(mem.Live())
    {
      if IsEmpty() {
        if other.isInline {
          store.TakeInline(other.store, None);
          isInline := true;
          other.isInline := false;
        } else {
          store.TakeHeap(other.store);
          isInline := false;
          other.isInline := false;
        }
      } else if other.IsEmpty() {
        if isInline {
          other.store.TakeInline(store, None);
          other.isInline := true;
          isInline := false;
        } else {
          other.store.TakeHeap(store);
          other.isInline := false;
          isInline := false;
        }
      } else {
        if other.isInline && isInline {
          store.InlineSwap(other.store);
        } else if !other.isInline && !isInline {
          store.HeapSwap(other.store);
        } else if other.isInline && !isInline {
          var v := store.HeapRelease();
          store.TakeInline(other.store, v);
          isInline := true;
          other.isInline := false;
        } else {
          var v := other.store.HeapRelease();
          other.store.TakeInline(store, v);
          isInline := false;
          other.isInline := true;
        }
      }
    }

    /** `operator=(T&&)` and `operator=(const T&)`, of a value that is not the stored object itself. */
    method AssignValue(o: Object)
      requires Valid()
      modifies this, store, mem
      ensures Valid() && Value() == Some(o)
      ensures Changed(old(mem.heap), old(Block()), Block(), mem.heap)
      ensures Block().Some? ==> Block().value !in old(mem.heap)
      ensures mem.Live() == old(mem.Live() - Count(Value())) + 1
    {
      Clear();
      isInline := CanInline(o.ty);
      InsertValue(o);
    }

    /** `operator=(const Variant&)`: a copy is swapped in, and what was here is destroyed with the temporary. */
    method AssignCopy(rhs: Variant)
      requires Valid() && rhs.Valid() && rhs.mem == mem && (rhs != this ==> ApartFrom(rhs))
      modifies this, store, mem
      ensures Valid() && Value() == old(rhs.Value())
      ensures rhs.Valid() && rhs.Value() == old(rhs.Value()) && rhs.Block() == (if rhs == this then Block() else old(rhs.Block()))
      ensures Changed(old(mem.heap), old(Block()), Block(), mem.heap)
      ensures mem.Live() == old(mem.Live() - Count(Value())) + Count(Value())
    {
      if rhs == this { return; }
      var temporary := new Variant.Copy(rhs);
      temporary.Swap(this);
      temporary.Clear();
    }

    /** `operator=(Variant&&)`: the moved value is swapped in, and what was here is destroyed. */
    method AssignMove(rhs: Variant)
      requires Valid() && rhs.Valid() && rhs.mem == mem && (rhs != this ==> ApartFrom(rhs))
      modifies this, store, rhs, rhs.store, mem
      ensures Valid() && rhs.Valid() && Value() == old(rhs.Value()) && Block() == old(rhs.Block())
      ensures rhs == this ==> mem.heap == old(mem.heap) && mem.Live() == old(mem.Live())
      ensures rhs != this ==>
        && (rhs.IsEmpty() <==> !old(rhs.isInline)) && rhs.Block() == None
        && (old(rhs.isInline) ==> rhs.Value().Some? && rhs.Value().value.ty == old(rhs.Value()).value.ty)
        && Changed(old(mem.heap), old(Block()), None, mem.heap)
        && mem.Live() == old(mem.Live() - Count(Value())) + Count(rhs.Value())
    {
      if rhs == this { return; }
      var temporary := new Variant.Move(rhs);
      temporary.Swap(this);
      temporary.Clear();
    }
  }
}
