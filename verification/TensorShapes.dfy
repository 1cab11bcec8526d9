/**
 * `TensorShapeRep` (framework/tensor_shape.h): sixteen bytes and an element count, where the bytes hold
 * small dimensions or a pointer to a vector of dimensions that the shape owns. `SlowCopyFrom` and
 * `DestructorOutOfLine`, which are only declared there, are modelled by what they are for.
 */
module TensorShapes {
  import opened Wrappers

  datatype Tag = REP16 | REP32 | OUT_OF_LINE

  /** Bytes 0 to 12: dimensions, or a pointer. */
  datatype Payload = Words(words: seq<int>) | Pointer(vector: nat)

  /** The data type in byte 13, the number of dimensions in byte 14, and the tag in byte 15. */
  datatype Rep = Rep(numElements: int, payload: Payload, dtype: nat, ndims: nat, tag: Tag) {
    /** The vector that the shape owns. */
    function Vector(): Option<nat> {
      if tag.OUT_OF_LINE? && payload.Pointer? then Some(payload.vector) else None
    }

    ghost predicate Valid(vectors: Vectors) {
      tag.OUT_OF_LINE? ==> payload.Pointer? && payload.vector in vectors.live
    }

    /** The shape that is represented. */
    ghost function Shape(vectors: Vectors): (int, nat, nat, seq<int>)
      requires Valid(vectors)
    {
      (numElements, dtype, ndims,
       if tag.OUT_OF_LINE? then vectors.live[payload.vector] else if payload.Words? then payload.words else [])
    }
  }

  /** The vectors of dimensions on the heap; they are numbered as they are made. */
  datatype Vectors = Vectors(live: map<nat, seq<int>>, made: nat, freed: nat) {
    ghost predicate Valid() {
      && (forall v <- live :: v < made)
      && freed <= made && |live| == made - freed
    }

    function New(dims: seq<int>): Vectors {
      Vectors(live[made := dims], made + 1, freed)
    }

    function Delete(v: nat): Vectors {
      Vectors(live - {v}, made, freed + 1)
    }

    function Set(v: nat, dims: seq<int>): Vectors {
      this.(live := live[v := dims])
    }
  }

  lemma NewValid(vectors: Vectors, dims: seq<int>)
    requires vectors.Valid()
    ensures vectors.New(dims).Valid() && vectors.made !in vectors.live
  {
  }

  lemma DeleteValid(vectors: Vectors, v: nat)
    requires vectors.Valid() && v in vectors.live
    ensures vectors.Delete(v).Valid()
  {
    assert vectors.live.Keys == vectors.Delete(v).live.Keys + {v};
  }

  // ---- The operations, on values ----

  ghost function Destroyed(a: Rep, vectors: Vectors): Vectors {
    if a.Vector().Some? then vectors.Delete(a.Vector().value) else vectors
  }

  ghost function Copied(b: Rep, vectors: Vectors): (Rep, Vectors)
    requires b.Valid(vectors)
  {
    if b.tag.OUT_OF_LINE? then (b.(payload := Pointer(vectors.made)), vectors.New(vectors.live[b.payload.vector]))
    else (b, vectors)
  }

  /** Assigning to a shape that owns a vector reuses or frees it. */
  ghost function Assigned(a: Rep, b: Rep, vectors: Vectors): (Rep, Vectors)
    requires a.Valid(vectors) && b.Valid(vectors)
  {
    if a.tag.OUT_OF_LINE? && b.tag.OUT_OF_LINE? then
      (b.(payload := a.payload), vectors.Set(a.payload.vector, vectors.live[b.payload.vector]))
    else if b.tag.OUT_OF_LINE? then Copied(b, vectors)
    else (b, Destroyed(a, vectors))
  }

  ghost function MovedFrom(b: Rep): Rep {
    b.(tag := REP16)
  }

  // ---- The code ----

  class Memory {
    var vectors: Vectors
    var buffers: Buffers

    constructor ()
      ensures vectors == Vectors(map[], 0, 0) && buffers == Buffers(map[], 0, 0)
    {
      vectors, buffers := Vectors(map[], 0, 0), Buffers(map[], 0, 0);
    }
  }

  /** The tensor buffers with their reference counts; they are numbered as they are made. */
  datatype Buffers = Buffers(counts: map<nat, nat>, made: nat, freed: nat) {
    ghost predicate Valid() {
      && (forall b <- counts :: b < made)
      && freed <= made && |counts| == made - freed
    }

    function New(): Buffers {
      Buffers(counts[made := 1], made + 1, freed)
    }

    function Ref(b: nat): Buffers {
      if b in counts then this.(counts := counts[b := counts[b] + 1]) else this
    }

    /** The last reference deletes the buffer. */
    function Unref(b: nat): Buffers {
      if b !in counts then this
      else if counts[b] <= 1 then Buffers(counts - {b}, made, freed + 1)
      else this.(counts := counts[b := counts[b] - 1])
    }
  }

  class TensorShapeRep {
    var numElements: int
    var payload: Payload
    var dtype: nat
    var ndims: nat
    var tag: Tag

    function TheRep(): Rep
      reads this
    {
      Rep(numElements, payload, dtype, ndims, tag)
    }

    /** `memcpy` of all sixteen bytes. */
    method CopyBytes(b: TensorShapeRep)
      modifies this
      ensures TheRep() == old(b.TheRep()).(numElements := old(numElements))
    {
      payload, dtype, ndims, tag := b.payload, b.dtype, b.ndims, b.tag;
    }

    /** A shape made in place, with its own vector if the dimensions do not fit. */
    constructor Make(memory: Memory, rep: Rep, dims: seq<int>)
      requires rep.tag.OUT_OF_LINE? ==> rep.payload == Pointer(memory.vectors.made)
      modifies memory`vectors
      ensures TheRep() == rep
      ensures memory.vectors == if rep.tag.OUT_OF_LINE? then old(memory.vectors).New(dims) else old(memory.vectors)
    {
      numElements, payload, dtype, ndims, tag := rep.numElements, rep.payload, rep.dtype, rep.ndims, rep.tag;
      new;
      if tag.OUT_OF_LINE? {
        memory.vectors := memory.vectors.New(dims);
      }
    }

    constructor Copy(memory: Memory, b: TensorShapeRep)
      requires b.TheRep().Valid(memory.vectors)
      modifies memory`vectors
      ensures (TheRep(), memory.vectors) == old(Copied(b.TheRep(), memory.vectors))
    {
      numElements := b.numElements;
      payload, dtype, ndims, tag := Words([]), 0, 0, REP16;
      new;
      if b.tag != OUT_OF_LINE {
        CopyBytes(b);
      } else {
        tag := REP16;
        SlowCopyFrom(memory, b);
      }
    }

    /** The moved-from shape no longer owns a vector. */
    constructor Move(b: TensorShapeRep)
      modifies b
      ensures TheRep() == old(b.TheRep()) && b.TheRep() == MovedFrom(old(b.TheRep()))
    {
      numElements := b.numElements;
      payload, dtype, ndims, tag := b.payload, b.dtype, b.ndims, b.tag;
      new;
      b.tag := REP16;
    }

    method Destroy(memory: Memory)
      modifies memory`vectors
      ensures memory.vectors == Destroyed(TheRep(), old(memory.vectors))
    {
      if tag == OUT_OF_LINE {
        DestructorOutOfLine(memory);
      }
    }

    method DestructorOutOfLine(memory: Memory)
      modifies memory`vectors
      ensures memory.vectors == Destroyed(TheRep(), old(memory.vectors))
    {
      if tag.OUT_OF_LINE? && payload.Pointer? {
        memory.vectors := memory.vectors.Delete(payload.vector);
      }
    }

    /** Everything but the element count, with a vector of its own if `b` has one. */
    method SlowCopyFrom(memory: Memory, b: TensorShapeRep)
      requires TheRep().Valid(memory.vectors) && b.TheRep().Valid(memory.vectors)
      modifies this, memory`vectors
      ensures (TheRep(), memory.vectors)
           == old((Assigned(TheRep(), b.TheRep(), memory.vectors).0.(numElements := numElements),
                   Assigned(TheRep(), b.TheRep(), memory.vectors).1))
    {
      if b.tag != OUT_OF_LINE {
        if tag == OUT_OF_LINE {
          DestructorOutOfLine(memory);
        }
        CopyBytes(b);
      } else {
        var dims := memory.vectors.live[b.payload.vector];
        dtype, ndims := b.dtype, b.ndims;
        if tag == OUT_OF_LINE {
          memory.vectors := memory.vectors.Set(payload.vector, dims);
        } else {
          tag, payload := OUT_OF_LINE, Pointer(memory.vectors.made);
          memory.vectors := memory.vectors.New(dims);
        }
      }
    }

    method AssignCopy(memory: Memory, b: TensorShapeRep)
      requires TheRep().Valid(memory.vectors) && b.TheRep().Valid(memory.vectors)
      modifies this, memory`vectors
      ensures (TheRep(), memory.vectors) == old(Assigned(TheRep(), b.TheRep(), memory.vectors))
    {
      numElements := b.numElements;
      if tag != OUT_OF_LINE && b.tag != OUT_OF_LINE {
        CopyBytes(b);
      } else {
        SlowCopyFrom(memory, b);
      }
    }

    /** From the shape itself, the vector is freed and the value lost, and nothing dangles. */
    method AssignMove(memory: Memory, b: TensorShapeRep)
      modifies this, b, memory`vectors
      ensures b != this ==> TheRep() == old(b.TheRep())
      ensures b.TheRep() == MovedFrom(old(b.TheRep())) && b.TheRep().Vector() == None
      ensures memory.vectors == old(Destroyed(TheRep(), memory.vectors))
    {
      if tag == OUT_OF_LINE {
        DestructorOutOfLine(memory);
      }
      numElements := b.numElements;
      CopyBytes(b);
      b.tag := REP16;
    }
  }
}
