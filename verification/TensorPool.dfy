/**
 * Tensors as objects (framework/tensor.h), and a pool of them on which a client performs any sequence
 * of operations. `CopyFromInternal` and the destructor, which are only declared there, are modelled
 * by what they are for.
 */
module TensorPool {
  import opened Wrappers
  import opened TensorShapes
  import opened TensorOwnership

  class Tensor {
    const shape: TensorShapeRep
    var buf: Option<nat>

    function TheCell(): Cell
      reads this, shape
    {
      Cell(shape.TheRep(), buf)
    }

    constructor Make(memory: Memory, rep: Rep, dims: seq<int>)
      requires rep.tag.OUT_OF_LINE? ==> rep.payload == Pointer(memory.vectors.made)
      modifies memory
      ensures fresh(shape) && TheCell() == Cell(rep, Some(old(memory.buffers.made)))
      ensures memory.vectors == if rep.tag.OUT_OF_LINE? then old(memory.vectors).New(dims) else old(memory.vectors)
      ensures memory.buffers == old(memory.buffers).New()
    {
      var s := new TensorShapeRep.Make(memory, rep, dims);
      shape := s;
      buf := Some(memory.buffers.made);
      new;
      memory.buffers := memory.buffers.New();
    }

    constructor Copy(memory: Memory, other: Tensor)
      requires other.shape.TheRep().Valid(memory.vectors)
      modifies memory
      ensures fresh(shape) && memory.buffers == RefIf(old(memory.buffers), old(other.buf))
      ensures (TheCell(), memory.vectors)
           == old((Cell(Copied(other.shape.TheRep(), memory.vectors).0, other.buf), Copied(other.shape.TheRep(), memory.vectors).1))
    {
      var s := new TensorShapeRep.Copy(memory, other.shape);
      shape := s;
      buf := other.buf;
      new;
      if buf.Some? {
        memory.buffers := memory.buffers.Ref(buf.value);
      }
    }

    /** `shape()` of the other tensor is const, so `std::move` of it still selects the copy constructor. */
    constructor Move(memory: Memory, other: Tensor)
      requires other.shape.TheRep().Valid(memory.vectors)
      modifies memory`vectors, other
      ensures fresh(shape) && other.buf == None
      ensures (TheCell(), memory.vectors)
           == old((Cell(Copied(other.shape.TheRep(), memory.vectors).0, other.buf), Copied(other.shape.TheRep(), memory.vectors).1))
    {
      var s := new TensorShapeRep.Copy(memory, other.shape);
      shape := s;
      buf := other.buf;
      new;
      other.buf := None;
    }

    method AssignCopy(memory: Memory, other: Tensor)
      requires shape.TheRep().Valid(memory.vectors) && other.shape.TheRep().Valid(memory.vectors)
      modifies this, shape, memory
      ensures (TheCell(), memory.vectors)
           == old((Cell(Assigned(shape.TheRep(), other.shape.TheRep(), memory.vectors).0, other.buf),
                   Assigned(shape.TheRep(), other.shape.TheRep(), memory.vectors).1))
      ensures memory.buffers == old(if buf == other.buf then memory.buffers else RefIf(UnrefIf(memory.buffers, buf), other.buf))
    {
      shape.AssignCopy(memory, other.shape);
      if buf != other.buf {
        if buf.Some? {
          memory.buffers := memory.buffers.Unref(buf.value);
        }
        buf := other.buf;
        if buf.Some? {
          memory.buffers := memory.buffers.Ref(buf.value);
        }
      }
    }

    /** Nothing happens on self-assignment. */
    method AssignMove(memory: Memory, other: Tensor)
      requires other != this ==> other.shape != shape
      modifies this, shape, other, other.shape, memory
      ensures other == this ==> TheCell() == old(TheCell()) && memory.vectors == old(memory.vectors) && memory.buffers == old(memory.buffers)
      ensures other != this ==>
        && TheCell() == old(other.TheCell())
        && other.TheCell() == Cell(MovedFrom(old(other.shape.TheRep())), None)
        && memory.vectors == old(Destroyed(shape.TheRep(), memory.vectors))
        && memory.buffers == old(UnrefIf(memory.buffers, buf))
    {
      if other != this {
        shape.AssignMove(memory, other.shape);
        if buf.Some? {
          memory.buffers := memory.buffers.Unref(buf.value);
        }
        buf := other.buf;
        other.buf := None;
      }
    }

    method Destroy(memory: Memory)
      modifies memory
      ensures memory.vectors == Destroyed(shape.TheRep(), old(memory.vectors))
      ensures memory.buffers == UnrefIf(old(memory.buffers), buf)
    {
      if buf.Some? {
        memory.buffers := memory.buffers.Unref(buf.value);
      }
      shape.Destroy(memory);
    }
  }

  class Pool {
    const memory: Memory
    var tensors: seq<Tensor>

    ghost predicate Distinct()
      reads this
    {
      forall i: nat, j: nat | i < j < |tensors| :: tensors[i] != tensors[j] && tensors[i].shape != tensors[j].shape
    }

    ghost function Objects(): set<object>
      reads this
    {
      (set t <- tensors :: t as object) + (set t <- tensors :: t.shape as object)
    }

    lemma InObjects(i: nat)
      requires i < |tensors|
      ensures tensors[i] in Objects() && tensors[i].shape in Objects()
    {
      var t := tensors[i];
      assert t in tensors;
      assert t as object in (set u <- tensors :: u as object) && t.shape as object in (set u <- tensors :: u.shape as object);
    }

    ghost function Cells(): (cells: seq<Cell>)
      reads this, Objects()
      ensures |cells| == |tensors| && forall i :: 0 <= i < |cells| ==> cells[i] == tensors[i].TheCell()
    {
      seq(|tensors|, i requires 0 <= i < |tensors| reads this, Objects() => assert tensors[i] in tensors; tensors[i].TheCell())
    }

    ghost function State(): System
      reads this, memory, Objects()
    {
      System(Cells(), memory.vectors, memory.buffers)
    }

    constructor ()
      ensures Distinct() && State() == System([], Vectors(map[], 0, 0), Buffers(map[], 0, 0))
      ensures fresh(memory)
    {
      memory := new Memory();
      tensors := [];
    }

    method DoMake(rep: Rep, dims: seq<int>)
      requires Distinct() && AllValid(State()) && Applicable(State(), Make(rep, dims))
      modifies this, memory, Objects()
      ensures Distinct() && State() == Step(old(State()), Make(rep, dims))
      ensures fresh(Objects() - old(Objects()))
    {
      ghost var before := Cells();
      var t := new Tensor.Make(memory, rep, dims);
      tensors := tensors + [t];
      assert Cells() == before + [t.TheCell()];
    }

    method DoMakeCopy(i: nat)
      requires Distinct() && AllValid(State()) && i < |tensors|
      modifies this, memory, Objects()
      ensures Distinct() && State() == Step(old(State()), MakeCopy(i))
      ensures fresh(Objects() - old(Objects()))
    {
      ghost var before := Cells();
      assert before[i].rep.Valid(memory.vectors);
      var t := new Tensor.Copy(memory, tensors[i]);
      tensors := tensors + [t];
      assert Cells() == before + [t.TheCell()];
    }

    method DoMakeMove(i: nat)
      requires Distinct() && AllValid(State()) && i < |tensors|
      modifies this, memory, Objects()
      ensures Distinct() && State() == Step(old(State()), MakeMove(i))
      ensures fresh(Objects() - old(Objects()))
    {
      ghost var before := Cells();
      assert before[i].rep.Valid(memory.vectors);
      InObjects(i);
      var t := new Tensor.Move(memory, tensors[i]);
      tensors := tensors + [t];
      assert Cells() == before[i := before[i].(buf := None)] + [t.TheCell()];
    }

    method DoAssignCopy(i: nat, j: nat)
      requires Distinct() && AllValid(State()) && i < |tensors| && j < |tensors|
      modifies this, memory, Objects()
      ensures Distinct() && State() == Step(old(State()), AssignCopy(i, j))
      ensures fresh(Objects() - old(Objects()))
    {
      ghost var before := Cells();
      assert before[i].rep.Valid(memory.vectors) && before[j].rep.Valid(memory.vectors);
      InObjects(i);
      tensors[i].AssignCopy(memory, tensors[j]);
      assert Cells() == before[i := tensors[i].TheCell()];
    }

    method DoAssignMove(i: nat, j: nat)
      requires Distinct() && AllValid(State()) && i < |tensors| && j < |tensors|
      modifies this, memory, Objects()
      ensures Distinct() && State() == Step(old(State()), AssignMove(i, j))
      ensures fresh(Objects() - old(Objects()))
    {
      ghost var before := Cells();
      InObjects(i);
      InObjects(j);
      tensors[i].AssignMove(memory, tensors[j]);
      if i == j {
        assert Cells() == before;
      } else {
        assert Cells() == before[i := tensors[i].TheCell()][j := tensors[j].TheCell()];
      }
    }

    method DoDrop()
      requires Distinct() && AllValid(State()) && tensors != []
      modifies this, memory, Objects()
      ensures Distinct() && State() == Step(old(State()), Drop)
      ensures fresh(Objects() - old(Objects()))
    {
      ghost var before := Cells();
      var last := |tensors| - 1;
      tensors[last].Destroy(memory);
      tensors := tensors[..last];
      assert forall t <- tensors :: t in old(tensors);
      assert Cells() == before[..last];
    }

    method Perform(op: Op)
      requires Distinct() && AllValid(State()) && Applicable(State(), op)
      modifies this, memory, Objects()
      ensures Distinct() && State() == Step(old(State()), op)
      ensures fresh(Objects() - old(Objects()))
    {
      match op
      case Make(rep, dims) => DoMake(rep, dims);
      case MakeCopy(i) => DoMakeCopy(i);
      case MakeMove(i) => DoMakeMove(i);
      case AssignCopy(i, j) => DoAssignCopy(i, j);
      case AssignMove(i, j) => DoAssignMove(i, j);
      case Drop => DoDrop();
    }

    method PerformAt(ops: seq<Op>, ghost states: seq<System>, k: nat)
      requires Distinct() && IsRun(states, ops) && k < |ops| && State() == states[k]
      modifies this, memory, Objects()
      ensures Distinct() && State() == states[k + 1] && fresh(Objects() - old(Objects()))
    {
      RunAt(states, ops, k);
      Perform(ops[k]);
    }

    /** Every run of operations on the objects is a run of the system. */
    method Session(ops: seq<Op>, ghost states: seq<System>)
      requires Distinct() && IsRun(states, ops) && states[0] == State()
      modifies this, memory, Objects()
      ensures Distinct() && State() == states[|ops|]
    {
      for k := 0 to |ops|
        invariant Distinct() && State() == states[k] && fresh(Objects() - old(Objects()))
      {
        PerformAt(ops, states, k);
      }
    }
  }
}
