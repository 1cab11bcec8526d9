/**
 * Ownership among tensors (framework/tensor.h): buffers are shared and counted, vectors of dimensions
 * are not shared. What every run of tensor operations keeps is proved on plain values.
 */
module TensorOwnership {
  import opened Wrappers
  import opened TensorShapes

  /** A tensor: its shape, and the buffer it points at. */
  datatype Cell = Cell(rep: Rep, buf: Option<nat>)

  datatype System = System(cells: seq<Cell>, vectors: Vectors, buffers: Buffers)

  datatype Op =
    | Make(rep: Rep, dims: seq<int>)
    | MakeCopy(i: nat)
    | MakeMove(i: nat)
    | AssignCopy(i: nat, j: nat)
    | AssignMove(i: nat, j: nat)
    | Drop

  ghost predicate Applicable(s: System, op: Op) {
    match op
    case Make(rep, _) => rep.tag.OUT_OF_LINE? ==> rep.payload == Pointer(s.vectors.made)
    case MakeCopy(i) => i < |s.cells|
    case MakeMove(i) => i < |s.cells|
    case AssignCopy(i, j) => i < |s.cells| && j < |s.cells|
    case AssignMove(i, j) => i < |s.cells| && j < |s.cells|
    case Drop => s.cells != []
  }

  ghost predicate AllValid(s: System) {
    forall i :: 0 <= i < |s.cells| ==> s.cells[i].rep.Valid(s.vectors)
  }

  function RefIf(buffers: Buffers, b: Option<nat>): Buffers {
    if b.Some? then buffers.Ref(b.value) else buffers
  }

  function UnrefIf(buffers: Buffers, b: Option<nat>): Buffers {
    if b.Some? then buffers.Unref(b.value) else buffers
  }

  /** The move constructor gets a const shape to move from, so it copies the shape; only the buffer moves. */
  ghost function Step(s: System, op: Op): System
    requires AllValid(s) && Applicable(s, op)
  {
    match op
    case Make(rep, dims) =>
      System(s.cells + [Cell(rep, Some(s.buffers.made))],
             if rep.tag.OUT_OF_LINE? then s.vectors.New(dims) else s.vectors,
             s.buffers.New())
    case MakeCopy(i) =>
      var c := s.cells[i];
      System(s.cells + [Cell(Copied(c.rep, s.vectors).0, c.buf)], Copied(c.rep, s.vectors).1, RefIf(s.buffers, c.buf))
    case MakeMove(i) =>
      var c := s.cells[i];
      System(s.cells[i := c.(buf := None)] + [Cell(Copied(c.rep, s.vectors).0, c.buf)], Copied(c.rep, s.vectors).1, s.buffers)
    case AssignCopy(i, j) =>
      var a, b := s.cells[i], s.cells[j];
      System(s.cells[i := Cell(Assigned(a.rep, b.rep, s.vectors).0, b.buf)], Assigned(a.rep, b.rep, s.vectors).1,
             if a.buf == b.buf then s.buffers else RefIf(UnrefIf(s.buffers, a.buf), b.buf))
    case AssignMove(i, j) =>
      if i == j then s
      else
        var a, b := s.cells[i], s.cells[j];
        System(s.cells[i := b][j := Cell(MovedFrom(b.rep), None)], Destroyed(a.rep, s.vectors), UnrefIf(s.buffers, a.buf))
    case Drop =>
      var c := s.cells[|s.cells| - 1];
      System(s.cells[..|s.cells| - 1], Destroyed(c.rep, s.vectors), UnrefIf(s.buffers, c.buf))
  }

  // ---- Counting pointers ----

  ghost function Occurrences(pointers: seq<Option<nat>>, p: nat): nat {
    if pointers == [] then 0
    else Occurrences(pointers[..|pointers| - 1], p) + if pointers[|pointers| - 1] == Some(p) then 1 else 0
  }

  ghost function One(pointer: Option<nat>, p: nat): nat {
    if pointer == Some(p) then 1 else 0
  }

  lemma OccurrencesAppend(pointers: seq<Option<nat>>, x: Option<nat>, p: nat)
    ensures Occurrences(pointers + [x], p) == Occurrences(pointers, p) + One(x, p)
  {
    assert (pointers + [x])[..|pointers|] == pointers;
  }

  lemma {:induction false} OccurrencesUpdate(pointers: seq<Option<nat>>, i: nat, x: Option<nat>, p: nat)
    requires i < |pointers|
    ensures Occurrences(pointers[i := x], p) == Occurrences(pointers, p) - One(pointers[i], p) + One(x, p)
  {
    var last := |pointers| - 1;
    if i == last {
      assert pointers[i := x][..last] == pointers[..last];
    } else {
      OccurrencesUpdate(pointers[..last], i, x, p);
      assert pointers[i := x][..last] == pointers[..last][i := x];
    }
  }

  lemma {:induction false} OccurrencesPositive(pointers: seq<Option<nat>>, i: nat, p: nat)
    requires i < |pointers| && pointers[i] == Some(p)
    ensures Occurrences(pointers, p) >= 1
    ensures forall j: nat | j < |pointers| && j != i && pointers[j] == Some(p) :: Occurrences(pointers, p) >= 2
  {
    OccurrencesUpdate(pointers, i, None, p);
    forall j: nat | j < |pointers| && j != i && pointers[j] == Some(p) ensures Occurrences(pointers, p) >= 2 {
      OccurrencesUpdate(pointers[i := None], j, None, p);
    }
  }

  ghost function Bufs(cells: seq<Cell>): (r: seq<Option<nat>>)
    ensures |r| == |cells| && forall i :: 0 <= i < |r| ==> r[i] == cells[i].buf
  {
    seq(|cells|, i requires 0 <= i < |cells| => cells[i].buf)
  }

  ghost function Owned(cells: seq<Cell>): (r: seq<Option<nat>>)
    ensures |r| == |cells| && forall i :: 0 <= i < |r| ==> r[i] == cells[i].rep.Vector()
  {
    seq(|cells|, i requires 0 <= i < |cells| => cells[i].rep.Vector())
  }

  // ---- The invariant ----

  ghost function CountOf(buffers: Buffers, p: nat): nat {
    if p in buffers.counts then buffers.counts[p] else 0
  }

  ghost function LiveOf(vectors: Vectors, p: nat): nat {
    if p in vectors.live then 1 else 0
  }

  /** Each count is the number of tensors that point at the buffer; a buffer nobody points at is gone. */
  ghost predicate CountsExact(bufs: seq<Option<nat>>, buffers: Buffers) {
    && buffers.Valid()
    && (forall p: nat {:trigger Occurrences(bufs, p)} :: Occurrences(bufs, p) == CountOf(buffers, p))
    && (forall p <- buffers.counts :: buffers.counts[p] > 0)
  }

  /** Every live vector has exactly one owner, and no shape owns a vector that is gone. */
  ghost predicate VectorsExact(owned: seq<Option<nat>>, vectors: Vectors) {
    && vectors.Valid()
    && (forall p: nat {:trigger Occurrences(owned, p)} :: Occurrences(owned, p) == LiveOf(vectors, p))
  }

  ghost predicate Tagged(cells: seq<Cell>) {
    forall i :: 0 <= i < |cells| ==> cells[i].rep.tag.OUT_OF_LINE? ==> cells[i].rep.payload.Pointer?
  }

  ghost predicate Inv(s: System) {
    CountsExact(Bufs(s.cells), s.buffers) && VectorsExact(Owned(s.cells), s.vectors) && Tagged(s.cells)
  }

  /** Every shape is meaningful, and no two shapes share a vector. */
  lemma ShapesValid(s: System)
    requires Inv(s)
    ensures AllValid(s)
    ensures forall i: nat, j: nat | i < |s.cells| && j < |s.cells| && i != j && s.cells[i].rep.Vector().Some? ::
              s.cells[i].rep.Vector() != s.cells[j].rep.Vector()
  {
    var owned := Owned(s.cells);
    forall i: nat | i < |s.cells| && owned[i].Some?
      ensures s.cells[i].rep.Valid(s.vectors)
      ensures forall j: nat | j < |s.cells| && j != i :: owned[j] != owned[i]
    {
      OccurrencesPositive(owned, i, owned[i].value);
      assert Occurrences(owned, owned[i].value) == LiveOf(s.vectors, owned[i].value);
    }
  }

  lemma BufferCounted(bufs: seq<Option<nat>>, buffers: Buffers, i: nat)
    requires CountsExact(bufs, buffers) && i < |bufs| && bufs[i].Some?
    ensures bufs[i].value in buffers.counts
  {
    OccurrencesPositive(bufs, i, bufs[i].value);
    assert Occurrences(bufs, bufs[i].value) == CountOf(buffers, bufs[i].value);
  }

  // ---- Steps of the buffers ----

  lemma BuffersNew(bufs: seq<Option<nat>>, buffers: Buffers)
    requires CountsExact(bufs, buffers)
    ensures CountsExact(bufs + [Some(buffers.made)], buffers.New())
  {
    forall p: nat ensures Occurrences(bufs + [Some(buffers.made)], p) == CountOf(buffers.New(), p) {
      OccurrencesAppend(bufs, Some(buffers.made), p);
    }
  }

  lemma BuffersRef(bufs: seq<Option<nat>>, buffers: Buffers, x: Option<nat>)
    requires CountsExact(bufs, buffers) && (x.Some? ==> x.value in buffers.counts)
    ensures CountsExact(bufs + [x], RefIf(buffers, x))
  {
    assert x.Some? ==> RefIf(buffers, x).counts.Keys == buffers.counts.Keys;
    forall p: nat ensures Occurrences(bufs + [x], p) == CountOf(RefIf(buffers, x), p) {
      OccurrencesAppend(bufs, x, p);
    }
  }

  lemma UnrefValid(buffers: Buffers, b: nat)
    requires buffers.Valid() && b in buffers.counts
    ensures buffers.Unref(b).Valid()
  {
    if buffers.counts[b] <= 1 {
      assert buffers.counts.Keys == buffers.Unref(b).counts.Keys + {b};
    } else {
      assert buffers.counts.Keys == buffers.Unref(b).counts.Keys;
    }
  }

  lemma BuffersUnref(bufs: seq<Option<nat>>, buffers: Buffers, i: nat)
    requires CountsExact(bufs, buffers) && i < |bufs|
    ensures CountsExact(bufs[i := None], UnrefIf(buffers, bufs[i]))
  {
    if bufs[i].Some? {
      BufferCounted(bufs, buffers, i);
      UnrefValid(buffers, bufs[i].value);
    }
    forall p: nat ensures Occurrences(bufs[i := None], p) == CountOf(UnrefIf(buffers, bufs[i]), p) {
      OccurrencesUpdate(bufs, i, None, p);
    }
  }

  lemma BuffersFill(bufs: seq<Option<nat>>, buffers: Buffers, i: nat, x: Option<nat>)
    requires CountsExact(bufs, buffers) && i < |bufs| && bufs[i] == None && (x.Some? ==> x.value in buffers.counts)
    ensures CountsExact(bufs[i := x], RefIf(buffers, x))
  {
    assert x.Some? ==> RefIf(buffers, x).counts.Keys == buffers.counts.Keys;
    forall p: nat ensures Occurrences(bufs[i := x], p) == CountOf(RefIf(buffers, x), p) {
      OccurrencesUpdate(bufs, i, x, p);
    }
  }

  lemma BuffersSame(bufs: seq<Option<nat>>, buffers: Buffers, after: seq<Option<nat>>)
    requires CountsExact(bufs, buffers)
    requires forall p: nat :: Occurrences(after, p) == Occurrences(bufs, p)
    ensures CountsExact(after, buffers)
  {
  }

  // ---- Steps of the vectors ----

  lemma VectorsAppend(owned: seq<Option<nat>>, vectors: Vectors, dims: seq<int>)
    requires VectorsExact(owned, vectors)
    ensures VectorsExact(owned + [None], vectors)
    ensures VectorsExact(owned + [Some(vectors.made)], vectors.New(dims))
  {
    NewValid(vectors, dims);
    forall p: nat
      ensures Occurrences(owned + [None], p) == LiveOf(vectors, p)
      ensures Occurrences(owned + [Some(vectors.made)], p) == LiveOf(vectors.New(dims), p)
    {
      OccurrencesAppend(owned, None, p);
      OccurrencesAppend(owned, Some(vectors.made), p);
    }
  }

  lemma VectorsFill(owned: seq<Option<nat>>, vectors: Vectors, i: nat, dims: seq<int>)
    requires VectorsExact(owned, vectors) && i < |owned| && owned[i] == None
    ensures VectorsExact(owned[i := Some(vectors.made)], vectors.New(dims))
  {
    NewValid(vectors, dims);
    forall p: nat ensures Occurrences(owned[i := Some(vectors.made)], p) == LiveOf(vectors.New(dims), p) {
      OccurrencesUpdate(owned, i, Some(vectors.made), p);
    }
  }

  lemma VectorsDelete(owned: seq<Option<nat>>, vectors: Vectors, i: nat, v: nat)
    requires VectorsExact(owned, vectors) && i < |owned| && owned[i] == Some(v)
    ensures v in vectors.live && VectorsExact(owned[i := None], vectors.Delete(v))
  {
    OccurrencesPositive(owned, i, v);
    assert Occurrences(owned, v) == LiveOf(vectors, v);
    DeleteValid(vectors, v);
    forall p: nat ensures Occurrences(owned[i := None], p) == LiveOf(vectors.Delete(v), p) {
      OccurrencesUpdate(owned, i, None, p);
    }
  }

  lemma VectorsSet(owned: seq<Option<nat>>, vectors: Vectors, v: nat, dims: seq<int>)
    requires VectorsExact(owned, vectors) && v in vectors.live
    ensures VectorsExact(owned, vectors.Set(v, dims))
  {
    assert vectors.Set(v, dims).live.Keys == vectors.live.Keys;
  }

  lemma VectorsSame(owned: seq<Option<nat>>, vectors: Vectors, after: seq<Option<nat>>)
    requires VectorsExact(owned, vectors)
    requires forall p: nat :: Occurrences(after, p) == Occurrences(owned, p)
    ensures VectorsExact(after, vectors)
  {
  }

  lemma OccurrencesLast(pointers: seq<Option<nat>>, p: nat)
    requires pointers != []
    ensures Occurrences(pointers[..|pointers| - 1], p) == Occurrences(pointers[|pointers| - 1 := None], p)
  {
    assert pointers[|pointers| - 1 := None][..|pointers| - 1] == pointers[..|pointers| - 1];
  }

  // ---- Every run ----

  lemma MakeKeeps(s: System, rep: Rep, dims: seq<int>)
    requires Inv(s) && Applicable(s, Make(rep, dims)) && AllValid(s)
    ensures Inv(Step(s, Make(rep, dims)))
  {
    var t := Step(s, Make(rep, dims));
    BuffersNew(Bufs(s.cells), s.buffers);
    VectorsAppend(Owned(s.cells), s.vectors, dims);
    assert Bufs(t.cells) == Bufs(s.cells) + [Some(s.buffers.made)];
    assert Owned(t.cells) == Owned(s.cells) + [rep.Vector()];
  }

  lemma CopyKeeps(s: System, i: nat)
    requires Inv(s) && i < |s.cells| && AllValid(s)
    ensures Inv(Step(s, MakeCopy(i)))
  {
    var t := Step(s, MakeCopy(i));
    var c := s.cells[i];
    if c.buf.Some? {
      BufferCounted(Bufs(s.cells), s.buffers, i);
    }
    BuffersRef(Bufs(s.cells), s.buffers, c.buf);
    assert Bufs(t.cells) == Bufs(s.cells) + [c.buf];
    CopiedKeeps(s.cells, s.vectors, c.rep);
    assert Owned(t.cells) == Owned(s.cells) + [Copied(c.rep, s.vectors).0.Vector()];
  }

  lemma CopiedKeeps(cells: seq<Cell>, vectors: Vectors, b: Rep)
    requires VectorsExact(Owned(cells), vectors) && b.Valid(vectors)
    ensures var r := Copied(b, vectors);
            VectorsExact(Owned(cells) + [r.0.Vector()], r.1) && (r.0.tag.OUT_OF_LINE? ==> r.0.payload.Pointer?)
  {
    VectorsAppend(Owned(cells), vectors, if b.tag.OUT_OF_LINE? then vectors.live[b.payload.vector] else []);
  }

  /** A pointer moved to the end. */
  lemma MovedToEnd(pointers: seq<Option<nat>>, i: nat, p: nat)
    requires i < |pointers|
    ensures Occurrences(pointers[i := None] + [pointers[i]], p) == Occurrences(pointers, p)
  {
    OccurrencesUpdate(pointers, i, None, p);
    OccurrencesAppend(pointers[i := None], pointers[i], p);
  }

  lemma MoveKeeps(s: System, i: nat)
    requires Inv(s) && i < |s.cells| && AllValid(s)
    ensures Inv(Step(s, MakeMove(i)))
  {
    var t := Step(s, MakeMove(i));
    var c := s.cells[i];
    var bufs := Bufs(s.cells);
    forall p: nat ensures Occurrences(bufs[i := None] + [bufs[i]], p) == Occurrences(bufs, p) {
      MovedToEnd(bufs, i, p);
    }
    BuffersSame(bufs, s.buffers, bufs[i := None] + [bufs[i]]);
    assert Bufs(t.cells) == bufs[i := None] + [bufs[i]];
    CopiedKeeps(s.cells, s.vectors, c.rep);
    assert Owned(t.cells) == Owned(s.cells) + [Copied(c.rep, s.vectors).0.Vector()];
  }

  lemma AssignedKeeps(cells: seq<Cell>, vectors: Vectors, i: nat, b: Rep)
    requires VectorsExact(Owned(cells), vectors) && i < |cells| && cells[i].rep.Valid(vectors) && b.Valid(vectors)
    ensures var r := Assigned(cells[i].rep, b, vectors);
            VectorsExact(Owned(cells)[i := r.0.Vector()], r.1) && (r.0.tag.OUT_OF_LINE? ==> r.0.payload.Pointer?)
  {
    var owned := Owned(cells);
    var a := cells[i].rep;
    if a.tag.OUT_OF_LINE? && b.tag.OUT_OF_LINE? {
      VectorsSet(owned, vectors, a.payload.vector, vectors.live[b.payload.vector]);
      assert owned[i := a.Vector()] == owned;
    } else if b.tag.OUT_OF_LINE? {
      VectorsFill(owned, vectors, i, vectors.live[b.payload.vector]);
    } else if a.tag.OUT_OF_LINE? {
      VectorsDelete(owned, vectors, i, a.payload.vector);
    } else {
      assert owned[i := None] == owned;
    }
  }

  lemma AssignedBuffer(bufs: seq<Option<nat>>, buffers: Buffers, i: nat, j: nat)
    requires CountsExact(bufs, buffers) && i < |bufs| && j < |bufs|
    ensures CountsExact(bufs[i := bufs[j]], if bufs[i] == bufs[j] then buffers else RefIf(UnrefIf(buffers, bufs[i]), bufs[j]))
  {
    if bufs[i] == bufs[j] {
      assert bufs[i := bufs[j]] == bufs;
    } else {
      var without := bufs[i := None];
      BuffersUnref(bufs, buffers, i);
      if bufs[j].Some? {
        BufferCounted(without, UnrefIf(buffers, bufs[i]), j);
      }
      BuffersFill(without, UnrefIf(buffers, bufs[i]), i, bufs[j]);
      assert without[i := bufs[j]] == bufs[i := bufs[j]];
    }
  }

  lemma AssignCopyKeeps(s: System, i: nat, j: nat)
    requires Inv(s) && i < |s.cells| && j < |s.cells| && AllValid(s)
    ensures Inv(Step(s, AssignCopy(i, j)))
  {
    var t := Step(s, AssignCopy(i, j));
    AssignedKeeps(s.cells, s.vectors, i, s.cells[j].rep);
    AssignedBuffer(Bufs(s.cells), s.buffers, i, j);
    assert Bufs(t.cells) == Bufs(s.cells)[i := Bufs(s.cells)[j]];
    assert Owned(t.cells) == Owned(s.cells)[i := Assigned(s.cells[i].rep, s.cells[j].rep, s.vectors).0.Vector()];
  }

  /** A pointer handed over to a place that had none. */
  lemma HandedOver(pointers: seq<Option<nat>>, i: nat, j: nat, p: nat)
    requires i < |pointers| && j < |pointers| && i != j && pointers[i] == None
    ensures Occurrences(pointers[i := pointers[j]][j := None], p) == Occurrences(pointers, p)
  {
    OccurrencesUpdate(pointers, i, pointers[j], p);
    OccurrencesUpdate(pointers[i := pointers[j]], j, None, p);
  }

  lemma HandOverBuffer(bufs: seq<Option<nat>>, buffers: Buffers, i: nat, j: nat)
    requires CountsExact(bufs, buffers) && i < |bufs| && j < |bufs| && i != j
    ensures CountsExact(bufs[i := bufs[j]][j := None], UnrefIf(buffers, bufs[i]))
  {
    var without := bufs[i := None];
    BuffersUnref(bufs, buffers, i);
    forall p: nat ensures Occurrences(without[i := bufs[j]][j := None], p) == Occurrences(without, p) {
      HandedOver(without, i, j, p);
    }
    BuffersSame(without, UnrefIf(buffers, bufs[i]), without[i := bufs[j]][j := None]);
    assert without[i := bufs[j]][j := None] == bufs[i := bufs[j]][j := None];
  }

  lemma DestroyedKeeps(owned: seq<Option<nat>>, vectors: Vectors, i: nat, a: Rep)
    requires VectorsExact(owned, vectors) && i < |owned| && owned[i] == a.Vector()
    ensures VectorsExact(owned[i := None], Destroyed(a, vectors))
  {
    if a.Vector().Some? {
      VectorsDelete(owned, vectors, i, a.Vector().value);
    } else {
      assert owned[i := None] == owned;
    }
  }

  lemma HandOverVector(owned: seq<Option<nat>>, vectors: Vectors, i: nat, j: nat, a: Rep)
    requires VectorsExact(owned, vectors) && i < |owned| && j < |owned| && i != j && owned[i] == a.Vector()
    ensures VectorsExact(owned[i := owned[j]][j := None], Destroyed(a, vectors))
  {
    var without := owned[i := None];
    DestroyedKeeps(owned, vectors, i, a);
    forall p: nat ensures Occurrences(without[i := owned[j]][j := None], p) == Occurrences(without, p) {
      HandedOver(without, i, j, p);
    }
    VectorsSame(without, Destroyed(a, vectors), without[i := owned[j]][j := None]);
    assert without[i := owned[j]][j := None] == owned[i := owned[j]][j := None];
  }

  lemma AssignMoveKeeps(s: System, i: nat, j: nat)
    requires Inv(s) && i < |s.cells| && j < |s.cells| && AllValid(s)
    ensures Inv(Step(s, AssignMove(i, j)))
  {
    if i != j {
      var t := Step(s, AssignMove(i, j));
      HandOverBuffer(Bufs(s.cells), s.buffers, i, j);
      HandOverVector(Owned(s.cells), s.vectors, i, j, s.cells[i].rep);
      assert Bufs(t.cells) == Bufs(s.cells)[i := Bufs(s.cells)[j]][j := None];
      assert Owned(t.cells) == Owned(s.cells)[i := Owned(s.cells)[j]][j := None];
    }
  }

  lemma DropKeeps(s: System)
    requires Inv(s) && s.cells != [] && AllValid(s)
    ensures Inv(Step(s, Drop))
  {
    var t := Step(s, Drop);
    var bufs, owned, last := Bufs(s.cells), Owned(s.cells), |s.cells| - 1;
    BuffersUnref(bufs, s.buffers, last);
    DestroyedKeeps(owned, s.vectors, last, s.cells[last].rep);
    forall p: nat
      ensures Occurrences(bufs[..last], p) == Occurrences(bufs[last := None], p)
      ensures Occurrences(owned[..last], p) == Occurrences(owned[last := None], p)
    {
      OccurrencesLast(bufs, p);
      OccurrencesLast(owned, p);
    }
    BuffersSame(bufs[last := None], UnrefIf(s.buffers, bufs[last]), bufs[..last]);
    assert Bufs(t.cells) == bufs[..last];
    assert Owned(t.cells) == owned[..last];
  }

  /** Every operation keeps the counts exact and every vector with its one owner. */
  lemma InvStep(s: System, op: Op)
    requires Inv(s) && Applicable(s, op)
    ensures AllValid(s) && Inv(Step(s, op))
  {
    ShapesValid(s);
    match op
    case Make(rep, dims) => MakeKeeps(s, rep, dims);
    case MakeCopy(i) => CopyKeeps(s, i);
    case MakeMove(i) => MoveKeeps(s, i);
    case AssignCopy(i, j) => AssignCopyKeeps(s, i, j);
    case AssignMove(i, j) => AssignMoveKeeps(s, i, j);
    case Drop => DropKeeps(s);
  }

  /** When no tensor is left, all that was made has been freed. */
  lemma NothingLeaks(s: System)
    requires Inv(s) && s.cells == []
    ensures s.vectors.made == s.vectors.freed && s.buffers.made == s.buffers.freed
  {
    forall p: nat ensures p !in s.vectors.live && p !in s.buffers.counts {
      assert Occurrences(Owned(s.cells), p) == LiveOf(s.vectors, p);
      assert Occurrences(Bufs(s.cells), p) == CountOf(s.buffers, p);
    }
    assert s.vectors.live == map[] && s.buffers.counts == map[];
  }

  ghost predicate IsRun(states: seq<System>, ops: seq<Op>) {
    && |states| == |ops| + 1
    && forall k {:trigger ops[k]} :: 0 <= k < |ops| ==>
         AllValid(states[k]) && Applicable(states[k], ops[k]) && states[k + 1] == Step(states[k], ops[k])
  }

  lemma RunAt(states: seq<System>, ops: seq<Op>, k: nat)
    requires IsRun(states, ops) && k < |ops|
    ensures AllValid(states[k]) && Applicable(states[k], ops[k]) && states[k + 1] == Step(states[k], ops[k])
  {
  }

  lemma NothingYet(s: System)
    requires s == System([], Vectors(map[], 0, 0), Buffers(map[], 0, 0))
    ensures Inv(s)
  {
    NothingCounted(Bufs(s.cells), s.buffers);
    NothingOwned(Owned(s.cells), s.vectors);
  }

  lemma NothingCounted(bufs: seq<Option<nat>>, buffers: Buffers)
    requires bufs == [] && buffers.counts == map[] && buffers.made == buffers.freed
    ensures CountsExact(bufs, buffers)
  {
    assert |buffers.counts| == 0;
  }

  lemma NothingOwned(owned: seq<Option<nat>>, vectors: Vectors)
    requires owned == [] && vectors.live == map[] && vectors.made == vectors.freed
    ensures VectorsExact(owned, vectors)
  {
    assert |vectors.live| == 0;
  }

  lemma NextInv(s: System, op: Op, next: System)
    requires Inv(s) && AllValid(s) && Applicable(s, op) && next == Step(s, op)
    ensures Inv(next)
  {
    InvStep(s, op);
  }

  /** In every run from no tensors at all. */
  lemma {:induction false} RunInv(states: seq<System>, ops: seq<Op>, n: nat)
    requires IsRun(states, ops) && n <= |ops|
    requires states[0] == System([], Vectors(map[], 0, 0), Buffers(map[], 0, 0))
    ensures Inv(states[n])
  {
    if n == 0 {
      NothingYet(states[0]);
    } else {
      RunInv(states, ops, n - 1);
      RunAt(states, ops, n - 1);
      NextInv(states[n - 1], ops[n - 1], states[n]);
    }
  }

  lemma PointedAt(s: System, b: nat)
    requires Inv(s)
    ensures b in s.buffers.counts <==> exists i: nat :: i < |s.cells| && s.cells[i].buf == Some(b)
    ensures b in s.buffers.counts ==> s.buffers.counts[b] == Occurrences(Bufs(s.cells), b)
  {
    var bufs := Bufs(s.cells);
    assert Occurrences(bufs, b) == CountOf(s.buffers, b);
    if b in s.buffers.counts {
      var i := PointerOf(bufs, b);
    }
    if i: nat :| i < |s.cells| && s.cells[i].buf == Some(b) {
      OccurrencesPositive(bufs, i, b);
    }
  }

  /** In every run a buffer is alive exactly while some tensor points at it, and its count is the number of those. */
  lemma BufferAliveIffPointedAt(states: seq<System>, ops: seq<Op>, n: nat, b: nat)
    requires IsRun(states, ops) && n <= |ops|
    requires states[0] == System([], Vectors(map[], 0, 0), Buffers(map[], 0, 0))
    ensures b in states[n].buffers.counts <==> exists i: nat :: i < |states[n].cells| && states[n].cells[i].buf == Some(b)
    ensures b in states[n].buffers.counts ==> states[n].buffers.counts[b] == Occurrences(Bufs(states[n].cells), b)
  {
    RunInv(states, ops, n);
    PointedAt(states[n], b);
  }

  lemma {:induction false} PointerOf(pointers: seq<Option<nat>>, p: nat) returns (i: nat)
    requires Occurrences(pointers, p) > 0
    ensures i < |pointers| && pointers[i] == Some(p)
  {
    i := |pointers| - 1;
    if pointers[i] != Some(p) {
      i := PointerOf(pointers[..i], p);
    }
  }

  // ---- What the operations mean ----

  ghost function TensorValue(s: System, i: nat): ((int, nat, nat, seq<int>), Option<nat>)
    requires AllValid(s) && i < |s.cells|
  {
    (s.cells[i].rep.Shape(s.vectors), s.cells[i].buf)
  }

  ghost predicate Touches(s: System, op: Op, k: nat) {
    match op
    case Make(_, _) => false
    case MakeCopy(_) => false
    case MakeMove(i) => k == i
    case AssignCopy(i, _) => k == i
    case AssignMove(i, j) => k == i || k == j
    case Drop => k == |s.cells| - 1
  }

  /** A tensor that the operation does not name keeps its shape and its buffer. */
  lemma OthersUnchanged(s: System, op: Op, k: nat)
    requires Inv(s) && Applicable(s, op) && k < |s.cells| && !Touches(s, op, k)
    ensures AllValid(s) && AllValid(Step(s, op)) && k < |Step(s, op).cells|
    ensures TensorValue(Step(s, op), k) == TensorValue(s, k)
  {
    InvStep(s, op);
    ShapesValid(s);
    ShapesValid(Step(s, op));
    assert s.cells[k].rep.Valid(s.vectors) && s.vectors.Valid();
  }

  /** A new tensor has the shape that was asked for, and a buffer of its own. */
  lemma MakeMeans(s: System, rep: Rep, dims: seq<int>)
    requires Inv(s) && Applicable(s, Make(rep, dims))
    ensures AllValid(s) && AllValid(Step(s, Make(rep, dims)))
    ensures var s' := Step(s, Make(rep, dims));
            var b := s'.cells[|s.cells|].buf;
            && |s'.cells| == |s.cells| + 1
            && TensorValue(s', |s.cells|).0
               == (rep.numElements, rep.dtype, rep.ndims,
                   if rep.tag.OUT_OF_LINE? then dims else if rep.payload.Words? then rep.payload.words else [])
            && b.Some? && b.value !in s.buffers.counts && b.value in s'.buffers.counts && s'.buffers.counts[b.value] == 1
  {
    InvStep(s, Make(rep, dims));
    ShapesValid(s);
    ShapesValid(Step(s, Make(rep, dims)));
  }

  /** Dropping takes away the last tensor, and the buffer with it if no other tensor points there. */
  lemma DropMeans(s: System)
    requires Inv(s) && s.cells != []
    ensures AllValid(s) && |Step(s, Drop).cells| == |s.cells| - 1
    ensures forall b <- s.buffers.counts ::
              b in Step(s, Drop).buffers.counts <==>
                exists i: nat :: i < |s.cells| - 1 && s.cells[i].buf == Some(b)
  {
    ShapesValid(s);
    var s' := Step(s, Drop);
    InvStep(s, Drop);
    forall b <- s.buffers.counts
      ensures b in s'.buffers.counts <==> exists i: nat :: i < |s.cells| - 1 && s.cells[i].buf == Some(b)
    {
      PointedAt(s', b);
      forall i: nat | i < |s'.cells| ensures s'.cells[i] == s.cells[i] {
      }
    }
  }

  /** A copy has the shape of the original, and shares its buffer. */
  lemma CopyMeans(s: System, i: nat)
    requires Inv(s) && i < |s.cells|
    ensures AllValid(s) && AllValid(Step(s, MakeCopy(i)))
    ensures TensorValue(Step(s, MakeCopy(i)), |s.cells|) == TensorValue(s, i)
  {
    InvStep(s, MakeCopy(i));
    ShapesValid(s);
    ShapesValid(Step(s, MakeCopy(i)));
  }

  /** A tensor constructed by moving takes the buffer; the other one keeps its shape. */
  lemma MoveMeans(s: System, i: nat)
    requires Inv(s) && i < |s.cells|
    ensures AllValid(s) && AllValid(Step(s, MakeMove(i)))
    ensures TensorValue(Step(s, MakeMove(i)), |s.cells|) == TensorValue(s, i)
    ensures TensorValue(Step(s, MakeMove(i)), i) == (TensorValue(s, i).0, None)
  {
    InvStep(s, MakeMove(i));
    ShapesValid(s);
    ShapesValid(Step(s, MakeMove(i)));
    assert s.cells[i].rep.Valid(s.vectors) && s.vectors.Valid();
  }

  /** Assignment installs the shape and the buffer of the right-hand side, also from the tensor itself. */
  lemma AssignCopyMeans(s: System, i: nat, j: nat)
    requires Inv(s) && i < |s.cells| && j < |s.cells|
    ensures AllValid(s) && AllValid(Step(s, AssignCopy(i, j)))
    ensures TensorValue(Step(s, AssignCopy(i, j)), i) == TensorValue(s, j)
    ensures TensorValue(Step(s, AssignCopy(i, j)), j) == TensorValue(s, j)
  {
    InvStep(s, AssignCopy(i, j));
    ShapesValid(s);
    ShapesValid(Step(s, AssignCopy(i, j)));
    if i != j {
      OthersUnchanged(s, AssignCopy(i, j), j);
    }
  }

  /**
   * Move assignment does too; the other tensor is left without a buffer, and owns no vector. A tensor
   * keeps its value under move assignment from itself.
   */
  lemma AssignMoveMeans(s: System, i: nat, j: nat)
    requires Inv(s) && i < |s.cells| && j < |s.cells|
    ensures AllValid(s) && AllValid(Step(s, AssignMove(i, j)))
    ensures TensorValue(Step(s, AssignMove(i, j)), i) == TensorValue(s, j)
    ensures var other := Step(s, AssignMove(i, j)).cells[j];
            i != j ==> other.buf == None && other.rep.Vector() == None && other.rep.tag == REP16
  {
    InvStep(s, AssignMove(i, j));
    ShapesValid(s);
    ShapesValid(Step(s, AssignMove(i, j)));
  }
}
