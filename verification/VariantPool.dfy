/**
 * Runs of Variant operations: a pool of Variant variables over one memory, on which a client
 * performs any sequence of constructions, copies, moves, assignments, swaps, clears and
 * destructions.
 */
module VariantPool {
  import opened Wrappers
  import opened VariantMemory
  import opened VariantContainer

  datatype Op =
    | MakeEmpty
    | MakeValue(o: Object)
    | MakeCopy(i: nat)
    | MakeMove(i: nat)
    | AssignValue(i: nat, o: Object)
    | AssignCopy(i: nat, j: nat)
    | AssignMove(i: nat, j: nat)
    | Swap(i: nat, j: nat)
    | Clear(i: nat)
    | Drop

  /** The variables an operation names exist. `Drop` ends the scope of the variable made last. */
  ghost predicate Applicable(op: Op, n: nat) {
    match op
    case MakeEmpty => true
    case MakeValue(_) => true
    case MakeCopy(i) => i < n
    case MakeMove(i) => i < n
    case AssignValue(i, _) => i < n
    case AssignCopy(i, j) => i < n && j < n
    case AssignMove(i, j) => i < n && j < n
    case Swap(i, j) => i < n && j < n
    case Clear(i) => i < n
    case Drop => 0 < n
  }

  /** What a moved-from variable holds: an object of the same type if it was inline, and nothing otherwise. */
  ghost predicate MovedFrom(before: Option<Object>, after: Option<Object>) {
    if before.Some? && CanInline(before.value.ty) then after.Some? && after.value.ty == before.value.ty
    else after == None
  }

  /**
   * The same operations on plain optional values: the specification that Variants refine. Only
   * what a move leaves behind is open.
   */
  ghost predicate Step(a: seq<Option<Object>>, op: Op, b: seq<Option<Object>>)
    requires Applicable(op, |a|)
  {
    match op
    case MakeEmpty => b == a + [None]
    case MakeValue(o) => b == a + [Some(o)]
    case MakeCopy(i) => b == a + [a[i]]
    case MakeMove(i) => |b| == |a| + 1 && MovedFrom(a[i], b[i]) && b == a[i := b[i]] + [a[i]]
    case AssignValue(i, o) => b == a[i := Some(o)]
    case AssignCopy(i, j) => b == a[i := a[j]]
    case AssignMove(i, j) =>
      if i == j then b == a else |b| == |a| && MovedFrom(a[j], b[j]) && b == a[j := b[j]][i := a[j]]
    case Swap(i, j) => b == a[i := a[j]][j := a[i]]
    case Clear(i) => b == a[i := None]
    case Drop => b == a[..|a| - 1]
  }

  // ---- The states of all variables over the heap, as values ----

  ghost function Values(reps: seq<Rep>, heap: Heap): (values: seq<Option<Object>>)
    ensures |values| == |reps| && forall i :: 0 <= i < |reps| ==> values[i] == reps[i].Value(heap)
  {
    seq(|reps|, i requires 0 <= i < |reps| => reps[i].Value(heap))
  }

  ghost predicate Meaningful(reps: seq<Rep>, heap: Heap) {
    forall i {:trigger reps[i].Valid(heap)} :: 0 <= i < |reps| ==> reps[i].Valid(heap)
  }

  ghost predicate Disjoint(reps: seq<Rep>) {
    forall i, j {:trigger BlockSet(reps[i]), BlockSet(reps[j])} ::
      0 <= i < |reps| && 0 <= j < |reps| && i != j ==> BlockSet(reps[i]) !! BlockSet(reps[j])
  }

  ghost predicate HasOwner(reps: seq<Rep>, b: nat) {
    exists i :: 0 <= i < |reps| && b in BlockSet(reps[i])
  }

  /** Every variable is meaningful, and the blocks are owned, each by exactly one variable. */
  ghost predicate Owned(reps: seq<Rep>, heap: Heap) {
    Meaningful(reps, heap) && Disjoint(reps) && forall b {:trigger HasOwner(reps, b)} :: b in heap ==> HasOwner(reps, b)
  }

  ghost function BlockSet(r: Rep): set<nat> {
    if r.bytes.Pointer? then {r.bytes.block} else {}
  }

  /** `heap'` is `heap` but for the blocks `gone`, which are freed, and the blocks `come`, which are new. */
  ghost predicate ChangedSets(heap: Heap, gone: set<nat>, come: set<nat>, heap': Heap) {
    && heap'.Keys == heap.Keys - gone + come
    && come !! (heap.Keys - gone)
    && (forall b :: b in heap && b !in gone ==> b in heap' && heap'[b] == heap[b])
  }

  /** How many of the variables hold an object. */
  ghost function Occupied(values: seq<Option<Object>>): nat {
    if values == [] then 0 else Occupied(values[..|values| - 1]) + Count(values[|values| - 1])
  }

  lemma {:induction false} OccupiedUpdate(values: seq<Option<Object>>, i: nat, v: Option<Object>)
    requires i < |values|
    ensures Occupied(values[i := v]) == Occupied(values) - Count(values[i]) + Count(v)
  {
    var last := |values| - 1;
    if i == last {
      assert values[i := v][..last] == values[..last];
    } else {
      OccupiedUpdate(values[..last], i, v);
      assert values[i := v][..last] == values[..last][i := v];
    }
  }

  lemma OccupiedAppend(values: seq<Option<Object>>, v: Option<Object>)
    ensures Occupied(values + [v]) == Occupied(values) + Count(v)
  {
    assert (values + [v])[..|values|] == values;
  }

  /** Two variables, or one, give up their blocks and own others. */
  ghost predicate Exchange(reps: seq<Rep>, heap: Heap, i: nat, j: nat, r: Rep, s: Rep, heap': Heap) {
    && Owned(reps, heap) && i < |reps| && j < |reps| && r.Valid(heap') && s.Valid(heap')
    && (if i == j then r == s else BlockSet(r) !! BlockSet(s))
    && ChangedSets(heap, BlockSet(reps[i]) + BlockSet(reps[j]), BlockSet(r) + BlockSet(s), heap')
  }

  lemma Others(reps: seq<Rep>, heap: Heap, i: nat, j: nat, r: Rep, s: Rep, heap': Heap, k: nat)
    requires Exchange(reps, heap, i, j, r, s, heap') && k < |reps| && k != i && k != j
    ensures reps[k].Valid(heap') && reps[k].Value(heap') == reps[k].Value(heap)
    ensures BlockSet(reps[k]) !! BlockSet(r) && BlockSet(reps[k]) !! BlockSet(s)
  {
    assert reps[k].Valid(heap) && BlockSet(reps[k]) <= heap.Keys;
    assert BlockSet(reps[k]) !! BlockSet(reps[i]) && BlockSet(reps[k]) !! BlockSet(reps[j]);
  }

  lemma ExchangeDisjoint(reps: seq<Rep>, heap: Heap, i: nat, j: nat, r: Rep, s: Rep, heap': Heap)
    requires Exchange(reps, heap, i, j, r, s, heap')
    ensures Meaningful(reps[i := r][j := s], heap') && Disjoint(reps[i := r][j := s])
    ensures Values(reps[i := r][j := s], heap') == Values(reps, heap)[i := r.Value(heap')][j := s.Value(heap')]
  {
    forall k: nat | k < |reps| && k != i && k != j
      ensures reps[k].Valid(heap') && reps[k].Value(heap') == reps[k].Value(heap)
      ensures BlockSet(reps[k]) !! BlockSet(r) && BlockSet(reps[k]) !! BlockSet(s)
    {
      Others(reps, heap, i, j, r, s, heap', k);
    }
  }

  lemma ExchangeOwners(reps: seq<Rep>, heap: Heap, i: nat, j: nat, r: Rep, s: Rep, heap': Heap, b: nat)
    requires Exchange(reps, heap, i, j, r, s, heap') && b in heap'
    ensures HasOwner(reps[i := r][j := s], b)
  {
    var reps' := reps[i := r][j := s];
    if b in BlockSet(s) {
      assert b in BlockSet(reps'[j]);
    } else if b in BlockSet(r) {
      assert b in BlockSet(reps'[i]);
    } else {
      assert HasOwner(reps, b);
      var k :| 0 <= k < |reps| && b in BlockSet(reps[k]);
      assert b in BlockSet(reps'[k]);
    }
  }

  lemma ReplaceTwo(reps: seq<Rep>, heap: Heap, i: nat, j: nat, r: Rep, s: Rep, heap': Heap)
    requires Exchange(reps, heap, i, j, r, s, heap')
    ensures Owned(reps[i := r][j := s], heap')
    ensures Values(reps[i := r][j := s], heap') == Values(reps, heap)[i := r.Value(heap')][j := s.Value(heap')]
  {
    ExchangeDisjoint(reps, heap, i, j, r, s, heap');
    forall b | b in heap' ensures HasOwner(reps[i := r][j := s], b) {
      ExchangeOwners(reps, heap, i, j, r, s, heap', b);
    }
  }

  lemma ReplaceOne(reps: seq<Rep>, heap: Heap, i: nat, r: Rep, heap': Heap)
    requires Owned(reps, heap) && i < |reps| && r.Valid(heap')
    requires ChangedSets(heap, BlockSet(reps[i]), BlockSet(r), heap')
    ensures Owned(reps[i := r], heap')
    ensures Values(reps[i := r], heap') == Values(reps, heap)[i := r.Value(heap')]
  {
    assert BlockSet(reps[i]) + BlockSet(reps[i]) == BlockSet(reps[i]) && BlockSet(r) + BlockSet(r) == BlockSet(r);
    ReplaceTwo(reps, heap, i, i, r, r, heap');
    assert reps[i := r][i := r] == reps[i := r];
  }

  /** A variable enters the scope, empty. */
  lemma AppendOne(reps: seq<Rep>, heap: Heap, r: Rep)
    requires Owned(reps, heap) && r.Valid(heap) && BlockSet(r) == {}
    ensures Owned(reps + [r], heap) && Values(reps + [r], heap) == Values(reps, heap) + [r.Value(heap)]
  {
    var reps' := reps + [r];
    forall b | b in heap ensures HasOwner(reps', b) {
      assert HasOwner(reps, b);
      var k :| 0 <= k < |reps| && b in BlockSet(reps[k]);
      assert b in BlockSet(reps'[k]);
    }
  }

  /** A variable leaves the scope, empty. */
  lemma DropOne(reps: seq<Rep>, heap: Heap)
    requires Owned(reps, heap) && reps != [] && BlockSet(reps[|reps| - 1]) == {}
    ensures Owned(reps[..|reps| - 1], heap)
    ensures Values(reps[..|reps| - 1], heap) == Values(reps, heap)[..|reps| - 1]
  {
    var reps' := reps[..|reps| - 1];
    forall b | b in heap ensures HasOwner(reps', b) {
      assert HasOwner(reps, b);
      var k :| 0 <= k < |reps| && b in BlockSet(reps[k]);
      assert b in BlockSet(reps'[k]);
    }
  }

  const NOTHING := Rep(false, Zero, None)

  lemma AppendOwned(reps: seq<Rep>, heap: Heap, r: Rep, heap': Heap)
    requires Owned(reps, heap) && r.Valid(heap') && ChangedSets(heap, {}, BlockSet(r), heap')
    ensures Owned(reps + [r], heap') && Values(reps + [r], heap') == Values(reps, heap) + [r.Value(heap')]
  {
    AppendOne(reps, heap, NOTHING);
    ReplaceOne(reps + [NOTHING], heap, |reps|, r, heap');
    assert (reps + [NOTHING])[|reps| := r] == reps + [r];
  }

  lemma AppendMoved(reps: seq<Rep>, heap: Heap, i: nat, left: Rep, r: Rep)
    requires Owned(reps, heap) && i < |reps| && left.Valid(heap) && r.Valid(heap)
    requires BlockSet(r) == BlockSet(reps[i]) && BlockSet(left) == {}
    ensures Owned(reps[i := left] + [r], heap)
    ensures Values(reps[i := left] + [r], heap) == Values(reps, heap)[i := left.Value(heap)] + [r.Value(heap)]
  {
    AppendOne(reps, heap, NOTHING);
    var more := reps + [NOTHING];
    assert BlockSet(more[i]) == BlockSet(r) <= heap.Keys by { assert r.Valid(heap); }
    assert ChangedSets(heap, BlockSet(more[i]) + BlockSet(more[|reps|]), BlockSet(left) + BlockSet(r), heap);
    ReplaceTwo(more, heap, i, |reps|, left, r, heap);
    assert more[i := left][|reps| := r] == reps[i := left] + [r];
  }

  /**
   * The books balance: every block has exactly one owner, and the objects that were constructed
   * and not destroyed are as many as the variables hold.
   */
  ghost predicate Ledger(reps: seq<Rep>, heap: Heap, live: int) {
    Owned(reps, heap) && live == Occupied(Values(reps, heap))
  }

  lemma LedgerAppend(reps: seq<Rep>, heap: Heap, live: int, r: Rep, heap': Heap, live': int)
    requires Ledger(reps, heap, live) && r.Valid(heap') && Changed(heap, None, r.Block(), heap')
    requires live' == live + Count(r.Value(heap'))
    ensures Ledger(reps + [r], heap', live')
    ensures Values(reps + [r], heap') == Values(reps, heap) + [r.Value(heap')]
  {
    assert heap'.Keys == heap.Keys - {} + BlockSet(r);
    AppendOwned(reps, heap, r, heap');
    OccupiedAppend(Values(reps, heap), r.Value(heap'));
  }

  lemma LedgerAppendMoved(reps: seq<Rep>, heap: Heap, live: int, i: nat, left: Rep, r: Rep, live': int)
    requires Ledger(reps, heap, live) && i < |reps| && left.Valid(heap) && r.Valid(heap)
    requires r.Block() == reps[i].Block() && left.Block() == None
    requires live' == live - Count(reps[i].Value(heap)) + Count(left.Value(heap)) + Count(r.Value(heap))
    ensures Ledger(reps[i := left] + [r], heap, live')
    ensures Values(reps[i := left] + [r], heap) == Values(reps, heap)[i := left.Value(heap)] + [r.Value(heap)]
  {
    AppendMoved(reps, heap, i, left, r);
    var values := Values(reps, heap);
    OccupiedUpdate(values, i, left.Value(heap));
    OccupiedAppend(values[i := left.Value(heap)], r.Value(heap));
  }

  lemma LedgerReplaceOne(reps: seq<Rep>, heap: Heap, live: int, i: nat, r: Rep, heap': Heap, live': int)
    requires Ledger(reps, heap, live) && i < |reps| && r.Valid(heap')
    requires Changed(heap, reps[i].Block(), r.Block(), heap')
    requires live' == live - Count(reps[i].Value(heap)) + Count(r.Value(heap'))
    ensures Ledger(reps[i := r], heap', live')
    ensures Values(reps[i := r], heap') == Values(reps, heap)[i := r.Value(heap')]
  {
    assert heap'.Keys == heap.Keys - BlockSet(reps[i]) + BlockSet(r);
    ReplaceOne(reps, heap, i, r, heap');
    OccupiedUpdate(Values(reps, heap), i, r.Value(heap'));
  }

  lemma LedgerReplaceTwo(reps: seq<Rep>, heap: Heap, live: int, i: nat, j: nat, r: Rep, s: Rep, heap': Heap, live': int)
    requires Ledger(reps, heap, live) && i != j && Exchange(reps, heap, i, j, r, s, heap')
    requires live' == live - Count(reps[i].Value(heap)) - Count(reps[j].Value(heap)) + Count(r.Value(heap')) + Count(s.Value(heap'))
    ensures Ledger(reps[i := r][j := s], heap', live')
    ensures Values(reps[i := r][j := s], heap') == Values(reps, heap)[i := r.Value(heap')][j := s.Value(heap')]
  {
    ReplaceTwo(reps, heap, i, j, r, s, heap');
    var values := Values(reps, heap);
    OccupiedUpdate(values, i, r.Value(heap'));
    OccupiedUpdate(values[i := r.Value(heap')], j, s.Value(heap'));
  }

  lemma LedgerSwap(reps: seq<Rep>, heap: Heap, live: int, i: nat, j: nat, r: Rep, s: Rep)
    requires Ledger(reps, heap, live) && i < |reps| && j < |reps| && i != j && r.Valid(heap) && s.Valid(heap)
    requires r.Block() == reps[j].Block() && r.Value(heap) == reps[j].Value(heap)
    requires s.Block() == reps[i].Block() && s.Value(heap) == reps[i].Value(heap)
    ensures Ledger(reps[i := r][j := s], heap, live)
    ensures Values(reps[i := r][j := s], heap) == Values(reps, heap)[i := r.Value(heap)][j := s.Value(heap)]
  {
    assert BlockSet(r) == BlockSet(reps[j]) <= heap.Keys && BlockSet(s) == BlockSet(reps[i]) <= heap.Keys;
    LedgerReplaceTwo(reps, heap, live, i, j, r, s, heap, live);
  }

  lemma LedgerAssignMove(reps: seq<Rep>, heap: Heap, live: int, i: nat, j: nat, left: Rep, r: Rep, heap': Heap, live': int)
    requires Ledger(reps, heap, live) && i < |reps| && j < |reps| && i != j && left.Valid(heap') && r.Valid(heap')
    requires left.Block() == None && r.Block() == reps[j].Block() && r.Value(heap') == reps[j].Value(heap)
    requires Changed(heap, reps[i].Block(), None, heap')
    requires live' == live - Count(reps[i].Value(heap)) + Count(left.Value(heap'))
    ensures Ledger(reps[j := left][i := r], heap', live')
    ensures Values(reps[j := left][i := r], heap') == Values(reps, heap)[j := left.Value(heap')][i := r.Value(heap')]
  {
    assert BlockSet(reps[i]) !! BlockSet(reps[j]);
    assert reps[j].Valid(heap) && BlockSet(r) == BlockSet(reps[j]) <= heap.Keys && BlockSet(left) == {};
    assert heap'.Keys == heap.Keys - (BlockSet(reps[j]) + BlockSet(reps[i])) + (BlockSet(left) + BlockSet(r));
    LedgerReplaceTwo(reps, heap, live, j, i, left, r, heap', live');
  }

  lemma LedgerApart(reps: seq<Rep>, heap: Heap, live: int, i: nat, j: nat)
    requires Ledger(reps, heap, live) && i < |reps| && j < |reps|
    ensures reps[i].Valid(heap) && reps[j].Valid(heap)
    ensures i != j && reps[i].Block().Some? ==> reps[j].Block() != reps[i].Block()
  {
    assert i != j ==> BlockSet(reps[i]) !! BlockSet(reps[j]);
  }

  lemma LedgerDrop(reps: seq<Rep>, heap: Heap, live: int)
    requires Ledger(reps, heap, live) && reps != [] && reps[|reps| - 1].Value(heap) == None
    ensures Ledger(reps[..|reps| - 1], heap, live)
    ensures Values(reps[..|reps| - 1], heap) == Values(reps, heap)[..|reps| - 1]
  {
    assert reps[|reps| - 1].Valid(heap);
    DropOne(reps, heap);
  }

  class Pool {
    const mem: Memory
    var vars: seq<Variant>
    ghost var reps: seq<Rep>

    ghost function Stores(): set<HeapOrInline>
      reads this
    {
      set v | v in vars :: v.store
    }

    /** Different variables are different storage. */
    ghost predicate Distinct()
      reads this
    {
      forall i, j :: 0 <= i < |vars| && 0 <= j < |vars| && i != j ==> vars[i] != vars[j] && vars[i].store != vars[j].store
    }

    ghost predicate Mirrored()
      reads this, vars, Stores()
    {
      && |reps| == |vars|
      && (forall i :: 0 <= i < |vars| ==> vars[i].mem == mem && vars[i].store.mem == mem)
      && (forall i {:trigger vars[i].State()} :: 0 <= i < |vars| ==> vars[i].State() == reps[i])
    }

    ghost function Contents(): seq<Option<Object>>
      reads this, mem
    {
      Values(reps, mem.heap)
    }

    ghost predicate Valid()
      reads this, mem, vars, Stores()
    {
      mem.Clean() && Distinct() && Mirrored() && Ledger(reps, mem.heap, mem.Live())
    }

    /** One variable was made, out of fresh storage. */
    twostate predicate Grown(was: seq<Variant>)
      reads this
    {
      |vars| == |was| + 1 && vars[..|was|] == was && fresh(vars[|was|]) && fresh(vars[|was|].store)
    }

    constructor ()
      ensures Valid() && vars == [] && Contents() == []
      ensures fresh(mem) && mem.constructed == mem.destroyed == mem.mallocs == mem.frees == 0
    {
      mem := new Memory();
      vars, reps := [], [];
    }

    /** A new Variant joins the pool. */
    method Append(v: Variant)
      requires Distinct() && Mirrored() && mem.Clean()
      requires v.mem == mem && v.store.mem == mem && v !in vars && v.store !in Stores()
      requires Ledger(reps + [v.State()], mem.heap, mem.Live())
      modifies this
      ensures Valid() && vars == old(vars) + [v] && reps == old(reps) + [v.State()]
    {
      vars, reps := vars + [v], reps + [v.State()];
    }

    method DoMakeEmpty()
      requires Valid()
      modifies this
      ensures Valid() && Step(old(Contents()), Op.MakeEmpty, Contents())
      ensures Grown(old(vars))
    {
      var v := new Variant.Empty(mem);
      LedgerAppend(reps, mem.heap, mem.Live(), v.State(), mem.heap, mem.Live());
      Append(v);
    }

    method DoMakeValue(o: Object)
      requires Valid()
      modifies this, mem
      ensures Valid() && Step(old(Contents()), Op.MakeValue(o), Contents())
      ensures Grown(old(vars))
    {
      var v := new Variant.FromValue(mem, o);
      LedgerAppend(reps, old(mem.heap), old(mem.Live()), v.State(), mem.heap, mem.Live());
      Append(v);
    }

    method DoMakeCopy(i: nat)
      requires Valid() && i < |vars|
      modifies this, mem
      ensures Valid() && Step(old(Contents()), Op.MakeCopy(i), Contents())
      ensures Grown(old(vars))
    {
      LedgerApart(reps, mem.heap, mem.Live(), i, i);
      var v := new Variant.Copy(vars[i]);
      LedgerAppend(reps, old(mem.heap), old(mem.Live()), v.State(), mem.heap, mem.Live());
      Append(v);
    }

    method DoMakeMove(i: nat)
      requires Valid() && i < |vars|
      modifies this, mem, vars[i], vars[i].store
      ensures Valid() && Step(old(Contents()), Op.MakeMove(i), Contents())
      ensures Grown(old(vars))
    {
      LedgerApart(reps, mem.heap, mem.Live(), i, i);
      var v := new Variant.Move(vars[i]);
      LedgerAppendMoved(reps, mem.heap, old(mem.Live()), i, vars[i].State(), v.State(), mem.Live());
      vars, reps := vars + [v], reps[i := vars[i].State()] + [v.State()];
    }

    method DoAssignValue(i: nat, o: Object)
      requires Valid() && i < |vars|
      modifies this, mem, vars[i], vars[i].store
      ensures Valid() && Step(old(Contents()), Op.AssignValue(i, o), Contents())
      ensures vars == old(vars)
    {
      LedgerApart(reps, mem.heap, mem.Live(), i, i);
      vars[i].AssignValue(o);
      LedgerReplaceOne(reps, old(mem.heap), old(mem.Live()), i, vars[i].State(), mem.heap, mem.Live());
      reps := reps[i := vars[i].State()];
    }

    method DoAssignCopy(i: nat, j: nat)
      requires Valid() && i < |vars| && j < |vars| && i != j
      modifies this, mem, vars[i], vars[i].store
      ensures Valid() && Step(old(Contents()), Op.AssignCopy(i, j), Contents())
      ensures vars == old(vars)
    {
      LedgerApart(reps, mem.heap, mem.Live(), i, j);
      vars[i].AssignCopy(vars[j]);
      LedgerReplaceOne(reps, old(mem.heap), old(mem.Live()), i, vars[i].State(), mem.heap, mem.Live());
      reps := reps[i := vars[i].State()];
    }

    method DoAssignCopySelf(i: nat)
      requires Valid() && i < |vars|
      modifies this, mem, vars[i], vars[i].store
      ensures Valid() && Step(old(Contents()), Op.AssignCopy(i, i), Contents())
      ensures vars == old(vars)
    {
      LedgerApart(reps, mem.heap, mem.Live(), i, i);
      vars[i].AssignCopy(vars[i]);
      LedgerReplaceOne(reps, old(mem.heap), old(mem.Live()), i, vars[i].State(), mem.heap, mem.Live());
      reps := reps[i := vars[i].State()];
    }

    ghost predicate MirroredBut(i: nat, j: nat)
      requires |reps| == |vars|
      reads this, vars, Stores()
    {
      && (forall k :: 0 <= k < |vars| ==> vars[k].mem == mem && vars[k].store.mem == mem)
      && (forall k {:trigger vars[k].State()} :: 0 <= k < |vars| && k != i && k != j ==> vars[k].State() == reps[k])
    }

    /** The move itself, before the books are brought up to date. */
    method MoveOnly(i: nat, j: nat)
      requires Valid() && i < |vars| && j < |vars| && i != j
      modifies mem, vars[i], vars[i].store, vars[j], vars[j].store
      ensures mem.Clean() && Distinct() && |reps| == |vars| && MirroredBut(i, j)
      ensures vars[j].State().Valid(mem.heap) && vars[i].State().Valid(mem.heap) && vars[j].State().Block() == None
      ensures vars[i].State().Block() == reps[j].Block() && vars[i].State().Value(mem.heap) == old(reps[j].Value(mem.heap))
      ensures MovedFrom(old(reps[j].Value(mem.heap)), vars[j].State().Value(mem.heap))
      ensures Changed(old(mem.heap), reps[i].Block(), None, mem.heap)
      ensures mem.Live() == old(mem.Live()) - old(Count(reps[i].Value(mem.heap))) + Count(vars[j].State().Value(mem.heap))
    {
      LedgerApart(reps, mem.heap, mem.Live(), i, j);
      vars[i].AssignMove(vars[j]);
    }

    /** The move, before the books are closed again. */
    method MoveBetween(i: nat, j: nat)
      requires Valid() && i < |vars| && j < |vars| && i != j
      modifies this`reps, mem, vars[i], vars[i].store, vars[j], vars[j].store
      ensures mem.Clean() && Distinct() && Mirrored()
      ensures reps == old(reps)[j := reps[j]][i := reps[i]]
      ensures reps[j].Valid(mem.heap) && reps[i].Valid(mem.heap) && reps[j].Block() == None
      ensures reps[i].Block() == old(reps)[j].Block() && reps[i].Value(mem.heap) == old(reps[j].Value(mem.heap))
      ensures MovedFrom(old(reps[j].Value(mem.heap)), reps[j].Value(mem.heap))
      ensures Changed(old(mem.heap), old(reps)[i].Block(), None, mem.heap)
      ensures mem.Live() == old(mem.Live()) - old(Count(reps[i].Value(mem.heap))) + Count(reps[j].Value(mem.heap))
    {
      MoveOnly(i, j);
      reps := reps[j := vars[j].State()][i := vars[i].State()];
    }

    method DoAssignMove(i: nat, j: nat)
      requires Valid() && i < |vars| && j < |vars| && i != j
      modifies this, mem, vars[i], vars[i].store, vars[j], vars[j].store
      ensures Valid() && Step(old(Contents()), Op.AssignMove(i, j), Contents())
      ensures vars == old(vars)
    {
      MoveBetween(i, j);
      LedgerAssignMove(old(reps), old(mem.heap), old(mem.Live()), i, j, reps[j], reps[i], mem.heap, mem.Live());
    }

    method DoAssignMoveSelf(i: nat)
      requires Valid() && i < |vars|
      modifies this, mem, vars[i], vars[i].store
      ensures Valid() && Step(old(Contents()), Op.AssignMove(i, i), Contents())
      ensures vars == old(vars)
    {
      LedgerApart(reps, mem.heap, mem.Live(), i, i);
      vars[i].AssignMove(vars[i]);
      LedgerReplaceOne(reps, old(mem.heap), old(mem.Live()), i, vars[i].State(), mem.heap, mem.Live());
      reps := reps[i := vars[i].State()];
    }

    method DoSwap(i: nat, j: nat)
      requires Valid() && i < |vars| && j < |vars| && i != j
      modifies this, mem, vars[i], vars[i].store, vars[j], vars[j].store
      ensures Valid() && Step(old(Contents()), Op.Swap(i, j), Contents())
      ensures vars == old(vars)
    {
      LedgerApart(reps, mem.heap, mem.Live(), i, j);
      var one, two := vars[i], vars[j];
      one.Swap(two);
      ghost var r, s := one.State(), two.State();
      LedgerSwap(reps, mem.heap, mem.Live(), i, j, r, s);
      reps := reps[i := r][j := s];
    }

    method DoSwapSelf(i: nat)
      requires Valid() && i < |vars|
      modifies this, mem, vars[i], vars[i].store
      ensures Valid() && Step(old(Contents()), Op.Swap(i, i), Contents())
      ensures vars == old(vars)
    {
      LedgerApart(reps, mem.heap, mem.Live(), i, i);
      vars[i].Swap(vars[i]);
      LedgerReplaceOne(reps, old(mem.heap), old(mem.Live()), i, vars[i].State(), mem.heap, mem.Live());
      reps := reps[i := vars[i].State()];
    }

    method DoClear(i: nat)
      requires Valid() && i < |vars|
      modifies this, mem, vars[i], vars[i].store
      ensures Valid() && Step(old(Contents()), Op.Clear(i), Contents()) && vars == old(vars)
    {
      LedgerApart(reps, mem.heap, mem.Live(), i, i);
      vars[i].Clear();
      LedgerReplaceOne(reps, old(mem.heap), old(mem.Live()), i, vars[i].State(), mem.heap, mem.Live());
      reps := reps[i := vars[i].State()];
    }

    method DoDrop()
      requires Valid() && vars != []
      modifies this, mem, vars[|vars| - 1], vars[|vars| - 1].store
      ensures Valid() && Step(old(Contents()), Op.Drop, Contents())
      ensures vars == old(vars)[..|old(vars)| - 1]
    {
      var last := |vars| - 1;
      DoClear(last);
      LedgerDrop(reps, mem.heap, mem.Live());
      vars, reps := vars[..last], reps[..last];
    }

    ghost function Objects(): set<object>
      reads this
    {
      (set v | v in vars :: v as object) + (set v | v in vars :: v.store as object)
    }

    /** An operation that makes a variable. */
    method PerformMake(op: Op)
      requires Valid() && Applicable(op, |vars|) && IsMake(op)
      modifies this, mem, vars, Stores()
      ensures Valid() && Step(old(Contents()), op, Contents()) && Grown(old(vars))
    {
      match op
      case MakeEmpty => DoMakeEmpty();
      case MakeValue(o) => DoMakeValue(o);
      case MakeCopy(i) => DoMakeCopy(i);
      case MakeMove(i) => DoMakeMove(i);
    }

    /** An operation on existing variables. */
    method PerformInPlace(op: Op)
      requires Valid() && Applicable(op, |vars|) && !IsMake(op)
      modifies this, mem, vars, Stores()
      ensures Valid() && Step(old(Contents()), op, Contents())
      ensures vars == if op.Drop? then old(vars)[..|old(vars)| - 1] else old(vars)
    {
      match op
      case AssignValue(i, o) => DoAssignValue(i, o);
      case AssignCopy(i, j) => if i == j { DoAssignCopySelf(i); } else { DoAssignCopy(i, j); }
      case AssignMove(i, j) => if i == j { DoAssignMoveSelf(i); } else { DoAssignMove(i, j); }
      case Swap(i, j) => if i == j { DoSwapSelf(i); } else { DoSwap(i, j); }
      case Clear(i) => DoClear(i);
      case Drop => DoDrop();
    }

    /** Any one operation: the pool stays valid and its contents take the step of the specification. */
    method Perform(op: Op)
      requires Valid() && Applicable(op, |vars|)
      modifies this, mem, vars, Stores()
      ensures Valid() && Step(old(Contents()), op, Contents())
      ensures fresh(Objects() - old(Objects()))
    {
      if IsMake(op) {
        PerformMake(op);
      } else {
        PerformInPlace(op);
        assert forall v: Variant <- vars :: v in old(vars);
        assert Objects() <= old(Objects());
      }
    }

    /** One step of a run. */
    method PerformNext(ops: seq<Op>, k: nat, ghost trace: seq<seq<Option<Object>>>) returns (ghost longer: seq<seq<Option<Object>>>)
      requires Valid() && k < |ops| && Runnable(ops[k..], |vars|)
      requires Follows(trace, ops[..k]) && trace[k] == Contents()
      modifies this, mem, vars, Stores()
      ensures Valid() && Runnable(ops[k + 1..], |vars|)
      ensures Follows(longer, ops[..k + 1]) && longer[0] == trace[0] && longer[k + 1] == Contents()
      ensures fresh(Objects() - old(Objects()))
    {
      RunnableNext(ops, k, |vars|);
      Perform(ops[k]);
      FollowsOn(trace, ops, k, Contents());
      longer := trace + [Contents()];
    }

    /** Any run: every state on the way is a valid pool, and the contents follow the specification. */
    method Run(ops: seq<Op>) returns (ghost trace: seq<seq<Option<Object>>>)
      requires Valid() && Runnable(ops, |vars|)
      modifies this, mem, vars, Stores()
      ensures Valid() && Follows(trace, ops)
      ensures trace[0] == old(Contents()) && trace[|ops|] == Contents()
    {
      trace := [Contents()];
      for k := 0 to |ops|
        invariant Valid() && Runnable(ops[k..], |vars|)
        invariant Follows(trace, ops[..k]) && trace[0] == old(Contents()) && trace[k] == Contents()
        invariant fresh(Objects() - old(Objects()))
        modifies this, mem, vars, Stores()
      {
        assert forall v: Variant <- vars :: (v as object) in Objects() && (v.store as object) in Objects();
        trace := PerformNext(ops, k, trace);
      }
    }

    /** When all variables are gone, everything constructed was destroyed and everything allocated was freed. */
    method DropAll()
      requires Valid()
      modifies this, mem, vars, Stores()
      ensures Valid() && vars == [] && mem.heap == map[]
      ensures mem.constructed == mem.destroyed && mem.mallocs == mem.frees
    {
      while vars != []
        invariant Valid() && Objects() <= old(Objects())
        modifies this, mem, vars, Stores()
        decreases |vars|
      {
        assert forall v: Variant <- vars :: (v as object) in Objects() && (v.store as object) in Objects();
        DoDrop();
      }
      assert forall b :: b in mem.heap ==> HasOwner(reps, b);
    }
  }

  predicate IsMake(op: Op) {
    op.MakeEmpty? || op.MakeValue? || op.MakeCopy? || op.MakeMove?
  }

  ghost function SizeAfter(op: Op, n: nat): nat
    requires Applicable(op, n)
  {
    if IsMake(op) then n + 1
    else if op.Drop? then n - 1
    else n
  }

  ghost predicate Runnable(ops: seq<Op>, n: nat) {
    ops == [] || (Applicable(ops[0], n) && Runnable(ops[1..], SizeAfter(ops[0], n)))
  }

  lemma RunnableNext(ops: seq<Op>, k: nat, n: nat)
    requires k < |ops| && Runnable(ops[k..], n)
    ensures Applicable(ops[k], n) && Runnable(ops[k + 1..], SizeAfter(ops[k], n))
  {
    assert ops[k..][0] == ops[k] && ops[k..][1..] == ops[k + 1..];
  }

  ghost predicate Follows(trace: seq<seq<Option<Object>>>, ops: seq<Op>) {
    && |trace| == |ops| + 1
    && forall k :: 0 <= k < |ops| ==> Applicable(ops[k], |trace[k]|) && Step(trace[k], ops[k], trace[k + 1])
  }

  lemma FollowsOn(trace: seq<seq<Option<Object>>>, ops: seq<Op>, k: nat, next: seq<Option<Object>>)
    requires k < |ops| && Follows(trace, ops[..k])
    requires Applicable(ops[k], |trace[k]|) && Step(trace[k], ops[k], next)
    ensures Follows(trace + [next], ops[..k + 1])
  {
  }
}
