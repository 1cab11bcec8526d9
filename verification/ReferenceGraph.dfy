/**
 * Reference counting as resource_mgr.h and refcount.h use it: every pointer that owns a reference
 * is a holder, and each resource counts its holders.
 */
module ReferenceGraph {

  /** A resource is known by container, type and name. */
  datatype Key = Key(container: string, typeCode: nat, name: string)

  /** The pointers that own one reference each. */
  datatype Holder =
    | Entry(key: Key)                   // the table of the ResourceMgr
    | Local(thread: nat, slot: nat)     // a variable of a caller
    | Field(kernel: nat)                // `resource_` of a ResourceOpKernel

  /** The owning pointers, the counts of the live resources, and the next address to allocate. */
  datatype Graph = Graph(ptr: map<Holder, nat>, count: map<nat, nat>, next: nat)

  ghost function Holders(ptr: map<Holder, nat>, r: nat): set<Holder> {
    set h | h in ptr && ptr[h] == r
  }

  /**
   * Conservation: a live resource counts exactly its holders, of which it has at least one, and
   * no owning pointer dangles.
   */
  ghost predicate Conserved(g: Graph) {
    && (forall h <- g.ptr :: g.ptr[h] in g.count)
    && (forall r <- g.count :: r < g.next && g.count[r] == |Holders(g.ptr, r)| && g.count[r] >= 1)
  }

  /** A new object with its initial count of one. */
  function NewRef(g: Graph, h: Holder): Graph {
    Graph(g.ptr[h := g.next], g.count[g.next := 1], g.next + 1)
  }

  /** `Ref()`, for a new pointer `h` to a live resource. */
  function AddRef(g: Graph, h: Holder, r: nat): Graph
    requires r in g.count
  {
    g.(ptr := g.ptr[h := r], count := g.count[r := g.count[r] + 1])
  }

  /** `Unref()` returns true: the object is deleted. */
  predicate UnrefDeletes(g: Graph, h: Holder)
    requires h in g.ptr && g.ptr[h] in g.count
  {
    g.count[g.ptr[h]] == 1
  }

  /** `Unref()` through `h`, which does not own anything afterwards. */
  function DropRef(g: Graph, h: Holder): Graph
    requires h in g.ptr && g.ptr[h] in g.count && g.count[g.ptr[h]] >= 1
  {
    var r := g.ptr[h];
    g.(ptr := g.ptr - {h}, count := if UnrefDeletes(g, h) then g.count - {r} else g.count[r := g.count[r] - 1])
  }

  /** A reference changes hands. */
  function MoveRef(g: Graph, h: Holder, h': Holder): Graph
    requires h in g.ptr
  {
    g.(ptr := (g.ptr - {h})[h' := g.ptr[h]])
  }

  /** Entry i of a vector of pointers that thread `t` owns. */
  function EntryVar(t: nat, first: nat, i: nat): Holder {
    Local(t, first + i)
  }

  /** The entries of a vector of `n` pointers own nothing. */
  predicate FreeSlots(g: Graph, t: nat, first: nat, n: nat) {
    forall i: nat | i < n :: EntryVar(t, first, i) !in g.ptr
  }

  lemma NewRefConserves(g: Graph, h: Holder)
    requires Conserved(g) && h !in g.ptr
    ensures Conserved(NewRef(g, h))
  {
    var g' := NewRef(g, h);
    forall r | r in g'.count ensures g'.count[r] == |Holders(g'.ptr, r)| {
      if r == g.next {
        assert Holders(g'.ptr, r) == {h};
      } else {
        assert Holders(g'.ptr, r) == Holders(g.ptr, r);
      }
    }
  }

  lemma AddRefConserves(g: Graph, h: Holder, r: nat)
    requires Conserved(g) && h !in g.ptr && r in g.count
    ensures Conserved(AddRef(g, h, r))
  {
    var g' := AddRef(g, h, r);
    assert Holders(g'.ptr, r) == Holders(g.ptr, r) + {h};
    assert h !in Holders(g.ptr, r);
    forall q | q in g'.count && q != r ensures g'.count[q] == |Holders(g'.ptr, q)| {
      assert Holders(g'.ptr, q) == Holders(g.ptr, q);
    }
  }

  lemma DropRefConserves(g: Graph, h: Holder)
    requires Conserved(g) && h in g.ptr
    ensures Conserved(DropRef(g, h))
  {
    var g' := DropRef(g, h);
    var r := g.ptr[h];
    assert Holders(g'.ptr, r) == Holders(g.ptr, r) - {h};
    forall p | p in g'.ptr ensures g'.ptr[p] in g'.count {
      if g.ptr[p] == r {
        assert {h, p} <= Holders(g.ptr, r) && |{h, p}| == 2;
        SubsetSize({h, p}, Holders(g.ptr, r));
      }
    }
    forall q | q in g'.count && q != r ensures g'.count[q] == |Holders(g'.ptr, q)| {
      assert Holders(g'.ptr, q) == Holders(g.ptr, q);
    }
  }

  lemma MoveRefConserves(g: Graph, h: Holder, h': Holder)
    requires Conserved(g) && h in g.ptr && h' !in g.ptr
    ensures Conserved(MoveRef(g, h, h'))
  {
    var g' := MoveRef(g, h, h');
    forall q | q in g'.count ensures g'.count[q] == |Holders(g'.ptr, q)| {
      if q == g.ptr[h] {
        assert Holders(g'.ptr, q) == Holders(g.ptr, q) - {h} + {h'};
      } else {
        assert Holders(g'.ptr, q) == Holders(g.ptr, q);
      }
    }
  }

  lemma {:induction false} SubsetSize<T>(a: set<T>, b: set<T>)
    requires a <= b
    ensures |a| <= |b|
  {
    if a != {} {
      var x :| x in a;
      SubsetSize(a - {x}, b - {x});
    }
  }

  /** Nothing else owns the resource that `h` owns. */
  ghost predicate Sole(g: Graph, h: Holder) {
    h in g.ptr && forall p <- g.ptr :: g.ptr[p] == g.ptr[h] ==> p == h
  }

  /** `Unref()` deletes the object exactly when nothing else owns it. */
  lemma UnrefDeletesIffSole(g: Graph, h: Holder)
    requires Conserved(g) && h in g.ptr
    ensures UnrefDeletes(g, h) <==> Sole(g, h)
    ensures UnrefDeletes(g, h) <==> g.ptr[h] !in DropRef(g, h).count
  {
    var all := Holders(g.ptr, g.ptr[h]);
    assert h in all;
    if Sole(g, h) {
      assert all == {h};
    } else {
      var p :| p in g.ptr && g.ptr[p] == g.ptr[h] && p != h;
      assert {h, p} <= all && |{h, p}| == 2;
      SubsetSize({h, p}, all);
    }
  }

  /** A lookup followed by an unref, as `IsResourceInitialized` does it, leaves no trace. */
  lemma LookupThenUnref(g: Graph, h: Holder, r: nat)
    requires Conserved(g) && h !in g.ptr && r in g.count
    ensures !UnrefDeletes(AddRef(g, h, r), h) && DropRef(AddRef(g, h, r), h) == g
  {
    assert g.ptr[h := r] - {h} == g.ptr;
  }

  ghost function Entries(ptr: map<Holder, nat>, r: nat): set<Holder> {
    set h | h in Holders(ptr, r) && h.Entry?
  }

  ghost function Callers(ptr: map<Holder, nat>, r: nat): set<Holder> {
    set h | h in Holders(ptr, r) && h.Local?
  }

  ghost function Kernels(ptr: map<Holder, nat>, r: nat): set<Holder> {
    set h | h in Holders(ptr, r) && h.Field?
  }

  /** The count of a resource is what the table, the callers and the kernels own together. */
  lemma CountIsShared(g: Graph, r: nat)
    requires Conserved(g) && r in g.count
    ensures g.count[r] == |Entries(g.ptr, r)| + |Callers(g.ptr, r)| + |Kernels(g.ptr, r)|
  {
    var e, c, k := Entries(g.ptr, r), Callers(g.ptr, r), Kernels(g.ptr, r);
    assert Holders(g.ptr, r) == e + c + k;
    assert e !! c && (e + c) !! k;
  }
}
