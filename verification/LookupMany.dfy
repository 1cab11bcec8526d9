/**
 * `ResourceMgr::LookupMany` (resource_mgr.h): one reference for each key that is in the table, all
 * taken under one hold of the shared lock, into a vector of owning pointers that was empty. Here the call
 * runs undisturbed; as a stage of the protocol, with other threads at work, it is in `ResourceProtocol`.
 */
module LookupMany {
  import opened Wrappers
  import opened ReferenceGraph

  ghost function Found(g: Graph, keys: seq<Key>): (found: seq<Option<nat>>)
    ensures |found| == |keys|
    ensures forall i :: 0 <= i < |keys| ==>
              found[i] == if Entry(keys[i]) in g.ptr then Some(g.ptr[Entry(keys[i])]) else None
  {
    seq(|keys|, i requires 0 <= i < |keys| => if Entry(keys[i]) in g.ptr then Some(g.ptr[Entry(keys[i])]) else None)
  }

  /** `g'` is `g` with the references of the vector of `thread`, as far as it is filled. */
  ghost predicate Filled(g: Graph, g': Graph, thread: nat, first: nat, found: seq<Option<nat>>) {
    Conserved(g') && g'.next == g.next && g'.count.Keys == g.count.Keys && Extends(g.ptr, g'.ptr, thread, first, found)
  }

  ghost predicate Extends(ptr: map<Holder, nat>, ptr': map<Holder, nat>, thread: nat, first: nat, found: seq<Option<nat>>) {
    && (forall h :: h in ptr ==> h in ptr' && ptr'[h] == ptr[h])
    && (forall h :: h in ptr' ==> h in ptr || IsEntry(h, thread, first, found))
    && (forall i: nat {:trigger EntryVar(thread, first, i)} | i < |found| && found[i].Some? ::
         EntryVar(thread, first, i) in ptr' && ptr'[EntryVar(thread, first, i)] == found[i].value)
  }

  /** A pointer of the vector that owns a reference. */
  ghost predicate IsEntry(h: Holder, thread: nat, first: nat, found: seq<Option<nat>>) {
    h.Local? && h.thread == thread && first <= h.slot < first + |found| && found[h.slot - first].Some?
  }

  /** The first entries of the vector are filled as they should be. */
  ghost predicate Progress(g: Graph, g': Graph, thread: nat, first: nat, keys: seq<Key>, resources: seq<Option<nat>>) {
    && |resources| <= |keys| && resources == Found(g, keys)[..|resources|]
    && Filled(g, g', thread, first, resources)
    && (forall r <- g.count :: g'.count[r] == g.count[r] + Times(resources, r))
  }

  /** Entry i of the vector owns a reference to the resource of key i exactly if the key is in the table. */
  method Lookup(g: Graph, thread: nat, first: nat, keys: seq<Key>) returns (g': Graph, resources: seq<Option<nat>>)
    requires Conserved(g) && FreeSlots(g, thread, first, |keys|)
    ensures resources == Found(g, keys)
    ensures Filled(g, g', thread, first, resources)
    ensures forall r <- g.count :: g'.count[r] == g.count[r] + Times(resources, r)
  {
    g', resources := g, [];
    for i := 0 to |keys|
      invariant |resources| == i && Progress(g, g', thread, first, keys, resources)
    {
      LookupStep(g, g', thread, first, keys, resources);
      if Entry(keys[i]) in g'.ptr {
        var r := g'.ptr[Entry(keys[i])];
        g' := AddRef(g', EntryVar(thread, first, i), r);
        resources := resources + [Some(r)];
      } else {
        resources := resources + [None];
      }
    }
  }

  lemma LookupStep(g: Graph, g': Graph, thread: nat, first: nat, keys: seq<Key>, resources: seq<Option<nat>>)
    requires FreeSlots(g, thread, first, |keys|) && |resources| < |keys| && Progress(g, g', thread, first, keys, resources)
    ensures var i := |resources|;
            if Entry(keys[i]) in g'.ptr then
              var r := g'.ptr[Entry(keys[i])];
              r in g'.count && Progress(g, AddRef(g', EntryVar(thread, first, i), r), thread, first, keys, resources + [Some(r)])
            else Progress(g, g', thread, first, keys, resources + [None])
  {
    var i := |resources|;
    assert Found(g, keys)[..i + 1] == Found(g, keys)[..i] + [Found(g, keys)[i]];
    if Entry(keys[i]) in g'.ptr {
      var r := g'.ptr[Entry(keys[i])];
      FillOne(g, g', thread, first, resources, r);
      TimesNext(resources, Some(r));
    } else {
      FillNone(g, g', thread, first, resources);
      TimesNext(resources, None);
    }
  }

  lemma ExtendOne(ptr: map<Holder, nat>, ptr': map<Holder, nat>, thread: nat, first: nat, found: seq<Option<nat>>, r: nat)
    requires Extends(ptr, ptr', thread, first, found) && EntryVar(thread, first, |found|) !in ptr
    ensures Extends(ptr, ptr'[EntryVar(thread, first, |found|) := r], thread, first, found + [Some(r)])
    ensures EntryVar(thread, first, |found|) !in ptr'
  {
  }

  lemma FillOne(g: Graph, g': Graph, thread: nat, first: nat, found: seq<Option<nat>>, r: nat)
    requires Filled(g, g', thread, first, found) && EntryVar(thread, first, |found|) !in g.ptr && r in g'.count
    ensures Filled(g, AddRef(g', EntryVar(thread, first, |found|), r), thread, first, found + [Some(r)])
    ensures EntryVar(thread, first, |found|) !in g'.ptr
  {
    ExtendOne(g.ptr, g'.ptr, thread, first, found, r);
    AddRefConserves(g', EntryVar(thread, first, |found|), r);
    assert AddRef(g', EntryVar(thread, first, |found|), r).count.Keys == g'.count.Keys;
  }

  lemma FillNone(g: Graph, g': Graph, thread: nat, first: nat, found: seq<Option<nat>>)
    requires Filled(g, g', thread, first, found)
    ensures Filled(g, g', thread, first, found + [None])
  {
  }

  lemma TimesNext(resources: seq<Option<nat>>, x: Option<nat>)
    ensures forall r: nat :: Times(resources + [x], r) == Times(resources, r) + if x == Some(r) then 1 else 0
  {
    assert (resources + [x])[..|resources|] == resources;
  }

  ghost function Times(resources: seq<Option<nat>>, r: nat): nat {
    if resources == [] then 0
    else Times(resources[..|resources| - 1], r) + if resources[|resources| - 1] == Some(r) then 1 else 0
  }

  /** The vector goes out of scope: every pointer in it gives its reference back. */
  method Release(g: Graph, g': Graph, thread: nat, first: nat, ghost keys: seq<Key>, resources: seq<Option<nat>>)
    returns (g'': Graph)
    requires Conserved(g) && FreeSlots(g, thread, first, |keys|)
    requires resources == Found(g, keys) && Filled(g, g', thread, first, resources)
    ensures g'' == g
  {
    g'' := g';
    assert resources[..|resources|] == resources;
    for i := |resources| downto 0
      invariant Filled(g, g'', thread, first, resources[..i])
    {
      DrainStep(g, g'', thread, first, keys, resources, i);
      g'' := GiveBack(g'', resources[i], EntryVar(thread, first, i));
    }
    Restored(g, g'', thread, first, resources[..0]);
  }

  /** The destructor of one pointer of the vector. */
  function GiveBack(g: Graph, resource: Option<nat>, h: Holder): Graph
    requires resource.Some? ==> h in g.ptr && g.ptr[h] in g.count && g.count[g.ptr[h]] >= 1
  {
    if resource.Some? then DropRef(g, h) else g
  }

  lemma DrainStep(g: Graph, g': Graph, thread: nat, first: nat, keys: seq<Key>, found: seq<Option<nat>>, i: nat)
    requires FreeSlots(g, thread, first, |keys|) && found == Found(g, keys)
    requires i < |keys| && Filled(g, g', thread, first, found[..i + 1])
    ensures var h := EntryVar(thread, first, i);
            && (found[i].Some? ==> h in g'.ptr && g'.ptr[h] in g'.count && g'.count[g'.ptr[h]] >= 1)
            && Filled(g, GiveBack(g', found[i], h), thread, first, found[..i])
  {
    assert found[..i + 1] == found[..i] + [found[i]];
    if found[i].Some? {
      DrainOne(g, g', thread, first, found[..i], found[i].value, keys[i]);
    } else {
      DrainNone(g, g', thread, first, found[..i]);
    }
  }

  lemma ShrinkOne(ptr: map<Holder, nat>, ptr': map<Holder, nat>, thread: nat, first: nat, found: seq<Option<nat>>, r: nat)
    requires Extends(ptr, ptr', thread, first, found + [Some(r)]) && EntryVar(thread, first, |found|) !in ptr
    ensures EntryVar(thread, first, |found|) in ptr' && ptr'[EntryVar(thread, first, |found|)] == r
    ensures Extends(ptr, ptr' - {EntryVar(thread, first, |found|)}, thread, first, found)
  {
    var longer := found + [Some(r)];
    assert longer[|found|] == Some(r);
    forall i: nat | i < |found| ensures longer[i] == found[i] {
    }
    forall h | h in ptr' && h != EntryVar(thread, first, |found|) ensures h in ptr || IsEntry(h, thread, first, found) {
      assert h in ptr || IsEntry(h, thread, first, longer);
    }
  }

  lemma DrainOne(g: Graph, g': Graph, thread: nat, first: nat, found: seq<Option<nat>>, r: nat, k: Key)
    requires EntryVar(thread, first, |found|) !in g.ptr && Filled(g, g', thread, first, found + [Some(r)])
    requires Entry(k) in g.ptr && g.ptr[Entry(k)] == r
    ensures EntryVar(thread, first, |found|) in g'.ptr && g'.ptr[EntryVar(thread, first, |found|)] in g'.count
    ensures Filled(g, DropRef(g', EntryVar(thread, first, |found|)), thread, first, found)
  {
    var h := EntryVar(thread, first, |found|);
    ShrinkOne(g.ptr, g'.ptr, thread, first, found, r);
    NotSole(g', h, Entry(k));
    DropRefConserves(g', h);
    assert DropRef(g', h).count.Keys == g'.count.Keys;
  }

  lemma DrainNone(g: Graph, g': Graph, thread: nat, first: nat, found: seq<Option<nat>>)
    requires Filled(g, g', thread, first, found + [None])
    ensures Filled(g, g', thread, first, found)
  {
    assert forall i: nat | i < |found| :: (found + [None])[i] == found[i];
  }

  lemma NotSole(g: Graph, h: Holder, other: Holder)
    requires Conserved(g) && h in g.ptr && other in g.ptr && other != h && g.ptr[other] == g.ptr[h]
    ensures !UnrefDeletes(g, h)
  {
    UnrefDeletesIffSole(g, h);
  }

  lemma Restored(g: Graph, g'': Graph, thread: nat, first: nat, found: seq<Option<nat>>)
    requires Conserved(g) && Filled(g, g'', thread, first, found) && found == []
    ensures g'' == g
  {
    assert g''.ptr == g.ptr;
    forall r <- g.count ensures g''.count[r] == g.count[r] {
      assert r in g''.count;
      assert Holders(g''.ptr, r) == Holders(g.ptr, r);
    }
    assert g''.count == g.count;
  }
}
