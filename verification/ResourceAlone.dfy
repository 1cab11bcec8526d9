/**
 * Each operation of the protocol when nobody interferes: the exact effect on the table, the references
 * and the counts, from any state in which it can begin.
 */
module ResourceAlone {
  import opened Wrappers
  import opened ReferenceGraph
  import opened ResourceProtocol
  import opened ResourceSafety

  // ---- Steps of one thread ----

  /** Thread `t` can take the steps, one after the other, and they lead to `s'`. */
  ghost predicate Performs(s: State, t: nat, actions: seq<Action>, s': State)
    decreases |actions|
  {
    if actions == [] then s' == s
    else Enabled(s, t, actions[0]) && Performs(Apply(s, t, actions[0]), t, actions[1..], s')
  }

  lemma FirstThen(s: State, t: nat, first: Action, rest: seq<Action>, all: seq<Action>, s': State)
    requires Enabled(s, t, first) && Performs(Apply(s, t, first), t, rest, s') && all == [first] + rest
    ensures Performs(s, t, all, s')
  {
    assert all[1..] == rest;
  }

  lemma Regrouped<T>(a: seq<T>, b: seq<T>)
    ensures a == [] ==> a + b == b
    ensures a != [] ==> a + b == [a[0]] + (a[1..] + b)
  {
  }

  lemma Unfold(s: State, t: nat, a: seq<Action>, s1: State) returns (next: State)
    requires a != [] && Performs(s, t, a, s1)
    ensures Performs(next, t, a[1..], s1)
    ensures forall rest: seq<Action>, s2: State :: Performs(next, t, rest, s2) ==> Performs(s, t, [a[0]] + rest, s2)
  {
    next := Apply(s, t, a[0]);
    forall rest: seq<Action>, s2: State | Performs(next, t, rest, s2) ensures Performs(s, t, [a[0]] + rest, s2) {
      FirstThen(s, t, a[0], rest, [a[0]] + rest, s2);
    }
  }

  lemma {:induction false} Then(s: State, t: nat, a: seq<Action>, s1: State, b: seq<Action>, s2: State)
    requires Performs(s, t, a, s1) && Performs(s1, t, b, s2)
    ensures Performs(s, t, a + b, s2)
    decreases |a|
  {
    Regrouped(a, b);
    if a != [] {
      var next := Unfold(s, t, a, s1);
      Then(next, t, a[1..], s1, b, s2);
    }
  }

  /** One more step. */
  lemma More(s: State, t: nat, actions: seq<Action>, s1: State, a: Action, longer: seq<Action>)
    requires Performs(s, t, actions, s1) && Enabled(s1, t, a) && longer == actions + [a]
    ensures Performs(s, t, longer, Apply(s1, t, a))
  {
    var s2 := Apply(s1, t, a);
    assert [a][1..] == [];
    assert Performs(s2, t, [a][1..], s2);
    Then(s, t, actions, s1, [a], s2);
  }

  lemma Three(s: State, t: nat, a: Action, s1: State, b: Action, s2: State, c: Action)
    ensures Enabled(s, t, a) && s1 == Apply(s, t, a) && Enabled(s1, t, b) && s2 == Apply(s1, t, b) && Enabled(s2, t, c) ==>
              Performs(s, t, [a, b, c], Apply(s2, t, c))
  {
    if Enabled(s, t, a) && s1 == Apply(s, t, a) && Enabled(s1, t, b) && s2 == Apply(s1, t, b) && Enabled(s2, t, c) {
      More(s, t, [], s, a, [a]);
      More(s, t, [a], s1, b, [a, b]);
      More(s, t, [a, b], s2, c, [a, b, c]);
    }
  }

  /**
   * From `s` to `s'` thread `t` has come to `pc`, and the references, the lock and the kernels have
   * become what is given; no other thread has moved, and nothing has gone wrong.
   */
  ghost predicate Leads(s: State, s': State, t: nat, pc: PC, graph: Graph, lock: Lock, kernels: map<nat, KernelState>) {
    && Pc(s', t) == pc && s'.graph == graph && s'.lock == lock && s'.kernels == kernels
    && s'.fault == s.fault && s.log <= s'.log
    && forall u: nat | u != t :: Pc(s', u) == Pc(s, u)
  }

  /** As `Leads`, with the lock and the kernels as they were. */
  ghost predicate Ends(s: State, s': State, t: nat, pc: PC, graph: Graph) {
    Leads(s, s', t, pc, graph, s.lock, s.kernels)
  }

  ghost predicate Free(s: State) {
    s.lock == Lock({}, None)
  }

  ghost function Exclusively(t: nat): Lock {
    Lock({}, Some(t))
  }

  // ---- Lookup ----

  ghost function SharedPhase(): seq<Action> {
    [AcquireShared, LookupShared, ReleaseShared]
  }

  /** The references with one more, of `h`, if the key is in the table. */
  ghost function WithRef(g: Graph, h: Holder, key: Key): Graph
    requires Conserved(g)
  {
    if Entry(key) in g.ptr then AddRef(g, h, g.ptr[Entry(key)]) else g
  }

  /** What a call has come to when it has let go of the shared lock. */
  function AfterShared(call: Call, found: bool): PC {
    Looking(call, if found then Finished(true) else if call.create then EnterExclusive else Finished(false))
  }

  lemma SharedSteps(s: State, t: nat, call: Call, s1: State, s2: State)
    requires Inv(s) && Pc(s, t) == Looking(call, EnterShared) && s.lock.writer == None
    requires s1 == Apply(s, t, AcquireShared) && (Enabled(s1, t, LookupShared) ==> s2 == Apply(s1, t, LookupShared))
    ensures Enabled(s1, t, LookupShared) && Enabled(s2, t, ReleaseShared)
    ensures Ends(s, Apply(s2, t, ReleaseShared), t, AfterShared(call, InTable(s, call.key)), WithRef(s.graph, Local(t, call.slot), call.key))
  {
    assert ThreadOk(s, t);
    assert s.lock.readers + {t} - {t} == s.lock.readers;
  }

  /** Under the shared lock: a reference exactly if the key is there, and nothing else. */
  lemma SharedAlone(s: State, t: nat, call: Call) returns (s': State)
    requires Inv(s) && Pc(s, t) == Looking(call, EnterShared) && s.lock.writer == None
    ensures Performs(s, t, SharedPhase(), s')
    ensures Ends(s, s', t, AfterShared(call, InTable(s, call.key)), WithRef(s.graph, Local(t, call.slot), call.key))
  {
    var s1 := Apply(s, t, AcquireShared);
    var s2 := if Enabled(s1, t, LookupShared) then Apply(s1, t, LookupShared) else s1;
    SharedSteps(s, t, call, s1, s2);
    More(s, t, [], s, AcquireShared, [AcquireShared]);
    More(s, t, [AcquireShared], s1, LookupShared, [AcquireShared, LookupShared]);
    More(s, t, [AcquireShared, LookupShared], s2, ReleaseShared, SharedPhase());
    s' := Apply(s2, t, ReleaseShared);
  }

  lemma CallStep(s: State, t: nat, key: Key, slot: nat, create: bool)
    requires Inv(s) && Enabled(s, t, CallLookup(key, slot, create))
    ensures var s' := Apply(s, t, CallLookup(key, slot, create));
            Inv(s') && Ends(s, s', t, Looking(Call(key, slot, create, Client, |s.log|), EnterShared), s.graph)
  {
    StepInv(s, t, CallLookup(key, slot, create));
  }

  lemma ReturnStep(s: State, t: nat, call: Call, ok: bool)
    requires Pc(s, t) == Looking(call, Finished(ok)) && call.caller.Client? && (ok ==> Local(t, call.slot) in s.graph.ptr)
    ensures Enabled(s, t, Return) && Ends(s, Apply(s, t, Return), t, Idle, s.graph)
  {
  }

  /** A call of a client, around its middle part. */
  lemma Around(s: State, t: nat, key: Key, slot: nat, create: bool, middle: seq<Action>, s2: State, ok: bool, g: Graph) returns (s': State)
    requires Inv(s) && Enabled(s, t, CallLookup(key, slot, create)) && (ok ==> Local(t, slot) in g.ptr)
    requires Performs(Apply(s, t, CallLookup(key, slot, create)), t, middle, s2)
    requires Ends(s, s2, t, Looking(Call(key, slot, create, Client, |s.log|), Finished(ok)), g)
    ensures Performs(s, t, [CallLookup(key, slot, create)] + middle + [Return], s')
    ensures Ends(s, s', t, Idle, g)
  {
    var begin := CallLookup(key, slot, create);
    FirstThen(s, t, begin, middle, [begin] + middle, s2);
    ReturnStep(s2, t, Call(key, slot, create, Client, |s.log|), ok);
    More(s, t, [begin] + middle, s2, Return, [begin] + middle + [Return]);
    s' := Apply(s2, t, Return);
  }

  /** Lookup: the variable gets a reference to the resource exactly if there is one. */
  lemma LookupAlone(s: State, t: nat, key: Key, slot: nat) returns (s': State)
    requires Inv(s) && Enabled(s, t, CallLookup(key, slot, false)) && s.lock.writer == None
    ensures Performs(s, t, [CallLookup(key, slot, false)] + SharedPhase() + [Return], s')
    ensures Ends(s, s', t, Idle, WithRef(s.graph, Local(t, slot), key))
  {
    CallStep(s, t, key, slot, false);
    var s2 := SharedAlone(Apply(s, t, CallLookup(key, slot, false)), t, Call(key, slot, false, Client, |s.log|));
    s' := Around(s, t, key, slot, false, SharedPhase(), s2, InTable(s, key), WithRef(s.graph, Local(t, slot), key));
  }

  // ---- LookupOrCreate ----

  ghost function EnterPhase(): seq<Action> {
    [AcquireExclusive, LookupExclusive]
  }

  lemma EnterAlone(s: State, t: nat, call: Call) returns (s': State)
    requires Inv(s) && Pc(s, t) == Looking(call, EnterExclusive) && Free(s)
    ensures Performs(s, t, EnterPhase(), s')
    ensures InTable(s, call.key) ==>
      Leads(s, s', t, Looking(call, LeaveExclusive(true)), WithRef(s.graph, Local(t, call.slot), call.key), Exclusively(t), s.kernels)
    ensures !InTable(s, call.key) ==> Leads(s, s', t, Looking(call, Creating), s.graph, Exclusively(t), s.kernels)
  {
    assert ThreadOk(s, t);
    var s1 := Apply(s, t, AcquireExclusive);
    More(s, t, [], s, AcquireExclusive, [AcquireExclusive]);
    More(s, t, [AcquireExclusive], s1, LookupExclusive, EnterPhase());
    s' := Apply(s1, t, LookupExclusive);
  }

  lemma ReleaseStep(s: State, t: nat, call: Call, ok: bool)
    requires Pc(s, t) == Looking(call, LeaveExclusive(ok)) && s.lock == Exclusively(t)
    ensures Enabled(s, t, ReleaseExclusive)
    ensures Leads(s, Apply(s, t, ReleaseExclusive), t, Looking(call, Finished(ok)), s.graph, Lock({}, None), s.kernels)
  {
  }

  /** A new resource in the table and in one more pointer: counted twice. */
  ghost function WithNew(g: Graph, entry: Holder, h: Holder): Graph {
    Graph(g.ptr[entry := g.next][h := g.next], g.count[g.next := 2], g.next + 1)
  }

  /** An object that came and went leaves only its address behind. */
  ghost function AddressUsed(g: Graph): Graph {
    g.(next := g.next + 1)
  }

  ghost function InsertPhase(): seq<Action> {
    [RunCreator(CreatorOk), DoCreate, TakeRef]
  }

  lemma InsertAlone(s: State, t: nat, call: Call) returns (s': State)
    requires Conserved(s.graph) && Pc(s, t) == Looking(call, Creating) && s.lock == Exclusively(t)
    requires !InTable(s, call.key) && Local(t, call.slot) !in s.graph.ptr
    ensures Performs(s, t, InsertPhase(), s')
    ensures Leads(s, s', t, Looking(call, LeaveExclusive(true)), WithNew(s.graph, Entry(call.key), Local(t, call.slot)), s.lock, s.kernels)
  {
    var run := RunCreator(CreatorOk);
    RunStepOk(s, t, call);
    var s1 := Apply(s, t, run);
    InsertNewStep(s1, t, call);
    var s2 := Apply(s1, t, DoCreate);
    TakeRefStep(s2, t, call, s.graph.next);
    Three(s, t, run, s1, DoCreate, s2, TakeRef);
    s' := Apply(s2, t, TakeRef);
    NewTwice(s.graph, Local(t, call.slot), Entry(call.key));
  }

  lemma RunStepOk(s: State, t: nat, call: Call)
    requires Pc(s, t) == Looking(call, Creating)
    ensures Enabled(s, t, RunCreator(CreatorOk))
    ensures Ends(s, Apply(s, t, RunCreator(CreatorOk)), t, Looking(call, Inserting), NewRef(s.graph, Local(t, call.slot)))
  {
  }

  lemma InsertNewStep(s: State, t: nat, call: Call)
    requires Pc(s, t) == Looking(call, Inserting) && !InTable(s, call.key) && Local(t, call.slot) in s.graph.ptr
    ensures Enabled(s, t, DoCreate)
    ensures Ends(s, Apply(s, t, DoCreate), t, Looking(call, Referencing(s.graph.ptr[Local(t, call.slot)])),
                 MoveRef(s.graph, Local(t, call.slot), Entry(call.key)))
  {
  }

  lemma TakeRefStep(s: State, t: nat, call: Call, r: nat)
    requires Pc(s, t) == Looking(call, Referencing(r)) && r in s.graph.count
    ensures Enabled(s, t, TakeRef)
    ensures Ends(s, Apply(s, t, TakeRef), t, Looking(call, LeaveExclusive(true)), AddRef(s.graph, Local(t, call.slot), r))
  {
  }

  lemma NewTwice(g: Graph, h: Holder, entry: Holder)
    requires Conserved(g) && h !in g.ptr && entry !in g.ptr && h != entry
    ensures var moved := MoveRef(NewRef(g, h), h, entry);
            g.next in moved.count && AddRef(moved, h, g.next) == WithNew(g, entry, h)
  {
    var moved := MoveRef(NewRef(g, h), h, entry);
    assert AddRef(moved, h, g.next).ptr == WithNew(g, entry, h).ptr;
    assert AddRef(moved, h, g.next).count == WithNew(g, entry, h).count;
  }

  ghost function FailPhase(outcome: Outcome): seq<Action> {
    if outcome.CreatorFails? then [RunCreator(outcome)] else [RunCreator(outcome), CleanUp]
  }

  lemma FailAlone(s: State, t: nat, call: Call, outcome: Outcome) returns (s': State)
    requires Conserved(s.graph) && Pc(s, t) == Looking(call, Creating) && Local(t, call.slot) !in s.graph.ptr
    requires outcome != CreatorOk && (outcome == CreatorFailsWithObject ==> call.caller.Kernel?)
    ensures Performs(s, t, FailPhase(outcome), s')
    ensures Leads(s, s', t, Looking(call, LeaveExclusive(false)),
                  if outcome.CreatorFails? then s.graph else AddressUsed(s.graph), s.lock, s.kernels)
  {
    var mine := Local(t, call.slot);
    var run := RunCreator(outcome);
    var s1 := Apply(s, t, run);
    More(s, t, [], s, run, [run]);
    s' := s1;
    if outcome.CreatorFailsWithObject? {
      assert s1.graph == NewRef(s.graph, mine) && s.graph.next !in s.graph.count;
      More(s, t, [run], s1, CleanUp, [run, CleanUp]);
      s' := Apply(s1, t, CleanUp);
      assert s'.graph.ptr == s.graph.ptr && s'.graph.count == s.graph.count;
    }
  }

  /** The actions under the exclusive lock, with the key present or not. */
  ghost function ExclusivePhase(present: bool, outcome: Outcome): seq<Action> {
    EnterPhase() + (if present then [] else if outcome.CreatorOk? then InsertPhase() else FailPhase(outcome)) + [ReleaseExclusive]
  }

  /** What the references become under the exclusive lock. */
  ghost function AfterExclusive(g: Graph, h: Holder, key: Key, outcome: Outcome): Graph
    requires Conserved(g)
  {
    if Entry(key) in g.ptr then AddRef(g, h, g.ptr[Entry(key)])
    else match outcome
      case CreatorOk => WithNew(g, Entry(key), h)
      case CreatorFails => g
      case CreatorFailsWithObject => AddressUsed(g)
  }

  lemma MiddleAlone(s: State, t: nat, call: Call, outcome: Outcome, entered: State) returns (s': State)
    requires Inv(s) && Pc(s, t) == Looking(call, EnterExclusive) && Free(s) && !InTable(s, call.key)
    requires outcome == CreatorFailsWithObject ==> call.caller.Kernel?
    requires Leads(s, entered, t, Looking(call, Creating), s.graph, Exclusively(t), s.kernels)
    ensures Performs(entered, t, if outcome.CreatorOk? then InsertPhase() else FailPhase(outcome), s')
    ensures Leads(s, s', t, Looking(call, LeaveExclusive(outcome.CreatorOk?)),
                  AfterExclusive(s.graph, Local(t, call.slot), call.key, outcome), Exclusively(t), s.kernels)
  {
    assert ThreadOk(s, t);
    if outcome.CreatorOk? {
      s' := InsertAlone(entered, t, call);
    } else {
      s' := FailAlone(entered, t, call, outcome);
    }
  }

  /**
   * Under the exclusive lock: the resource that meanwhile has come, or else a new one from the creator,
   * in the table and counted twice; a creator that fails changes nothing.
   */
  lemma ExclusiveAlone(s: State, t: nat, call: Call, outcome: Outcome) returns (s': State)
    requires Inv(s) && Pc(s, t) == Looking(call, EnterExclusive) && Free(s)
    requires outcome == CreatorFailsWithObject ==> call.caller.Kernel?
    ensures Performs(s, t, ExclusivePhase(InTable(s, call.key), outcome), s')
    ensures Ends(s, s', t, Looking(call, Finished(InTable(s, call.key) || outcome.CreatorOk?)),
                 AfterExclusive(s.graph, Local(t, call.slot), call.key, outcome))
  {
    var ok := InTable(s, call.key) || outcome.CreatorOk?;
    var entered := EnterAlone(s, t, call);
    var middle := entered;
    var actions := EnterPhase();
    if !InTable(s, call.key) {
      middle := MiddleAlone(s, t, call, outcome, entered);
      Then(s, t, EnterPhase(), entered, if outcome.CreatorOk? then InsertPhase() else FailPhase(outcome), middle);
      actions := EnterPhase() + if outcome.CreatorOk? then InsertPhase() else FailPhase(outcome);
    }
    ReleaseStep(middle, t, call, ok);
    More(s, t, actions, middle, ReleaseExclusive, ExclusivePhase(InTable(s, call.key), outcome));
    s' := Apply(middle, t, ReleaseExclusive);
  }

  /** The whole of LookupOrCreate between the call and the result. */
  ghost function ObtainPhase(present: bool, outcome: Outcome): seq<Action> {
    if present then SharedPhase() else SharedPhase() + ExclusivePhase(false, outcome)
  }

  lemma ObtainAlone(s: State, t: nat, call: Call, outcome: Outcome) returns (s': State)
    requires Inv(s) && Pc(s, t) == Looking(call, EnterShared) && Free(s) && call.create
    requires outcome == CreatorFailsWithObject ==> call.caller.Kernel?
    ensures Performs(s, t, ObtainPhase(InTable(s, call.key), outcome), s')
    ensures Ends(s, s', t, Looking(call, Finished(InTable(s, call.key) || outcome.CreatorOk?)),
                 AfterExclusive(s.graph, Local(t, call.slot), call.key, outcome))
  {
    var s1 := SharedAlone(s, t, call);
    s' := s1;
    if !InTable(s, call.key) {
      PerformsInv(s, t, SharedPhase(), s1);
      s' := ExclusiveAlone(s1, t, call, outcome);
      Then(s, t, SharedPhase(), s1, ExclusivePhase(false, outcome), s');
    }
  }

  lemma {:induction false} PerformsInv(s: State, t: nat, actions: seq<Action>, s': State)
    requires Inv(s) && Performs(s, t, actions, s')
    ensures Inv(s')
    decreases |actions|
  {
    if actions != [] {
      StepInv(s, t, actions[0]);
      PerformsInv(Apply(s, t, actions[0]), t, actions[1..], s');
    }
  }

  /** LookupOrCreate of a client. */
  lemma LookupOrCreateAlone(s: State, t: nat, key: Key, slot: nat, outcome: Outcome) returns (s': State)
    requires Inv(s) && Enabled(s, t, CallLookup(key, slot, true)) && Free(s) && outcome != CreatorFailsWithObject
    ensures Performs(s, t, [CallLookup(key, slot, true)] + ObtainPhase(InTable(s, key), outcome) + [Return], s')
    ensures Ends(s, s', t, Idle, AfterExclusive(s.graph, Local(t, slot), key, outcome))
  {
    CallStep(s, t, key, slot, true);
    var s2 := ObtainAlone(Apply(s, t, CallLookup(key, slot, true)), t, Call(key, slot, true, Client, |s.log|), outcome);
    s' := Around(s, t, key, slot, true, ObtainPhase(InTable(s, key), outcome), s2, InTable(s, key) || outcome.CreatorOk?,
                 AfterExclusive(s.graph, Local(t, slot), key, outcome));
  }

  // ---- Create and Delete ----

  /** Create: the table takes over the caller's reference, unless the key is there already. */
  lemma CreateAlone(s: State, t: nat, key: Key, slot: nat) returns (s': State)
    requires Inv(s) && Enabled(s, t, CallCreate(key, slot)) && Free(s)
    ensures Performs(s, t, [CallCreate(key, slot), AcquireExclusive, DoCreate, ReleaseExclusive], s')
    ensures Ends(s, s', t, Idle, if InTable(s, key) then s.graph else MoveRef(s.graph, Local(t, slot), Entry(key)))
  {
    assert ThreadOk(s, t);
    var call := CallCreate(key, slot);
    CallCreateStep(s, t, key, slot);
    var s1 := Apply(s, t, call);
    var s2 := Apply(s1, t, AcquireExclusive);
    InsertStep(s2, t, key, slot);
    var s3 := Apply(s2, t, DoCreate);
    LeaveCreateStep(s3, t);
    Three(s1, t, AcquireExclusive, s2, DoCreate, s3, ReleaseExclusive);
    s' := Apply(s3, t, ReleaseExclusive);
    FirstThen(s, t, call, [AcquireExclusive, DoCreate, ReleaseExclusive], [call, AcquireExclusive, DoCreate, ReleaseExclusive], s');
  }

  lemma CallCreateStep(s: State, t: nat, key: Key, slot: nat)
    requires Enabled(s, t, CallCreate(key, slot)) && Free(s)
    ensures var s1 := Apply(s, t, CallCreate(key, slot));
            && Ends(s, s1, t, EnterCreate(key, slot), s.graph) && Enabled(s1, t, AcquireExclusive)
            && Leads(s, Apply(s1, t, AcquireExclusive), t, InCreate(key, slot), s.graph, Exclusively(t), s.kernels)
  {
  }

  lemma InsertStep(s: State, t: nat, key: Key, slot: nat)
    requires Pc(s, t) == InCreate(key, slot) && Local(t, slot) in s.graph.ptr
    ensures Enabled(s, t, DoCreate)
    ensures Ends(s, Apply(s, t, DoCreate), t, LeaveCreate, if InTable(s, key) then s.graph else MoveRef(s.graph, Local(t, slot), Entry(key)))
  {
  }

  lemma LeaveCreateStep(s: State, t: nat)
    requires Pc(s, t) == LeaveCreate && s.lock == Exclusively(t)
    ensures Enabled(s, t, ReleaseExclusive)
    ensures Leads(s, Apply(s, t, ReleaseExclusive), t, Idle, s.graph, Lock({}, None), s.kernels)
  {
  }

  ghost function DeletePhase(present: bool): seq<Action> {
    [AcquireExclusive, DoErase, ReleaseExclusive] + if present then [DropErased] else []
  }

  /** The references without the entry of the key. */
  ghost function WithoutEntry(g: Graph, key: Key): Graph
    requires Conserved(g)
  {
    if Entry(key) in g.ptr then DropRef(g, Entry(key)) else g
  }

  lemma MovedThenDropped(g: Graph, h: Holder, h': Holder)
    requires Conserved(g) && h in g.ptr && h' !in g.ptr
    ensures var moved := MoveRef(g, h, h');
            && h' in moved.ptr && moved.ptr[h'] in moved.count && moved.count[moved.ptr[h']] >= 1
            && DropRef(moved, h') == DropRef(g, h)
  {
    assert DropRef(MoveRef(g, h, h'), h').ptr == g.ptr - {h};
  }

  lemma EraseAlone(s: State, t: nat, key: Key, slot: nat) returns (s': State)
    requires Inv(s) && Pc(s, t) == EnterDelete(key, slot) && Free(s)
    ensures Performs(s, t, [AcquireExclusive, DoErase, ReleaseExclusive], s')
    ensures Ends(s, s', t, if InTable(s, key) then Dropping(slot) else Idle,
                 if InTable(s, key) then MoveRef(s.graph, Entry(key), Local(t, slot)) else s.graph)
  {
    assert ThreadOk(s, t);
    EnterDeleteStep(s, t, key, slot);
    var s1 := Apply(s, t, AcquireExclusive);
    EraseStep(s1, t, key, slot);
    var s2 := Apply(s1, t, DoErase);
    LeaveDeleteStep(s2, t, slot, InTable(s, key));
    Three(s, t, AcquireExclusive, s1, DoErase, s2, ReleaseExclusive);
    s' := Apply(s2, t, ReleaseExclusive);
  }

  lemma EnterDeleteStep(s: State, t: nat, key: Key, slot: nat)
    requires Pc(s, t) == EnterDelete(key, slot) && Free(s)
    ensures Enabled(s, t, AcquireExclusive)
    ensures Leads(s, Apply(s, t, AcquireExclusive), t, InDelete(key, slot), s.graph, Exclusively(t), s.kernels)
  {
  }

  lemma EraseStep(s: State, t: nat, key: Key, slot: nat)
    requires Pc(s, t) == InDelete(key, slot)
    ensures Enabled(s, t, DoErase)
    ensures Ends(s, Apply(s, t, DoErase), t, LeaveDelete(slot, InTable(s, key)),
                 if InTable(s, key) then MoveRef(s.graph, Entry(key), Local(t, slot)) else s.graph)
  {
  }

  lemma LeaveDeleteStep(s: State, t: nat, slot: nat, erased: bool)
    requires Pc(s, t) == LeaveDelete(slot, erased) && s.lock == Exclusively(t)
    ensures Enabled(s, t, ReleaseExclusive)
    ensures Leads(s, Apply(s, t, ReleaseExclusive), t, if erased then Dropping(slot) else Idle, s.graph, Lock({}, None), s.kernels)
  {
  }

  lemma DropStep(s: State, t: nat, slot: nat)
    requires Pc(s, t) == Dropping(slot) && CanUnref(s.graph, Local(t, slot))
    ensures Enabled(s, t, DropErased) && Ends(s, Apply(s, t, DropErased), t, Idle, DropRef(s.graph, Local(t, slot)))
  {
  }

  lemma DeleteRest(s: State, t: nat, key: Key, slot: nat) returns (s': State)
    requires Inv(s) && Pc(s, t) == EnterDelete(key, slot) && Free(s)
    ensures Performs(s, t, DeletePhase(InTable(s, key)), s')
    ensures Ends(s, s', t, Idle, WithoutEntry(s.graph, key))
  {
    assert ThreadOk(s, t);
    var erase := [AcquireExclusive, DoErase, ReleaseExclusive];
    s' := EraseAlone(s, t, key, slot);
    if InTable(s, key) {
      MovedThenDropped(s.graph, Entry(key), Local(t, slot));
      DropStep(s', t, slot);
      More(s, t, erase, s', DropErased, DeletePhase(true));
      s' := Apply(s', t, DropErased);
    } else {
      assert DeletePhase(false) == erase;
    }
  }

  /** Delete: the entry goes, and with it one reference, the last one with the resource. */
  lemma DeleteAlone(s: State, t: nat, key: Key, slot: nat) returns (s': State)
    requires Inv(s) && Enabled(s, t, CallDelete(key, slot)) && Free(s)
    ensures Performs(s, t, [CallDelete(key, slot)] + DeletePhase(InTable(s, key)), s')
    ensures Ends(s, s', t, Idle, WithoutEntry(s.graph, key))
  {
    var call := CallDelete(key, slot);
    var s1 := Apply(s, t, call);
    StepInv(s, t, call);
    More(s, t, [], s, call, [call]);
    s' := DeleteRest(s1, t, key, slot);
    Then(s, t, [call], s1, DeletePhase(InTable(s, key)), s');
  }

  // ---- Kernels ----

  ghost function StartPhase(k: nat, slot: nat, key: Key, isPrivate: bool): seq<Action> {
    [Compute(k, slot), Check(true, key, isPrivate)]
  }

  /** The kernel is taken by thread `t`, with the name that `Init` gave it. */
  ghost function Taken(s: State, k: nat, mu: Option<nat>, key: Key, isPrivate: bool): map<nat, KernelState> {
    s.kernels[k := KernelState(mu, key, isPrivate)]
  }

  lemma StartAlone(s: State, t: nat, k: nat, slot: nat, key: Key, isPrivate: bool) returns (s': State)
    requires Inv(s) && Enabled(s, t, Compute(k, slot)) && Field(k) !in s.graph.ptr
    ensures Inv(s') && Performs(s, t, StartPhase(k, slot, key, isPrivate), s')
    ensures Leads(s, s', t, Looking(Call(key, slot, true, Kernel(k), |s.log|), EnterShared), s.graph, s.lock,
                  Taken(s, k, Some(t), key, isPrivate))
  {
    var compute, check := Compute(k, slot), Check(true, key, isPrivate);
    TakeStep(s, t, k, slot);
    var s1 := Apply(s, t, compute);
    NameStep(s1, t, k, slot, key, isPrivate);
    More(s, t, [], s, compute, [compute]);
    More(s, t, [compute], s1, check, [compute, check]);
    s' := Apply(s1, t, check);
    PerformsInv(s, t, [compute, check], s');
  }

  lemma TakeStep(s: State, t: nat, k: nat, slot: nat)
    requires Enabled(s, t, Compute(k, slot))
    ensures Leads(s, Apply(s, t, Compute(k, slot)), t, KernelCheck(k, slot), s.graph, s.lock, s.kernels[k := s.kernels[k].(mu := Some(t))])
    ensures Apply(s, t, Compute(k, slot)).log == s.log
  {
  }

  lemma NameStep(s: State, t: nat, k: nat, slot: nat, key: Key, isPrivate: bool)
    requires Pc(s, t) == KernelCheck(k, slot) && k in s.kernels && Field(k) !in s.graph.ptr
    ensures Enabled(s, t, Check(true, key, isPrivate))
    ensures Leads(s, Apply(s, t, Check(true, key, isPrivate)), t, Looking(Call(key, slot, true, Kernel(k), |s.log|), EnterShared),
                  s.graph, s.lock, Taken(s, k, s.kernels[k].mu, key, isPrivate))
  {
  }

  ghost function AcceptPhase(verified: bool): seq<Action> {
    [Return, Verify(verified), if verified then Publish else Reject]
  }

  lemma ReturnToKernel(s: State, t: nat, call: Call, k: nat)
    requires Inv(s) && Pc(s, t) == Looking(call, Finished(true)) && call.caller == Kernel(k)
    ensures Local(t, call.slot) in s.graph.ptr && CanUnref(s.graph, Local(t, call.slot))
    ensures Enabled(s, t, Return) && Ends(s, Apply(s, t, Return), t, Looking(call, Verifying), s.graph)
  {
    assert ThreadOk(s, t);
  }

  lemma VerifyStep(s: State, t: nat, call: Call, verified: bool)
    requires Pc(s, t) == Looking(call, Verifying)
    ensures Enabled(s, t, Verify(verified))
    ensures Ends(s, Apply(s, t, Verify(verified)), t, Looking(call, if verified then Publishing else Rejecting), s.graph)
  {
  }

  lemma PublishStep(s: State, t: nat, call: Call, k: nat)
    requires Pc(s, t) == Looking(call, Publishing) && call.caller == Kernel(k) && Local(t, call.slot) in s.graph.ptr
    ensures Enabled(s, t, Publish)
    ensures Ends(s, Apply(s, t, Publish), t, KernelLeave(k, call.slot), MoveRef(s.graph, Local(t, call.slot), Field(k)))
  {
  }

  lemma RejectStep(s: State, t: nat, call: Call, k: nat)
    requires Pc(s, t) == Looking(call, Rejecting) && call.caller == Kernel(k) && CanUnref(s.graph, Local(t, call.slot))
    ensures Enabled(s, t, Reject)
    ensures Ends(s, Apply(s, t, Reject), t, KernelLeave(k, call.slot), DropRef(s.graph, Local(t, call.slot)))
  {
  }

  lemma AcceptAlone(s: State, t: nat, call: Call, k: nat, verified: bool) returns (s': State)
    requires Inv(s) && Pc(s, t) == Looking(call, Finished(true)) && call.caller == Kernel(k)
    ensures Local(t, call.slot) in s.graph.ptr && CanUnref(s.graph, Local(t, call.slot))
    ensures Performs(s, t, AcceptPhase(verified), s')
    ensures Ends(s, s', t, KernelLeave(k, call.slot),
                 if verified then MoveRef(s.graph, Local(t, call.slot), Field(k)) else DropRef(s.graph, Local(t, call.slot)))
  {
    ReturnToKernel(s, t, call, k);
    var s1 := Apply(s, t, Return);
    VerifyStep(s1, t, call, verified);
    var s2 := Apply(s1, t, Verify(verified));
    if verified {
      PublishStep(s2, t, call, k);
      Three(s, t, Return, s1, Verify(true), s2, Publish);
      s' := Apply(s2, t, Publish);
    } else {
      RejectStep(s2, t, call, k);
      Three(s, t, Return, s1, Verify(false), s2, Reject);
      s' := Apply(s2, t, Reject);
    }
  }

  /** The references that a Compute leaves: the new or present resource in `resource_`, if all went well. */
  ghost function AfterCompute(g: Graph, k: nat, key: Key, outcome: Outcome, verified: bool): Graph
    requires Conserved(g)
  {
    if Entry(key) in g.ptr then if verified then AddRef(g, Field(k), g.ptr[Entry(key)]) else g
    else match outcome
      case CreatorOk =>
        if verified then WithNew(g, Entry(key), Field(k))
        else Graph(g.ptr[Entry(key) := g.next], g.count[g.next := 1], g.next + 1)
      case CreatorFails => g
      case CreatorFailsWithObject => AddressUsed(g)
  }

  /** Handing the local reference over, or giving it back. */
  lemma HandedOver(g: Graph, h: Holder, k: nat, key: Key, outcome: Outcome, verified: bool)
    requires Conserved(g) && h !in g.ptr && Field(k) !in g.ptr && h.Local? && (Entry(key) in g.ptr || outcome.CreatorOk?)
    ensures var g1 := AfterExclusive(g, h, key, outcome);
            && CanUnref(g1, h)
            && (if verified then MoveRef(g1, h, Field(k)) else DropRef(g1, h)) == AfterCompute(g, k, key, outcome, verified)
  {
    var g1 := AfterExclusive(g, h, key, outcome);
    var g2 := if verified then MoveRef(g1, h, Field(k)) else DropRef(g1, h);
    assert g2.ptr == AfterCompute(g, k, key, outcome, verified).ptr;
    assert g2.count == AfterCompute(g, k, key, outcome, verified).count;
  }

  /** The steps of one Compute of a kernel without a resource. */
  ghost function ComputePhase(k: nat, slot: nat, key: Key, isPrivate: bool, present: bool, outcome: Outcome, verified: bool): seq<Action> {
    StartPhase(k, slot, key, isPrivate) + ObtainPhase(present, outcome)
    + (if present || outcome.CreatorOk? then AcceptPhase(verified) else [Return]) + [LeaveKernel]
  }

  lemma DecideAlone(s: State, t: nat, call: Call, k: nat, ok: bool, verified: bool) returns (s': State)
    requires Inv(s) && Pc(s, t) == Looking(call, Finished(ok)) && call.caller == Kernel(k)
    ensures ok ==> CanUnref(s.graph, Local(t, call.slot))
    ensures Performs(s, t, if ok then AcceptPhase(verified) else [Return], s')
    ensures Ends(s, s', t, KernelLeave(k, call.slot),
                 if !ok then s.graph
                 else if verified then MoveRef(s.graph, Local(t, call.slot), Field(k)) else DropRef(s.graph, Local(t, call.slot)))
  {
    if ok {
      s' := AcceptAlone(s, t, call, k, verified);
    } else {
      More(s, t, [], s, Return, [Return]);
      s' := Apply(s, t, Return);
    }
  }

  /**
   * Compute of a kernel that has no resource yet: the resource of the table, or a new one, ends up in
   * `resource_` exactly if it could be had and was accepted, and nothing else is left behind.
   */
  lemma ComputeAlone(s: State, t: nat, k: nat, slot: nat, key: Key, isPrivate: bool, outcome: Outcome, verified: bool)
    returns (s': State)
    requires Inv(s) && Enabled(s, t, Compute(k, slot)) && Field(k) !in s.graph.ptr && Free(s)
    ensures Performs(s, t, ComputePhase(k, slot, key, isPrivate, InTable(s, key), outcome, verified), s')
    ensures Leads(s, s', t, Idle, AfterCompute(s.graph, k, key, outcome, verified), s.lock, Taken(s, k, None, key, isPrivate))
  {
    var present := InTable(s, key);
    var ok := present || outcome.CreatorOk?;
    var call := Call(key, slot, true, Kernel(k), |s.log|);
    var s1 := StartAlone(s, t, k, slot, key, isPrivate);
    var s2 := ObtainAlone(s1, t, call, outcome);
    PerformsInv(s1, t, ObtainPhase(present, outcome), s2);
    var s3 := DecideAlone(s2, t, call, k, ok, verified);
    PerformsInv(s2, t, if ok then AcceptPhase(verified) else [Return], s3);
    assert ThreadOk(s3, t);
    LeaveKernelStep(s3, t, k, slot);
    s' := Apply(s3, t, LeaveKernel);
    Glue(s, t, StartPhase(k, slot, key, isPrivate), s1, ObtainPhase(present, outcome), s2,
         if ok then AcceptPhase(verified) else [Return], s3);
    if ok {
      HandedOver(s.graph, Local(t, slot), k, key, outcome, verified);
    }
    Overall(s, t, k, slot, key, isPrivate, call, ok, s1, s2, s3, s', AfterExclusive(s.graph, Local(t, slot), key, outcome),
            AfterCompute(s.graph, k, key, outcome, verified));
  }

  lemma Glue(s: State, t: nat, start: seq<Action>, s1: State, obtain: seq<Action>, s2: State, decide: seq<Action>, s3: State)
    requires Enabled(s3, t, LeaveKernel)
    ensures Performs(s, t, start, s1) && Performs(s1, t, obtain, s2) && Performs(s2, t, decide, s3) ==>
              Performs(s, t, start + obtain + decide + [LeaveKernel], Apply(s3, t, LeaveKernel))
  {
    if Performs(s, t, start, s1) && Performs(s1, t, obtain, s2) && Performs(s2, t, decide, s3) {
      Then(s, t, start, s1, obtain, s2);
      Then(s, t, start + obtain, s2, decide, s3);
      More(s, t, start + obtain + decide, s3, LeaveKernel, start + obtain + decide + [LeaveKernel]);
    }
  }

  lemma Overall(s: State, t: nat, k: nat, slot: nat, key: Key, isPrivate: bool, call: Call, ok: bool,
                s1: State, s2: State, s3: State, s': State, g: Graph, g': Graph)
    requires k in s.kernels
    requires Leads(s, s1, t, Looking(call, EnterShared), s.graph, s.lock, Taken(s, k, Some(t), key, isPrivate))
    requires Ends(s1, s2, t, Looking(call, Finished(ok)), g)
    requires Ends(s2, s3, t, KernelLeave(k, slot), g')
    requires k in s3.kernels && Leads(s3, s', t, Idle, s3.graph, s3.lock, s3.kernels[k := s3.kernels[k].(mu := None)])
    ensures Leads(s, s', t, Idle, g', s.lock, Taken(s, k, None, key, isPrivate))
  {
    assert s'.kernels == Taken(s, k, None, key, isPrivate);
  }

  /** A later Compute, and one whose `Init` fails, leaves everything as it was. */
  lemma ComputeAgain(s: State, t: nat, k: nat, slot: nat, initOk: bool, key: Key, isPrivate: bool) returns (s': State)
    requires Inv(s) && Enabled(s, t, Compute(k, slot)) && (Field(k) in s.graph.ptr || !initOk)
    ensures Performs(s, t, [Compute(k, slot), Check(initOk, key, isPrivate), LeaveKernel], s')
    ensures Ends(s, s', t, Idle, s.graph)
  {
    var compute, check := Compute(k, slot), Check(initOk, key, isPrivate);
    TakeStep(s, t, k, slot);
    var s1 := Apply(s, t, compute);
    SkipStep(s1, t, k, slot, initOk, key, isPrivate);
    var s2 := Apply(s1, t, check);
    LeaveKernelStep(s2, t, k, slot);
    Three(s, t, compute, s1, check, s2, LeaveKernel);
    s' := Apply(s2, t, LeaveKernel);
    GivenBack(s.kernels, k, t);
  }

  lemma GivenBack(kernels: map<nat, KernelState>, k: nat, t: nat)
    requires k in kernels && kernels[k].mu == None
    ensures var taken := kernels[k := kernels[k].(mu := Some(t))];
            taken[k := taken[k].(mu := None)] == kernels
  {
  }

  lemma SkipStep(s: State, t: nat, k: nat, slot: nat, initOk: bool, key: Key, isPrivate: bool)
    requires Pc(s, t) == KernelCheck(k, slot) && (Field(k) in s.graph.ptr || !initOk)
    ensures Enabled(s, t, Check(initOk, key, isPrivate))
    ensures Ends(s, Apply(s, t, Check(initOk, key, isPrivate)), t, KernelLeave(k, slot), s.graph)
  {
  }

  lemma LeaveKernelStep(s: State, t: nat, k: nat, slot: nat)
    requires Pc(s, t) == KernelLeave(k, slot) && k in s.kernels
    ensures Enabled(s, t, LeaveKernel)
    ensures Leads(s, Apply(s, t, LeaveKernel), t, Idle, s.graph, s.lock, s.kernels[k := s.kernels[k].(mu := None)])
  {
  }

  /** The destructor gives back the reference of `resource_`, and deletes a private resource from the table. */
  lemma DestroyAlone(s: State, t: nat, k: nat, slot: nat) returns (s': State)
    requires Inv(s) && Enabled(s, t, DestroyKernel(k, slot)) && Field(k) in s.graph.ptr && Free(s)
    ensures CanUnref(s.graph, Field(k)) && Conserved(DropRef(s.graph, Field(k)))
    ensures var kernel, dropped := s.kernels[k], DropRef(s.graph, Field(k));
            && Performs(s, t, [DestroyKernel(k, slot)] + (if kernel.isPrivate then DeletePhase(InTable(s, kernel.key)) else []), s')
            && Leads(s, s', t, Idle, if kernel.isPrivate then WithoutEntry(dropped, kernel.key) else dropped, s.lock, s.kernels - {k})
  {
    var kernel, destroy := s.kernels[k], DestroyKernel(k, slot);
    DropRefConserves(s.graph, Field(k));
    StepInv(s, t, destroy);
    var s1 := Apply(s, t, destroy);
    More(s, t, [], s, destroy, [destroy]);
    s' := s1;
    if kernel.isPrivate {
      assert InTable(s1, kernel.key) <==> InTable(s, kernel.key);
      s' := DeleteRest(s1, t, kernel.key, slot);
      Then(s, t, [destroy], s1, DeletePhase(InTable(s, kernel.key)), s');
    } else {
      assert [destroy] + [] == [destroy];
    }
  }
}
