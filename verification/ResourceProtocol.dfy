/**
 * Threads that use a ResourceMgr (resource_mgr.h) directly or through a ResourceOpKernel
 * (resource_op_kernel.h), as small-step programs over shared state. A step is what a thread does
 * between two points at which another thread can interfere; the reader/writer lock `mu_` of the
 * manager and the mutex `mu_` of each kernel are part of the state.
 *
 * DoLookup, DoCreate and DoDelete are taken from their documented contracts: a lookup adds a
 * reference, a creation fails exactly when the key is present and otherwise takes over the
 * caller's reference, a deletion drops the reference of the table. Deleting takes the entry out
 * under the lock and drops the reference after it.
 */
module ResourceProtocol {
  import opened Wrappers
  import opened ReferenceGraph
  import opened ResourceLog

  datatype Caller = Client | Kernel(kernel: nat)

  /** One call of Lookup or LookupOrCreate; its result goes to the variable `slot` of the thread. */
  datatype Call = Call(key: Key, slot: nat, create: bool, caller: Caller, since: nat)

  /** Where a thread is inside Lookup or LookupOrCreate, and in the kernel code around it. */
  datatype Stage =
    | EnterShared
    | InShared
    | LeaveShared(found: bool)
    | EnterExclusive
    | Recheck
    | Creating
    | CleaningUp
    | Inserting
    | Unexpected
    | Referencing(res: nat)
    | LeaveExclusive(ok: bool)
    | Finished(ok: bool)
    | Verifying
    | Rejecting
    | Publishing

  datatype PC =
    | Idle
    | Looking(call: Call, stage: Stage)
    | EnterMany(keys: seq<Key>, first: nat) | InMany(keys: seq<Key>, first: nat, i: nat)
    | EnterCreate(key: Key, slot: nat) | InCreate(key: Key, slot: nat) | LeaveCreate
    | EnterDelete(key: Key, slot: nat) | InDelete(key: Key, slot: nat) | LeaveDelete(slot: nat, erased: bool) | Dropping(slot: nat)
    | KernelCheck(kernel: nat, slot: nat) | KernelLeave(kernel: nat, slot: nat)

  /** The reader/writer lock of the manager. */
  datatype Lock = Lock(readers: set<nat>, writer: Option<nat>)

  /** A ResourceOpKernel without its `resource_`, which is a holder of the graph. */
  datatype KernelState = KernelState(mu: Option<nat>, key: Key, isPrivate: bool)

  /** What must not happen: a pointer without its object is used, or the CHECK of the creator fails. */
  datatype Fault = NoFault | DanglingPointer | CheckFailed

  datatype State = State(graph: Graph, lock: Lock, pcs: map<nat, PC>, kernels: map<nat, KernelState>, log: seq<Event>, fault: Fault)

  /** What a creator can do; a `CreateResource` that fails may leave an object behind. */
  datatype Outcome = CreatorOk | CreatorFails | CreatorFailsWithObject

  datatype Action =
    | CallLookup(key: Key, slot: nat, create: bool)
    | CallLookupMany(keys: seq<Key>, first: nat)
    | AcquireShared
    | LookupShared
    | ReleaseShared
    | AcquireExclusive
    | LookupExclusive
    | RunCreator(outcome: Outcome)
    | CleanUp
    | DoCreate
    | TakeRef
    | ReleaseExclusive
    | Return
    | CallCreate(key: Key, slot: nat)
    | CallDelete(key: Key, slot: nat)
    | DoErase
    | DropErased
    | ClientNew(slot: nat)
    | ClientRef(from: nat, slot: nat)
    | ClientUnref(slot: nat)
    | ClientGive(from: nat, other: nat, slot: nat)
    | MakeKernel(kernel: nat)
    | Compute(kernel: nat, slot: nat)
    | Check(initOk: bool, key: Key, isPrivate: bool)
    | Verify(ok: bool)
    | Reject
    | Publish
    | LeaveKernel
    | DestroyKernel(kernel: nat, slot: nat)

  function Pc(s: State, t: nat): PC {
    if t in s.pcs then s.pcs[t] else Idle
  }

  function Goto(s: State, t: nat, pc: PC): State {
    s.(pcs := s.pcs[t := pc])
  }

  function Stay(s: State, t: nat, stage: Stage): State
    requires Pc(s, t).Looking?
  {
    Goto(s, t, Looking(Pc(s, t).call, stage))
  }

  predicate InTable(s: State, key: Key) { Entry(key) in s.graph.ptr }

  predicate LockFree(s: State) { s.lock.readers == {} && s.lock.writer == None }

  predicate HoldsExclusive(pc: PC) {
    match pc
    case Looking(_, stage) => stage in {Recheck, Creating, CleaningUp, Inserting, Unexpected} || stage.Referencing? || stage.LeaveExclusive?
    case InCreate(_, _) => true
    case LeaveCreate => true
    case InDelete(_, _) => true
    case LeaveDelete(_, _) => true
    case _ => false
  }

  predicate HoldsShared(pc: PC) {
    pc.InMany? || (pc.Looking? && (pc.stage == InShared || pc.stage.LeaveShared?))
  }

  /** The thread is inside LookupMany. */
  predicate IsMany(pc: PC) {
    pc.EnterMany? || pc.InMany?
  }

  predicate IsOther(pc: PC) {
    !pc.Looking? && !IsMany(pc)
  }

  predicate WantsExclusive(pc: PC) {
    (pc.Looking? && pc.stage == EnterExclusive) || pc.EnterCreate? || pc.EnterDelete?
  }

  /** When thread `t` can take the step `a`. */
  predicate Enabled(s: State, t: nat, a: Action) {
    var pc := Pc(s, t);
    match a
    case CallLookup(_, slot, _) => pc.Idle? && Local(t, slot) !in s.graph.ptr
    case CallLookupMany(keys, first) => pc.Idle? && FreeSlots(s.graph, t, first, |keys|)
    case AcquireShared => ((pc.Looking? && pc.stage == EnterShared) || pc.EnterMany?) && s.lock.writer == None
    case LookupShared => (pc.Looking? && pc.stage == InShared) || (pc.InMany? && pc.i < |pc.keys|)
    case ReleaseShared => (pc.Looking? && pc.stage.LeaveShared?) || (pc.InMany? && pc.i >= |pc.keys|)
    case AcquireExclusive => WantsExclusive(pc) && LockFree(s)
    case LookupExclusive => pc.Looking? && pc.stage == Recheck
    case RunCreator(outcome) => pc.Looking? && pc.stage == Creating && (outcome.CreatorFailsWithObject? ==> pc.call.caller.Kernel?)
    case CleanUp => pc.Looking? && pc.stage == CleaningUp
    case DoCreate => (pc.Looking? && pc.stage == Inserting) || pc.InCreate?
    case TakeRef => pc.Looking? && pc.stage.Referencing?
    case ReleaseExclusive => (pc.Looking? && pc.stage.LeaveExclusive?) || pc.LeaveCreate? || pc.LeaveDelete?
    case Return => pc.Looking? && pc.stage.Finished?
    case CallCreate(_, slot) => pc.Idle? && Local(t, slot) in s.graph.ptr
    case CallDelete(_, slot) => pc.Idle? && Local(t, slot) !in s.graph.ptr
    case DoErase => pc.InDelete?
    case DropErased => pc.Dropping?
    case ClientNew(slot) => pc.Idle? && Local(t, slot) !in s.graph.ptr
    case ClientRef(from, slot) => pc.Idle? && Local(t, from) in s.graph.ptr && Local(t, slot) !in s.graph.ptr
    case ClientUnref(slot) => pc.Idle? && Local(t, slot) in s.graph.ptr
    case ClientGive(from, other, slot) =>
      pc.Idle? && Pc(s, other).Idle? && Local(t, from) in s.graph.ptr && Local(other, slot) !in s.graph.ptr
    case MakeKernel(k) => pc.Idle? && k !in s.kernels
    case Compute(k, slot) => pc.Idle? && k in s.kernels && s.kernels[k].mu == None && Local(t, slot) !in s.graph.ptr
    case Check(_, _, _) => pc.KernelCheck?
    case Verify(_) => pc.Looking? && pc.stage == Verifying
    case Reject => pc.Looking? && pc.stage == Rejecting
    case Publish => pc.Looking? && pc.stage == Publishing
    case LeaveKernel => pc.KernelLeave?
    case DestroyKernel(k, slot) => pc.Idle? && k in s.kernels && s.kernels[k].mu == None && Local(t, slot) !in s.graph.ptr
  }

  function Ref(s: State, h: Holder, r: nat): State {
    if r in s.graph.count then s.(graph := AddRef(s.graph, h, r)) else s.(fault := DanglingPointer)
  }

  predicate CanUnref(g: Graph, h: Holder) {
    h in g.ptr && g.ptr[h] in g.count && g.count[g.ptr[h]] >= 1
  }

  function Unref(s: State, h: Holder): State {
    if CanUnref(s.graph, h) then s.(graph := DropRef(s.graph, h)) else s.(fault := DanglingPointer)
  }

  function Move(s: State, h: Holder, h': Holder): State {
    if h in s.graph.ptr then s.(graph := MoveRef(s.graph, h, h')) else s.(fault := DanglingPointer)
  }

  function Record(s: State, e: Event): State {
    s.(log := s.log + [e])
  }

  /** `LookupInternal` of the call, when the key is present. */
  function Obtain(s: State, t: nat, call: Call, r: nat): State {
    Record(Ref(s, Local(t, call.slot), r), Obtained(t, call.key, r))
  }

  /** The steps of Lookup and LookupOrCreate. */
  function ApplyLooking(s: State, t: nat, a: Action): State
    requires Enabled(s, t, a) && Pc(s, t).Looking?
  {
    var pc := Pc(s, t);
    var call := pc.call;
    var mine := Local(t, call.slot);
    match a
    case AcquireShared => Stay(s, t, InShared).(lock := s.lock.(readers := s.lock.readers + {t}))
    case LookupShared =>
      if InTable(s, call.key) then Stay(Obtain(s, t, call, s.graph.ptr[Entry(call.key)]), t, LeaveShared(true))
      else Stay(s, t, LeaveShared(false))
    case ReleaseShared =>
      Stay(s, t, if pc.stage.found then Finished(true) else if call.create then EnterExclusive else Finished(false))
        .(lock := s.lock.(readers := s.lock.readers - {t}))
    case AcquireExclusive => Stay(s, t, Recheck).(lock := s.lock.(writer := Some(t)))
    case LookupExclusive =>
      if InTable(s, call.key) then Stay(Obtain(s, t, call, s.graph.ptr[Entry(call.key)]), t, LeaveExclusive(true))
      else Stay(s, t, Creating)
    case RunCreator(outcome) =>
      if outcome.CreatorFails? then Stay(s, t, LeaveExclusive(false))
      else Stay(s.(graph := NewRef(s.graph, mine)), t, if outcome.CreatorOk? then Inserting else CleaningUp)
    case CleanUp =>
      var s' := Stay(Unref(s, mine), t, LeaveExclusive(false));
      if CanUnref(s.graph, mine) && !UnrefDeletes(s.graph, mine) then s'.(fault := CheckFailed) else s'
    case DoCreate =>
      if InTable(s, call.key) then Stay(s, t, Unexpected)
      else if mine !in s.graph.ptr then s.(fault := DanglingPointer)
      else Stay(Record(Move(s, mine, Entry(call.key)), Created(call.key, s.graph.ptr[mine])), t, Referencing(s.graph.ptr[mine]))
    case TakeRef => Stay(Obtain(s, t, call, pc.stage.res), t, LeaveExclusive(true))
    case ReleaseExclusive => Stay(s, t, Finished(pc.stage.ok)).(lock := s.lock.(writer := None))
    case Return =>
      if !pc.stage.ok then Goto(s, t, if call.caller.Client? then Idle else KernelLeave(call.caller.kernel, call.slot))
      else if mine !in s.graph.ptr then s.(fault := DanglingPointer)
      else
        var s' := Record(s, Returned(t, call.key, s.graph.ptr[mine], call.since));
        if call.caller.Client? then Goto(s', t, Idle) else Stay(s', t, Verifying)
    case Verify(ok) => Stay(s, t, if ok then Publishing else Rejecting)
    case Reject =>
      if call.caller.Client? then s else Goto(Unref(s, mine), t, KernelLeave(call.caller.kernel, call.slot))
    case Publish =>
      if call.caller.Client? then s
      else Goto(Move(s, mine, Field(call.caller.kernel)), t, KernelLeave(call.caller.kernel, call.slot))
  }

  /** The steps of LookupMany: one `LookupInternal` per key, all under one hold of the shared lock. */
  function ApplyMany(s: State, t: nat, a: Action): State
    requires Enabled(s, t, a) && IsMany(Pc(s, t))
  {
    var pc := Pc(s, t);
    match a
    case AcquireShared => Goto(s, t, InMany(pc.keys, pc.first, 0)).(lock := s.lock.(readers := s.lock.readers + {t}))
    case LookupShared =>
      var key := pc.keys[pc.i];
      var next := InMany(pc.keys, pc.first, pc.i + 1);
      if InTable(s, key) then
        var r := s.graph.ptr[Entry(key)];
        Goto(Record(Ref(s, EntryVar(t, pc.first, pc.i), r), Obtained(t, key, r)), t, next)
      else Goto(s, t, next)
    case ReleaseShared => Goto(s, t, Idle).(lock := s.lock.(readers := s.lock.readers - {t}))
  }

  /** The steps of Create, Delete, clients and kernels. */
  function ApplyOther(s: State, t: nat, a: Action): State
    requires Enabled(s, t, a) && IsOther(Pc(s, t))
  {
    var pc := Pc(s, t);
    match a
    case CallLookup(key, slot, create) => Goto(s, t, Looking(Call(key, slot, create, Client, |s.log|), EnterShared))
    case CallLookupMany(keys, first) => Goto(s, t, EnterMany(keys, first))
    case AcquireExclusive =>
      Goto(s, t, if pc.EnterCreate? then InCreate(pc.key, pc.slot) else InDelete(pc.key, pc.slot)).(lock := s.lock.(writer := Some(t)))
    case DoCreate =>
      if InTable(s, pc.key) then Goto(s, t, LeaveCreate)
      else if Local(t, pc.slot) !in s.graph.ptr then s.(fault := DanglingPointer)
      else Goto(Record(Move(s, Local(t, pc.slot), Entry(pc.key)), Created(pc.key, s.graph.ptr[Local(t, pc.slot)])), t, LeaveCreate)
    case ReleaseExclusive =>
      Goto(s, t, if pc.LeaveDelete? && pc.erased then Dropping(pc.slot) else Idle).(lock := s.lock.(writer := None))
    case CallCreate(key, slot) => Goto(s, t, EnterCreate(key, slot))
    case CallDelete(key, slot) => Goto(s, t, EnterDelete(key, slot))
    case DoErase =>
      if !InTable(s, pc.key) then Goto(s, t, LeaveDelete(pc.slot, false))
      else Goto(Record(Move(s, Entry(pc.key), Local(t, pc.slot)), Erased(pc.key, s.graph.ptr[Entry(pc.key)])), t, LeaveDelete(pc.slot, true))
    case DropErased => Goto(Unref(s, Local(t, pc.slot)), t, Idle)
    case ClientNew(slot) => s.(graph := NewRef(s.graph, Local(t, slot)))
    case ClientRef(from, slot) => Ref(s, Local(t, slot), s.graph.ptr[Local(t, from)])
    case ClientUnref(slot) => Unref(s, Local(t, slot))
    case ClientGive(from, other, slot) => Move(s, Local(t, from), Local(other, slot))
    case MakeKernel(k) => s.(kernels := s.kernels[k := KernelState(None, Key("", 0, ""), false)])
    case Compute(k, slot) => Goto(s.(kernels := s.kernels[k := s.kernels[k].(mu := Some(t))]), t, KernelCheck(k, slot))
    case Check(initOk, key, isPrivate) =>
      if Field(pc.kernel) in s.graph.ptr || !initOk || pc.kernel !in s.kernels then Goto(s, t, KernelLeave(pc.kernel, pc.slot))
      else Goto(s.(kernels := s.kernels[pc.kernel := KernelState(s.kernels[pc.kernel].mu, key, isPrivate)]), t,
                Looking(Call(key, pc.slot, true, Kernel(pc.kernel), |s.log|), EnterShared))
    case LeaveKernel =>
      if pc.kernel !in s.kernels then s
      else Goto(s.(kernels := s.kernels[pc.kernel := s.kernels[pc.kernel].(mu := None)]), t, Idle)
    case DestroyKernel(k, slot) =>
      var gone := s.(kernels := s.kernels - {k});
      if Field(k) !in s.graph.ptr then gone
      else Goto(Unref(gone, Field(k)), t, if s.kernels[k].isPrivate then EnterDelete(s.kernels[k].key, slot) else Idle)
  }

  function Apply(s: State, t: nat, a: Action): State
    requires Enabled(s, t, a)
  {
    if Pc(s, t).Looking? then ApplyLooking(s, t, a)
    else if IsMany(Pc(s, t)) then ApplyMany(s, t, a)
    else ApplyOther(s, t, a)
  }

  const INITIAL := State(Graph(map[], map[], 0), Lock({}, None), map[], map[], [], NoFault)

  // ---- The invariant ----

  predicate OwnsSlot(stage: Stage) {
    match stage
    case LeaveShared(found) => found
    case LeaveExclusive(ok) => ok
    case Finished(ok) => ok
    case _ => stage in {CleaningUp, Inserting, Verifying, Rejecting, Publishing}
  }

  /** The stages that only LookupOrCreate has. */
  predicate OnlyToCreate(stage: Stage) {
    stage in {EnterExclusive, Recheck, Creating, CleaningUp, Inserting, Unexpected} || stage.Referencing? || stage.LeaveExclusive?
  }

  /** The call has obtained the resource that its variable points to. */
  predicate HasResult(stage: Stage) {
    match stage
    case LeaveShared(found) => found
    case LeaveExclusive(ok) => ok
    case Finished(ok) => ok
    case _ => false
  }

  ghost predicate LookingOk(s: State, t: nat, call: Call, stage: Stage) {
    var mine := Local(t, call.slot);
    && (mine in s.graph.ptr <==> OwnsSlot(stage))
    && stage != Unexpected
    && (stage in {Creating, CleaningUp, Inserting} ==> !InTable(s, call.key))
    && (stage.Referencing? ==> InTable(s, call.key) && s.graph.ptr[Entry(call.key)] == stage.res)
    && (stage == CleaningUp ==> Sole(s.graph, mine) && call.caller.Kernel?)
    && (stage in {Verifying, Rejecting, Publishing} ==> call.caller.Kernel?)
    && call.since <= |s.log|
    && (HasResult(stage) ==> ObtainedSince(s.log, call.since, t, call.key, s.graph.ptr[mine]))
    && (stage.LeaveShared? || stage.LeaveExclusive? ==> EntryOk(s, mine, call.key))
    && (OnlyToCreate(stage) ==> call.create)
    && (call.caller.Kernel? ==> call.create && Field(call.caller.kernel) !in s.graph.ptr)
  }

  /** The variable owns a reference exactly if the key is in the table, and then to that resource. */
  ghost predicate EntryOk(s: State, h: Holder, key: Key) {
    && (h in s.graph.ptr <==> InTable(s, key))
    && (InTable(s, key) && h in s.graph.ptr ==> s.graph.ptr[h] == s.graph.ptr[Entry(key)])
  }

  ghost predicate ManyOk(s: State, t: nat, keys: seq<Key>, first: nat, i: nat) {
    && i <= |keys|
    && (forall j: nat {:trigger EntryVar(t, first, j)} | j < i :: EntryOk(s, EntryVar(t, first, j), keys[j]))
    && (forall j: nat {:trigger EntryVar(t, first, j)} | i <= j < |keys| :: EntryVar(t, first, j) !in s.graph.ptr)
  }

  ghost predicate SlotOk(s: State, t: nat, pc: PC) {
    match pc
    case EnterMany(keys, first) => FreeSlots(s.graph, t, first, |keys|)
    case InMany(keys, first, i) => ManyOk(s, t, keys, first, i)
    case Looking(call, stage) => LookingOk(s, t, call, stage)
    case EnterCreate(_, slot) => Local(t, slot) in s.graph.ptr
    case InCreate(_, slot) => Local(t, slot) in s.graph.ptr
    case EnterDelete(_, slot) => Local(t, slot) !in s.graph.ptr
    case InDelete(_, slot) => Local(t, slot) !in s.graph.ptr
    case LeaveDelete(slot, erased) => Local(t, slot) in s.graph.ptr <==> erased
    case Dropping(slot) => Local(t, slot) in s.graph.ptr
    case KernelCheck(_, slot) => Local(t, slot) !in s.graph.ptr
    case KernelLeave(_, slot) => Local(t, slot) !in s.graph.ptr
    case _ => true
  }

  function KernelOf(pc: PC): Option<nat> {
    match pc
    case Looking(call, _) => if call.caller.Kernel? then Some(call.caller.kernel) else None
    case KernelCheck(k, _) => Some(k)
    case KernelLeave(k, _) => Some(k)
    case _ => None
  }

  ghost predicate ThreadOk(s: State, t: nat) {
    var pc := Pc(s, t);
    && (t in s.lock.readers <==> HoldsShared(pc))
    && (s.lock.writer == Some(t) <==> HoldsExclusive(pc))
    && (KernelOf(pc).Some? ==> KernelOf(pc).value in s.kernels && s.kernels[KernelOf(pc).value].mu == Some(t))
    && SlotOk(s, t, pc)
  }

  ghost predicate KernelOk(s: State, k: nat)
    requires k in s.kernels
  {
    s.kernels[k].mu.Some? ==> KernelOf(Pc(s, s.kernels[k].mu.value)) == Some(k)
  }

  /** The log tells exactly what is in the table. */
  ghost predicate TableOk(s: State) {
    && Legal(s.log)
    && (forall k :: InTable(s, k) <==> k in Table(s.log))
    && (forall k :: k in Table(s.log) && InTable(s, k) ==> s.graph.ptr[Entry(k)] == Table(s.log)[k])
  }

  ghost predicate Inv(s: State) {
    && s.fault == NoFault
    && Conserved(s.graph)
    && (s.lock.writer.Some? ==> s.lock.readers == {})
    && TableOk(s)
    && (forall t: nat :: ThreadOk(s, t))
    && (forall k <- s.kernels :: KernelOk(s, k))
    && (forall k: nat :: Field(k) in s.graph.ptr ==> k in s.kernels)
  }

  lemma InitialInv()
    ensures Inv(INITIAL)
  {
    assert Holders(map[], 0) == {};
  }
}
