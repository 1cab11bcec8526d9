/** The invariant of the protocol holds in every run, and what follows from it. */
module ResourceSafety {
  import opened Wrappers
  import opened ReferenceGraph
  import opened ResourceLog
  import opened ResourceProtocol

  /** The graph after the step of one thread: unchanged, or changed by one reference operation. */
  lemma CreationConserves(s: State, t: nat, a: Action)
    requires Inv(s) && Enabled(s, t, a) && Pc(s, t).Looking? && (a.RunCreator? || a.CleanUp? || a.DoCreate?)
    ensures Apply(s, t, a).fault == NoFault && Conserved(Apply(s, t, a).graph)
  {
    assert ThreadOk(s, t);
    var call := Pc(s, t).call;
    var mine := Local(t, call.slot);
    if a.RunCreator? && !a.outcome.CreatorFails? {
      NewRefConserves(s.graph, mine);
    } else if a.CleanUp? {
      UnrefDeletesIffSole(s.graph, mine);
      DropRefConserves(s.graph, mine);
    } else if a.DoCreate? {
      MoveRefConserves(s.graph, mine, Entry(call.key));
    }
  }

  lemma LookingConserves(s: State, t: nat, a: Action)
    requires Inv(s) && Enabled(s, t, a) && Pc(s, t).Looking?
    ensures Apply(s, t, a).fault == NoFault && Conserved(Apply(s, t, a).graph)
  {
    if a.RunCreator? || a.CleanUp? || a.DoCreate? {
      CreationConserves(s, t, a);
    } else {
      assert ThreadOk(s, t);
      var call, stage := Pc(s, t).call, Pc(s, t).stage;
      var mine := Local(t, call.slot);
      if (a.LookupShared? || a.LookupExclusive?) && InTable(s, call.key) {
        AddRefConserves(s.graph, mine, s.graph.ptr[Entry(call.key)]);
      } else if a.TakeRef? {
        AddRefConserves(s.graph, mine, stage.res);
      } else if a.Reject? {
        DropRefConserves(s.graph, mine);
      } else if a.Publish? {
        MoveRefConserves(s.graph, mine, Field(call.caller.kernel));
      }
    }
  }

  lemma OtherConserves(s: State, t: nat, a: Action)
    requires Inv(s) && Enabled(s, t, a) && IsOther(Pc(s, t))
    ensures Apply(s, t, a).fault == NoFault && Conserved(Apply(s, t, a).graph)
  {
    assert ThreadOk(s, t);
    var pc := Pc(s, t);
    match a
    case DoCreate =>
      if !InTable(s, pc.key) { MoveRefConserves(s.graph, Local(t, pc.slot), Entry(pc.key)); }
    case DoErase =>
      if InTable(s, pc.key) { MoveRefConserves(s.graph, Entry(pc.key), Local(t, pc.slot)); }
    case DropErased => DropRefConserves(s.graph, Local(t, pc.slot));
    case ClientNew(slot) => NewRefConserves(s.graph, Local(t, slot));
    case ClientRef(from, slot) => AddRefConserves(s.graph, Local(t, slot), s.graph.ptr[Local(t, from)]);
    case ClientUnref(slot) => DropRefConserves(s.graph, Local(t, slot));
    case ClientGive(from, other, slot) => MoveRefConserves(s.graph, Local(t, from), Local(other, slot));
    case DestroyKernel(k, slot) =>
      if Field(k) in s.graph.ptr { DropRefConserves(s.graph, Field(k)); }
    case _ =>
  }

  lemma ManyConserves(s: State, t: nat, a: Action)
    requires Inv(s) && Enabled(s, t, a) && IsMany(Pc(s, t))
    ensures Apply(s, t, a).fault == NoFault && Conserved(Apply(s, t, a).graph)
  {
    assert ThreadOk(s, t);
    var pc := Pc(s, t);
    if a.LookupShared? && InTable(s, pc.keys[pc.i]) {
      AddRefConserves(s.graph, EntryVar(t, pc.first, pc.i), s.graph.ptr[Entry(pc.keys[pc.i])]);
    }
  }

  /** One event agrees with the table, and the entries change as the event says. */
  lemma RecordKeepsTable(s: State, s': State, e: Event)
    requires TableOk(s) && s'.log == s.log + [e] && Agrees(s.log, e)
    requires forall k :: InTable(s', k) <==> k in After(Table(s.log), e)
    requires forall k :: k in After(Table(s.log), e) && InTable(s', k) ==> s'.graph.ptr[Entry(k)] == After(Table(s.log), e)[k]
    ensures TableOk(s')
  {
    LegalAppend(s.log, e);
  }

  lemma InsertTable(s: State, t: nat, a: Action)
    requires Inv(s) && Enabled(s, t, a) && Pc(s, t).Looking? && a.DoCreate?
    ensures TableOk(Apply(s, t, a)) && s.log <= Apply(s, t, a).log
  {
    assert ThreadOk(s, t);
    var call := Pc(s, t).call;
    RecordKeepsTable(s, Apply(s, t, a), Created(call.key, s.graph.ptr[Local(t, call.slot)]));
  }

  lemma ObtainTable(s: State, t: nat, a: Action)
    requires Inv(s) && Enabled(s, t, a) && Pc(s, t).Looking? && (a.LookupShared? || a.LookupExclusive? || a.TakeRef?)
    ensures TableOk(Apply(s, t, a)) && s.log <= Apply(s, t, a).log
  {
    assert ThreadOk(s, t);
    var call := Pc(s, t).call;
    var s' := Apply(s, t, a);
    if InTable(s, call.key) {
      RecordKeepsTable(s, s', Obtained(t, call.key, s.graph.ptr[Entry(call.key)]));
    } else {
      assert s'.log == s.log;
    }
  }

  lemma LookingTable(s: State, t: nat, a: Action)
    requires Inv(s) && Enabled(s, t, a) && Pc(s, t).Looking?
    ensures TableOk(Apply(s, t, a)) && s.log <= Apply(s, t, a).log
  {
    if a.DoCreate? {
      InsertTable(s, t, a);
    } else if a.LookupShared? || a.LookupExclusive? || a.TakeRef? {
      ObtainTable(s, t, a);
    } else if a.Return? {
      ReturnTable(s, t, a);
    } else {
      QuietTable(s, t, a);
    }
  }

  lemma QuietTable(s: State, t: nat, a: Action)
    requires Enabled(s, t, a) && Pc(s, t).Looking? && TableOk(s)
    requires !a.DoCreate? && !a.LookupShared? && !a.LookupExclusive? && !a.TakeRef? && !a.Return?
    ensures TableOk(Apply(s, t, a)) && Apply(s, t, a).log == s.log
  {
    assert Apply(s, t, a).log == s.log;
  }

  lemma ReturnTable(s: State, t: nat, a: Action)
    requires Inv(s) && Enabled(s, t, a) && Pc(s, t).Looking? && a.Return?
    ensures TableOk(Apply(s, t, a)) && s.log <= Apply(s, t, a).log
  {
    assert ThreadOk(s, t);
    var call := Pc(s, t).call;
    if Pc(s, t).stage.ok {
      RecordKeepsTable(s, Apply(s, t, a), Returned(t, call.key, s.graph.ptr[Local(t, call.slot)], call.since));
    }
  }

  lemma OtherTable(s: State, t: nat, a: Action)
    requires Inv(s) && Enabled(s, t, a) && IsOther(Pc(s, t))
    ensures TableOk(Apply(s, t, a)) && s.log <= Apply(s, t, a).log
  {
    assert ThreadOk(s, t);
    var s' := Apply(s, t, a);
    if s'.log != s.log {
      RecordKeepsTable(s, s', s'.log[|s.log|]);
    }
  }

  lemma ManyTable(s: State, t: nat, a: Action)
    requires Inv(s) && Enabled(s, t, a) && IsMany(Pc(s, t))
    ensures TableOk(Apply(s, t, a)) && s.log <= Apply(s, t, a).log
  {
    assert ThreadOk(s, t);
    var s', pc := Apply(s, t, a), Pc(s, t);
    if a.LookupShared? && InTable(s, pc.keys[pc.i]) {
      RecordKeepsTable(s, s', Obtained(t, pc.keys[pc.i], s.graph.ptr[Entry(pc.keys[pc.i])]));
    } else {
      assert s'.log == s.log;
    }
  }

  // ---- What one thread does does not disturb what another thread relies on ----

  /** `h` points to something that `h` itself did not create out of a pointer of thread `u`. */
  ghost predicate Traceable(g: Graph, g': Graph, h: Holder, u: nat)
    requires h in g'.ptr
  {
    || (h in g.ptr && g.ptr[h] == g'.ptr[h])
    || g'.ptr[h] >= g.next
    || (exists p :: p in g.ptr && g.ptr[p] == g'.ptr[h] && !(p.Local? && p.thread == u))
  }

  /** What thread `u` can rely on while another thread takes a step. */
  ghost predicate Undisturbed(s: State, s': State, u: nat) {
    var pc := Pc(s, u);
    && Pc(s', u) == pc
    && (u in s'.lock.readers <==> u in s.lock.readers)
    && (s'.lock.writer == Some(u) <==> s.lock.writer == Some(u))
    && s.log <= s'.log
    && (!pc.Idle? ==> forall slot ::
         && (Local(u, slot) in s'.graph.ptr <==> Local(u, slot) in s.graph.ptr)
         && (Local(u, slot) in s.graph.ptr && Local(u, slot) in s'.graph.ptr ==> s'.graph.ptr[Local(u, slot)] == s.graph.ptr[Local(u, slot)]))
    && (s.lock.writer == Some(u) || u in s.lock.readers ==> forall key ::
         && (InTable(s', key) <==> InTable(s, key))
         && (InTable(s, key) && InTable(s', key) ==> s'.graph.ptr[Entry(key)] == s.graph.ptr[Entry(key)]))
    && (KernelOf(pc).Some? ==>
         var k := KernelOf(pc).value;
         && (Field(k) in s'.graph.ptr <==> Field(k) in s.graph.ptr)
         && (Field(k) in s.graph.ptr && Field(k) in s'.graph.ptr ==> s'.graph.ptr[Field(k)] == s.graph.ptr[Field(k)])
         && (k in s.kernels ==> k in s'.kernels && s'.kernels[k].mu == s.kernels[k].mu))
    && (!pc.Idle? ==> forall h <- s'.graph.ptr :: Traceable(s.graph, s'.graph, h, u))
  }

  lemma SoleStays(s: State, s': State, u: nat, slot: nat)
    requires Inv(s) && Undisturbed(s, s', u) && !Pc(s, u).Idle? && Sole(s.graph, Local(u, slot))
    ensures Sole(s'.graph, Local(u, slot))
  {
    var mine := Local(u, slot);
    forall h | h in s'.graph.ptr && s'.graph.ptr[h] == s'.graph.ptr[mine] ensures h == mine {
      assert Traceable(s.graph, s'.graph, h, u);
      assert s.graph.ptr[mine] < s.graph.next;
    }
  }

  /** What a vector holds stays as it is while its thread is inside LookupMany. */
  lemma VectorStays(s: State, s': State, u: nat)
    requires SlotOk(s, u, Pc(s, u)) && Undisturbed(s, s', u) && IsMany(Pc(s, u))
    requires Pc(s, u).InMany? ==> u in s.lock.readers
    ensures SlotOk(s', u, Pc(s, u))
  {
    var pc := Pc(s, u);
    forall j: nat | j < |pc.keys|
      ensures EntryVar(u, pc.first, j) in s'.graph.ptr <==> EntryVar(u, pc.first, j) in s.graph.ptr
      ensures pc.InMany? && j < pc.i ==> EntryOk(s', EntryVar(u, pc.first, j), pc.keys[j])
    {
      assert Local(u, pc.first + j) in s'.graph.ptr <==> Local(u, pc.first + j) in s.graph.ptr;
    }
  }

  lemma OtherThread(s: State, s': State, u: nat)
    requires Inv(s) && Undisturbed(s, s', u)
    ensures ThreadOk(s', u)
  {
    assert ThreadOk(s, u);
    var pc := Pc(s, u);
    if pc.Looking? {
      var mine := Local(u, pc.call.slot);
      if pc.stage == CleaningUp {
        SoleStays(s, s', u, pc.call.slot);
      }
      if HasResult(pc.stage) {
        var i :| pc.call.since <= i < |s.log| && s.log[i] == Obtained(u, pc.call.key, s.graph.ptr[mine]);
        assert s'.log[i] == s.log[i];
      }
    } else if IsMany(pc) {
      VectorStays(s, s', u);
    }
  }

  predicate IsLockStep(a: Action) {
    a.AcquireShared? || a.ReleaseShared? || a.AcquireExclusive? || a.ReleaseExclusive?
  }

  predicate IsObtainStep(a: Action) {
    a.LookupShared? || a.LookupExclusive? || a.TakeRef?
  }

  predicate IsCreateStep(a: Action) {
    a.RunCreator? || a.CleanUp? || a.DoCreate?
  }

  /** A new pointer of another thread to the resource of a table entry. */
  lemma RefUndisturbed(s: State, s': State, u: nat, h: Holder, key: Key)
    requires InTable(s, key) && h.Local? && h.thread != u
    requires s'.graph.ptr == s.graph.ptr[h := s.graph.ptr[Entry(key)]]
    requires Pc(s', u) == Pc(s, u) && s'.lock == s.lock && s'.kernels == s.kernels && s.log <= s'.log
    ensures Undisturbed(s, s', u)
  {
    forall p | p in s'.graph.ptr ensures Traceable(s.graph, s'.graph, p, u) {
      assert Entry(key) in s.graph.ptr;
    }
  }

  lemma ObtainUndisturbed(s: State, t: nat, a: Action, u: nat)
    requires ThreadOk(s, t) && Conserved(s.graph) && Enabled(s, t, a) && Pc(s, t).Looking? && u != t && IsObtainStep(a)
    ensures Undisturbed(s, Apply(s, t, a), u)
  {
    var call := Pc(s, t).call;
    if InTable(s, call.key) {
      RefUndisturbed(s, Apply(s, t, a), u, Local(t, call.slot), call.key);
    }
  }

  lemma CreateUndisturbed(s: State, t: nat, a: Action, u: nat)
    requires ThreadOk(s, t) && ThreadOk(s, u) && Enabled(s, t, a) && Pc(s, t).Looking? && u != t && IsCreateStep(a)
    requires s.lock.writer.Some? ==> s.lock.readers == {}
    ensures Undisturbed(s, Apply(s, t, a), u)
  {
    var s', mine := Apply(s, t, a), Local(t, Pc(s, t).call.slot);
    forall h | h in s'.graph.ptr ensures Traceable(s.graph, s'.graph, h, u) {
      assert mine in s.graph.ptr || s'.graph.ptr[h] >= s.graph.next || h in s.graph.ptr;
    }
  }

  lemma LockUndisturbed(s: State, t: nat, a: Action, u: nat)
    requires ThreadOk(s, t) && ThreadOk(s, u) && Enabled(s, t, a) && Pc(s, t).Looking? && u != t && IsLockStep(a)
    ensures Undisturbed(s, Apply(s, t, a), u)
  {
    assert Apply(s, t, a).graph == s.graph;
  }

  lemma DecideUndisturbed(s: State, t: nat, a: Action, u: nat)
    requires ThreadOk(s, t) && ThreadOk(s, u) && Enabled(s, t, a) && Pc(s, t).Looking? && u != t && (a.Reject? || a.Publish?)
    ensures Undisturbed(s, Apply(s, t, a), u)
  {
    var s', mine := Apply(s, t, a), Local(t, Pc(s, t).call.slot);
    forall h | h in s'.graph.ptr ensures Traceable(s.graph, s'.graph, h, u) {
      assert mine in s.graph.ptr || h in s.graph.ptr;
    }
  }

  lemma FinishUndisturbed(s: State, t: nat, a: Action, u: nat)
    requires ThreadOk(s, t) && ThreadOk(s, u) && Enabled(s, t, a) && Pc(s, t).Looking? && u != t
    requires !IsLockStep(a) && !IsObtainStep(a) && !IsCreateStep(a)
    ensures Undisturbed(s, Apply(s, t, a), u)
  {
    if a.Reject? || a.Publish? {
      DecideUndisturbed(s, t, a, u);
    } else {
      assert Apply(s, t, a).graph == s.graph;
    }
  }

  lemma LookingUndisturbed(s: State, t: nat, a: Action, u: nat)
    requires Inv(s) && Enabled(s, t, a) && Pc(s, t).Looking? && u != t
    ensures Undisturbed(s, Apply(s, t, a), u)
  {
    assert ThreadOk(s, t) && ThreadOk(s, u);
    if IsObtainStep(a) {
      ObtainUndisturbed(s, t, a, u);
    } else if IsCreateStep(a) {
      CreateUndisturbed(s, t, a, u);
    } else if IsLockStep(a) {
      LockUndisturbed(s, t, a, u);
    } else {
      FinishUndisturbed(s, t, a, u);
    }
  }

  lemma ManyUndisturbed(s: State, t: nat, a: Action, u: nat)
    requires ThreadOk(s, t) && Conserved(s.graph) && Enabled(s, t, a) && IsMany(Pc(s, t)) && u != t
    ensures Undisturbed(s, Apply(s, t, a), u)
  {
    var pc := Pc(s, t);
    if a.LookupShared? && InTable(s, pc.keys[pc.i]) {
      RefUndisturbed(s, Apply(s, t, a), u, EntryVar(t, pc.first, pc.i), pc.keys[pc.i]);
    }
  }

  predicate IsTableStep(a: Action) {
    a.DoCreate? || a.DoErase? || a.DropErased?
  }

  predicate IsClientStep(a: Action) {
    a.ClientRef? || a.ClientGive? || a.ClientNew? || a.ClientUnref?
  }

  predicate IsKernelStep(a: Action) {
    a.MakeKernel? || a.Compute? || a.Check? || a.LeaveKernel? || a.DestroyKernel?
  }

  lemma TableUndisturbed(s: State, t: nat, a: Action, u: nat)
    requires ThreadOk(s, t) && ThreadOk(s, u) && Enabled(s, t, a) && IsOther(Pc(s, t)) && u != t && IsTableStep(a)
    requires s.lock.writer.Some? ==> s.lock.readers == {}
    ensures Undisturbed(s, Apply(s, t, a), u)
  {
    var s' := Apply(s, t, a);
    assert s'.kernels == s.kernels && s'.lock == s.lock && Pc(s', u) == Pc(s, u);
    forall h | h in s'.graph.ptr ensures Traceable(s.graph, s'.graph, h, u) {}
  }

  lemma ClientUndisturbed(s: State, t: nat, a: Action, u: nat)
    requires ThreadOk(s, t) && ThreadOk(s, u) && Enabled(s, t, a) && IsOther(Pc(s, t)) && u != t && IsClientStep(a)
    ensures Undisturbed(s, Apply(s, t, a), u)
  {
    var s' := Apply(s, t, a);
    assert s'.kernels == s.kernels && s'.lock == s.lock && s'.pcs == s.pcs && s'.log == s.log;
  }

  lemma KernelUndisturbed(s: State, t: nat, a: Action, u: nat)
    requires ThreadOk(s, t) && ThreadOk(s, u) && Enabled(s, t, a) && IsOther(Pc(s, t)) && u != t && IsKernelStep(a)
    ensures Undisturbed(s, Apply(s, t, a), u)
  {
    assert Apply(s, t, a).log == s.log && Apply(s, t, a).lock == s.lock;
  }

  lemma OtherUndisturbed(s: State, t: nat, a: Action, u: nat)
    requires Inv(s) && Enabled(s, t, a) && IsOther(Pc(s, t)) && u != t
    ensures Undisturbed(s, Apply(s, t, a), u)
  {
    assert ThreadOk(s, t) && ThreadOk(s, u);
    if IsTableStep(a) {
      TableUndisturbed(s, t, a, u);
    } else if IsClientStep(a) {
      ClientUndisturbed(s, t, a, u);
    } else if IsKernelStep(a) {
      KernelUndisturbed(s, t, a, u);
    } else {
      assert ThreadOk(s, t) && ThreadOk(s, u);
      assert Apply(s, t, a).log == s.log && Apply(s, t, a).graph == s.graph;
    }
  }

  lemma LockSelf(s: State, t: nat, a: Action)
    requires ThreadOk(s, t) && Enabled(s, t, a) && Pc(s, t).Looking? && IsLockStep(a)
    ensures ThreadOk(Apply(s, t, a), t)
  {
  }

  lemma LookupSharedSelf(s: State, t: nat, a: Action)
    requires ThreadOk(s, t) && Conserved(s.graph) && Enabled(s, t, a) && Pc(s, t).Looking? && a.LookupShared?
    ensures ThreadOk(Apply(s, t, a), t)
  {
    var s', call := Apply(s, t, a), Pc(s, t).call;
    if InTable(s, call.key) {
      assert s'.log[|s.log|] == Obtained(t, call.key, s.graph.ptr[Entry(call.key)]);
    }
  }

  lemma LookupExclusiveSelf(s: State, t: nat, a: Action)
    requires ThreadOk(s, t) && Conserved(s.graph) && Enabled(s, t, a) && Pc(s, t).Looking? && a.LookupExclusive?
    ensures ThreadOk(Apply(s, t, a), t)
  {
    var s', call := Apply(s, t, a), Pc(s, t).call;
    if InTable(s, call.key) {
      assert s'.log[|s.log|] == Obtained(t, call.key, s.graph.ptr[Entry(call.key)]);
    }
  }

  lemma TakeRefSelf(s: State, t: nat, a: Action)
    requires ThreadOk(s, t) && Conserved(s.graph) && Enabled(s, t, a) && Pc(s, t).Looking? && a.TakeRef?
    ensures ThreadOk(Apply(s, t, a), t)
  {
    var s', call := Apply(s, t, a), Pc(s, t).call;
    assert s'.log[|s.log|] == Obtained(t, call.key, s.graph.ptr[Entry(call.key)]);
  }

  lemma ObtainSelf(s: State, t: nat, a: Action)
    requires ThreadOk(s, t) && Conserved(s.graph) && Enabled(s, t, a) && Pc(s, t).Looking? && IsObtainStep(a)
    ensures ThreadOk(Apply(s, t, a), t)
  {
    if a.TakeRef? {
      TakeRefSelf(s, t, a);
    } else if a.LookupShared? {
      LookupSharedSelf(s, t, a);
    } else {
      LookupExclusiveSelf(s, t, a);
    }
  }

  lemma RunCreatorSelf(s: State, t: nat, a: Action)
    requires ThreadOk(s, t) && Conserved(s.graph) && Enabled(s, t, a) && Pc(s, t).Looking? && a.RunCreator?
    ensures ThreadOk(Apply(s, t, a), t)
  {
  }

  lemma CleanUpSelf(s: State, t: nat, a: Action)
    requires ThreadOk(s, t) && Conserved(s.graph) && Enabled(s, t, a) && Pc(s, t).Looking? && a.CleanUp?
    ensures ThreadOk(Apply(s, t, a), t)
  {
  }

  lemma InsertSelf(s: State, t: nat, a: Action)
    requires ThreadOk(s, t) && Conserved(s.graph) && Enabled(s, t, a) && Pc(s, t).Looking? && a.DoCreate?
    ensures ThreadOk(Apply(s, t, a), t)
  {
  }

  lemma CreateSelf(s: State, t: nat, a: Action)
    requires ThreadOk(s, t) && Conserved(s.graph) && Enabled(s, t, a) && Pc(s, t).Looking? && IsCreateStep(a)
    ensures ThreadOk(Apply(s, t, a), t)
  {
    if a.RunCreator? {
      RunCreatorSelf(s, t, a);
    } else if a.CleanUp? {
      CleanUpSelf(s, t, a);
    } else {
      InsertSelf(s, t, a);
    }
  }

  lemma ReturnSelf(s: State, t: nat, a: Action)
    requires ThreadOk(s, t) && Enabled(s, t, a) && Pc(s, t).Looking? && a.Return?
    ensures ThreadOk(Apply(s, t, a), t)
  {
  }

  lemma VerifySelf(s: State, t: nat, a: Action)
    requires ThreadOk(s, t) && Enabled(s, t, a) && Pc(s, t).Looking? && a.Verify?
    ensures ThreadOk(Apply(s, t, a), t)
  {
  }

  lemma DecideSelf(s: State, t: nat, a: Action)
    requires ThreadOk(s, t) && Conserved(s.graph) && Enabled(s, t, a) && Pc(s, t).Looking? && (a.Reject? || a.Publish?)
    ensures ThreadOk(Apply(s, t, a), t)
  {
    assert Apply(s, t, a).log == s.log && Apply(s, t, a).lock == s.lock;
  }

  lemma FinishSelf(s: State, t: nat, a: Action)
    requires ThreadOk(s, t) && Conserved(s.graph) && Enabled(s, t, a) && Pc(s, t).Looking?
    requires !IsLockStep(a) && !IsObtainStep(a) && !IsCreateStep(a) && !a.Return?
    ensures ThreadOk(Apply(s, t, a), t)
  {
    if a.Verify? {
      VerifySelf(s, t, a);
    } else {
      DecideSelf(s, t, a);
    }
  }

  lemma LookingSelf(s: State, t: nat, a: Action)
    requires Inv(s) && Enabled(s, t, a) && Pc(s, t).Looking?
    ensures ThreadOk(Apply(s, t, a), t)
  {
    assert ThreadOk(s, t);
    if IsLockStep(a) {
      LockSelf(s, t, a);
    } else if IsObtainStep(a) {
      ObtainSelf(s, t, a);
    } else if IsCreateStep(a) {
      CreateSelf(s, t, a);
    } else if a.Return? {
      ReturnSelf(s, t, a);
    } else {
      FinishSelf(s, t, a);
    }
  }

  lemma TableSelf(s: State, t: nat, a: Action)
    requires ThreadOk(s, t) && Conserved(s.graph) && Enabled(s, t, a) && IsOther(Pc(s, t)) && IsTableStep(a)
    ensures ThreadOk(Apply(s, t, a), t)
  {
  }

  lemma ClientSelf(s: State, t: nat, a: Action)
    requires ThreadOk(s, t) && Conserved(s.graph) && Enabled(s, t, a) && IsOther(Pc(s, t)) && IsClientStep(a)
    ensures ThreadOk(Apply(s, t, a), t)
  {
  }

  lemma KernelSelf(s: State, t: nat, a: Action)
    requires ThreadOk(s, t) && Conserved(s.graph) && Enabled(s, t, a) && IsOther(Pc(s, t)) && IsKernelStep(a)
    ensures ThreadOk(Apply(s, t, a), t)
  {
  }

  lemma EnterSelf(s: State, t: nat, a: Action)
    requires ThreadOk(s, t) && Conserved(s.graph) && Enabled(s, t, a) && IsOther(Pc(s, t)) && !IsTableStep(a) && !IsClientStep(a) && !IsKernelStep(a)
    ensures ThreadOk(Apply(s, t, a), t)
  {
  }

  lemma OtherSelf(s: State, t: nat, a: Action)
    requires ThreadOk(s, t) && Conserved(s.graph) && Enabled(s, t, a) && IsOther(Pc(s, t))
    ensures ThreadOk(Apply(s, t, a), t)
  {
    if IsTableStep(a) {
      TableSelf(s, t, a);
    } else if IsClientStep(a) {
      ClientSelf(s, t, a);
    } else if IsKernelStep(a) {
      KernelSelf(s, t, a);
    } else {
      EnterSelf(s, t, a);
    }
  }

  lemma ManySelf(s: State, t: nat, a: Action)
    requires ThreadOk(s, t) && Conserved(s.graph) && Enabled(s, t, a) && IsMany(Pc(s, t))
    ensures ThreadOk(Apply(s, t, a), t)
  {
    var s', pc := Apply(s, t, a), Pc(s, t);
    if a.LookupShared? {
      FillEntry(s, s', t, pc.keys, pc.first, pc.i);
    }
  }

  lemma FillEntry(s: State, s': State, t: nat, keys: seq<Key>, first: nat, i: nat)
    requires ManyOk(s, t, keys, first, i) && i < |keys|
    requires s'.graph.ptr == if InTable(s, keys[i]) then s.graph.ptr[EntryVar(t, first, i) := s.graph.ptr[Entry(keys[i])]] else s.graph.ptr
    ensures ManyOk(s', t, keys, first, i + 1)
  {
  }

  lemma ManyKernels(s: State, t: nat, a: Action)
    requires Inv(s) && Enabled(s, t, a) && IsMany(Pc(s, t))
    ensures forall k <- Apply(s, t, a).kernels :: KernelOk(Apply(s, t, a), k)
    ensures forall k: nat :: Field(k) in Apply(s, t, a).graph.ptr ==> k in Apply(s, t, a).kernels
  {
    var s' := Apply(s, t, a);
    assert s'.kernels == s.kernels;
    forall k | k in s'.kernels ensures KernelOk(s', k) {
      assert KernelOk(s, k);
    }
  }

  lemma ManyLock(s: State, t: nat, a: Action)
    requires (s.lock.writer.Some? ==> s.lock.readers == {}) && Enabled(s, t, a) && IsMany(Pc(s, t))
    ensures Apply(s, t, a).lock.writer.Some? ==> Apply(s, t, a).lock.readers == {}
  {
  }

  lemma LookingKeepsKernels(s: State, t: nat, a: Action)
    requires Enabled(s, t, a) && Pc(s, t).Looking?
    ensures Apply(s, t, a).kernels == s.kernels
  {
  }

  lemma SearchKeepsKernel(s: State, t: nat, a: Action)
    requires Enabled(s, t, a) && Pc(s, t).Looking? && (IsLockStep(a) || IsObtainStep(a))
    ensures KernelOf(Pc(Apply(s, t, a), t)) == KernelOf(Pc(s, t))
  {
  }

  lemma CreateKeepsKernel(s: State, t: nat, a: Action)
    requires Enabled(s, t, a) && Pc(s, t).Looking? && IsCreateStep(a)
    ensures KernelOf(Pc(Apply(s, t, a), t)) == KernelOf(Pc(s, t))
  {
  }

  lemma FinishKeepsKernel(s: State, t: nat, a: Action)
    requires Enabled(s, t, a) && Pc(s, t).Looking? && !IsLockStep(a) && !IsObtainStep(a) && !IsCreateStep(a)
    ensures KernelOf(Pc(Apply(s, t, a), t)) == KernelOf(Pc(s, t))
  {
  }

  lemma LookingKeepsKernel(s: State, t: nat, a: Action)
    requires Enabled(s, t, a) && Pc(s, t).Looking?
    ensures KernelOf(Pc(Apply(s, t, a), t)) == KernelOf(Pc(s, t))
  {
    if IsLockStep(a) || IsObtainStep(a) {
      SearchKeepsKernel(s, t, a);
    } else if IsCreateStep(a) {
      CreateKeepsKernel(s, t, a);
    } else {
      FinishKeepsKernel(s, t, a);
    }
  }

  lemma LookingFields(s: State, t: nat, a: Action)
    requires ThreadOk(s, t) && Enabled(s, t, a) && Pc(s, t).Looking?
    ensures forall k: nat :: Field(k) in Apply(s, t, a).graph.ptr && Field(k) !in s.graph.ptr ==> KernelOf(Pc(s, t)) == Some(k)
  {
  }

  lemma LookingKernels(s: State, t: nat, a: Action)
    requires Inv(s) && Enabled(s, t, a) && Pc(s, t).Looking?
    ensures forall k <- Apply(s, t, a).kernels :: KernelOk(Apply(s, t, a), k)
    ensures forall k: nat :: Field(k) in Apply(s, t, a).graph.ptr ==> k in Apply(s, t, a).kernels
  {
    assert ThreadOk(s, t);
    LookingKeepsKernels(s, t, a);
    LookingKeepsKernel(s, t, a);
    LookingFields(s, t, a);
    var s' := Apply(s, t, a);
    forall k | k in s'.kernels ensures KernelOk(s', k) {
      assert KernelOk(s, k);
    }
  }

  lemma OtherKeepsKernels(s: State, t: nat, a: Action)
    requires Enabled(s, t, a) && IsOther(Pc(s, t)) && !IsKernelStep(a)
    ensures Apply(s, t, a).kernels == s.kernels
    ensures KernelOf(Pc(Apply(s, t, a), t)) == KernelOf(Pc(s, t)) == None
    ensures forall k: nat :: Field(k) in Apply(s, t, a).graph.ptr ==> Field(k) in s.graph.ptr
  {
  }

  lemma KernelKernels(s: State, t: nat, a: Action)
    requires ThreadOk(s, t) && Enabled(s, t, a) && IsOther(Pc(s, t)) && IsKernelStep(a)
    requires forall k <- s.kernels :: KernelOk(s, k)
    requires forall k: nat :: Field(k) in s.graph.ptr ==> k in s.kernels
    requires Conserved(s.graph)
    ensures forall k <- Apply(s, t, a).kernels :: KernelOk(Apply(s, t, a), k)
    ensures forall k: nat :: Field(k) in Apply(s, t, a).graph.ptr ==> k in Apply(s, t, a).kernels
  {
  }

  lemma OtherKernels(s: State, t: nat, a: Action)
    requires Inv(s) && Enabled(s, t, a) && IsOther(Pc(s, t))
    ensures forall k <- Apply(s, t, a).kernels :: KernelOk(Apply(s, t, a), k)
    ensures forall k: nat :: Field(k) in Apply(s, t, a).graph.ptr ==> k in Apply(s, t, a).kernels
  {
    assert ThreadOk(s, t);
    if IsKernelStep(a) {
      KernelKernels(s, t, a);
    } else {
      OtherKeepsKernels(s, t, a);
      var s' := Apply(s, t, a);
      forall k | k in s'.kernels ensures KernelOk(s', k) {
        assert KernelOk(s, k);
      }
    }
  }

  lemma StepSelf(s: State, t: nat, a: Action)
    requires Inv(s) && Enabled(s, t, a)
    ensures ThreadOk(Apply(s, t, a), t)
  {
    assert ThreadOk(s, t);
    if Pc(s, t).Looking? {
      LookingSelf(s, t, a);
    } else if IsMany(Pc(s, t)) {
      ManySelf(s, t, a);
    } else {
      OtherSelf(s, t, a);
    }
  }

  lemma StepUndisturbed(s: State, t: nat, a: Action, u: nat)
    requires Inv(s) && Enabled(s, t, a) && u != t
    ensures Undisturbed(s, Apply(s, t, a), u)
  {
    assert ThreadOk(s, t) && ThreadOk(s, u);
    if Pc(s, t).Looking? {
      LookingUndisturbed(s, t, a, u);
    } else if IsMany(Pc(s, t)) {
      ManyUndisturbed(s, t, a, u);
    } else {
      OtherUndisturbed(s, t, a, u);
    }
  }

  /** The invariant is kept by every step of every thread. */
  lemma StepInv(s: State, t: nat, a: Action)
    requires Inv(s) && Enabled(s, t, a)
    ensures Inv(Apply(s, t, a))
  {
    var s' := Apply(s, t, a);
    forall u: nat ensures ThreadOk(s', u) {
      if u == t {
        StepSelf(s, t, a);
      } else {
        StepUndisturbed(s, t, a, u);
        OtherThread(s, s', u);
      }
    }
    if Pc(s, t).Looking? {
      LookingConserves(s, t, a);
      LookingTable(s, t, a);
      LookingKernels(s, t, a);
      LookingLock(s, t, a);
    } else if IsMany(Pc(s, t)) {
      ManyConserves(s, t, a);
      ManyTable(s, t, a);
      ManyKernels(s, t, a);
      ManyLock(s, t, a);
    } else {
      OtherConserves(s, t, a);
      OtherTable(s, t, a);
      OtherKernels(s, t, a);
      OtherLock(s, t, a);
    }
  }

  lemma LookingLock(s: State, t: nat, a: Action)
    requires ThreadOk(s, t) && (s.lock.writer.Some? ==> s.lock.readers == {}) && Enabled(s, t, a) && Pc(s, t).Looking?
    ensures Apply(s, t, a).lock.writer.Some? ==> Apply(s, t, a).lock.readers == {}
  {
  }

  lemma OtherLock(s: State, t: nat, a: Action)
    requires (s.lock.writer.Some? ==> s.lock.readers == {}) && Enabled(s, t, a) && IsOther(Pc(s, t))
    ensures Apply(s, t, a).lock.writer.Some? ==> Apply(s, t, a).lock.readers == {}
  {
  }

  // ---- Runs: any interleaving of any threads ----

  ghost predicate IsRun(states: seq<State>, moves: seq<(nat, Action)>) {
    && |states| == |moves| + 1
    && states[0] == INITIAL
    && forall i {:trigger moves[i]} :: 0 <= i < |moves| ==>
      Enabled(states[i], moves[i].0, moves[i].1) && states[i + 1] == Apply(states[i], moves[i].0, moves[i].1)
  }

  lemma {:induction false} RunInv(states: seq<State>, moves: seq<(nat, Action)>, i: nat)
    requires IsRun(states, moves) && i < |states|
    ensures Inv(states[i])
  {
    if i == 0 {
      InitialInv();
    } else {
      RunInv(states, moves, i - 1);
      assert Enabled(states[i - 1], moves[i - 1].0, moves[i - 1].1);
      StepInv(states[i - 1], moves[i - 1].0, moves[i - 1].1);
    }
  }

  /** No pointer ever dangles, no CHECK fails, and no LookupOrCreate ever "failed unexpectedly". */
  lemma NothingUnexpected(states: seq<State>, moves: seq<(nat, Action)>, i: nat, t: nat)
    requires IsRun(states, moves) && i < |states|
    ensures states[i].fault == NoFault
    ensures !(Pc(states[i], t).Looking? && Pc(states[i], t).stage == Unexpected)
  {
    RunInv(states, moves, i);
    assert ThreadOk(states[i], t);
  }

  /** In every state of every run, the references are conserved. */
  lemma ReferencesConserved(states: seq<State>, moves: seq<(nat, Action)>, i: nat, r: nat)
    requires IsRun(states, moves) && i < |states|
    ensures
      var g := states[i].graph;
      if r in g.count then
        g.count[r] == |Entries(g.ptr, r)| + |Callers(g.ptr, r)| + |Kernels(g.ptr, r)| >= 1
      else
        Holders(g.ptr, r) == {}
  {
    RunInv(states, moves, i);
    if r in states[i].graph.count {
      CountIsShared(states[i].graph, r);
    }
  }

  /** A creator runs only while its key is absent, and while no other thread is in a critical section. */
  lemma CreatorRunsAlone(states: seq<State>, moves: seq<(nat, Action)>, i: nat, u: nat)
    requires IsRun(states, moves) && i < |moves| && moves[i].1.RunCreator?
    ensures !InTable(states[i], Pc(states[i], moves[i].0).call.key)
    ensures u != moves[i].0 ==> !HoldsShared(Pc(states[i], u)) && !HoldsExclusive(Pc(states[i], u))
  {
    RunInv(states, moves, i);
    assert ThreadOk(states[i], moves[i].0);
    assert ThreadOk(states[i], u);
  }

  /** Between two creations under one key, in any run, there is a deletion. */
  lemma OneCreationBetweenDeletions(states: seq<State>, moves: seq<(nat, Action)>, n: nat, i: nat, j: nat, key: Key)
    requires IsRun(states, moves) && n < |states| && i < j < |states[n].log|
    requires states[n].log[i].Created? && states[n].log[j].Created? && states[n].log[i].key == states[n].log[j].key == key
    ensures exists m :: i < m < j && states[n].log[m].Erased? && states[n].log[m].key == key
  {
    RunInv(states, moves, n);
    AtMostOneCreation(states[n].log, i, j, key);
  }

  /** Two calls that succeed, in any run, with no deletion during either or between them, return the same object. */
  lemma SameResource(states: seq<State>, moves: seq<(nat, Action)>, n: nat, i: nat, j: nat, key: Key)
    requires IsRun(states, moves) && n < |states|
    requires
      var log := states[n].log;
      && i <= j < |log| && log[i].Returned? && log[j].Returned? && log[i].key == log[j].key == key
      && NotErased(log, if log[i].since <= log[j].since then log[i].since else log[j].since, j, key)
    ensures states[n].log[i].res == states[n].log[j].res
  {
    RunInv(states, moves, n);
    SameObjectReturned(states[n].log, i, j, key);
  }

  // ---- LookupMany ----

  ghost predicate SameEntry(g: Graph, g': Graph, key: Key) {
    && (Entry(key) in g'.ptr <==> Entry(key) in g.ptr)
    && (Entry(key) in g.ptr && Entry(key) in g'.ptr ==> g'.ptr[Entry(key)] == g.ptr[Entry(key)])
  }

  lemma ReaderKeepsTable(s: State, t: nat, a: Action, key: Key)
    requires Enabled(s, t, a) && Pc(s, t).Looking? && HoldsShared(Pc(s, t))
    ensures SameEntry(s.graph, Apply(s, t, a).graph, key)
  {
  }

  lemma ManyKeepsTable(s: State, t: nat, a: Action, key: Key)
    requires Enabled(s, t, a) && IsMany(Pc(s, t))
    ensures SameEntry(s.graph, Apply(s, t, a).graph, key)
  {
  }

  lemma TableFixedStep(s: State, u: nat, a: Action, t: nat, key: Key)
    requires Inv(s) && Enabled(s, u, a) && t in s.lock.readers
    ensures SameEntry(s.graph, Apply(s, u, a).graph, key)
  {
    assert ThreadOk(s, t);
    if u != t {
      StepUndisturbed(s, u, a, t);
      TableSeen(s, Apply(s, u, a), t, key);
    } else if Pc(s, t).Looking? {
      ReaderKeepsTable(s, t, a, key);
    } else {
      ManyKeepsTable(s, t, a, key);
    }
  }

  lemma TableSeen(s: State, s': State, t: nat, key: Key)
    requires Undisturbed(s, s', t) && t in s.lock.readers
    ensures SameEntry(s.graph, s'.graph, key)
  {
    assert InTable(s', key) <==> InTable(s, key);
  }

  ghost predicate HoldsThroughout(states: seq<State>, m: nat, j: nat, t: nat)
    requires m <= j < |states|
  {
    forall n {:trigger states[n]} :: m <= n <= j ==> t in states[n].lock.readers
  }

  /** While a thread holds the shared lock, the table stays as it is. */
  lemma {:induction false} SharedTableFixed(states: seq<State>, moves: seq<(nat, Action)>, m: nat, j: nat, t: nat, key: Key)
    requires IsRun(states, moves) && m <= j < |states| && HoldsThroughout(states, m, j, t)
    ensures InTable(states[j], key) <==> InTable(states[m], key)
    ensures InTable(states[j], key) ==> Entry(key) in states[m].graph.ptr && states[j].graph.ptr[Entry(key)] == states[m].graph.ptr[Entry(key)]
  {
    if m < j {
      SharedTableFixed(states, moves, m, j - 1, t, key);
      RunInv(states, moves, j - 1);
      assert Enabled(states[j - 1], moves[j - 1].0, moves[j - 1].1);
      TableFixedStep(states[j - 1], moves[j - 1].0, moves[j - 1].1, t, key);
    }
  }

  /**
   * In every run, a LookupMany that is about to let go of the shared lock has filled entry n exactly if
   * key n was in the table at any, that is every, moment since it took the lock, and then with a
   * reference to the resource that was there.
   */
  lemma ManyOwnsWhatWasPresent(states: seq<State>, moves: seq<(nat, Action)>, m: nat, j: nat, t: nat, n: nat)
    requires IsRun(states, moves) && m <= j < |states| && HoldsThroughout(states, m, j, t)
    requires var pc := Pc(states[j], t); pc.InMany? && pc.i == |pc.keys| && n < |pc.keys|
    ensures var pc := Pc(states[j], t);
            var h := EntryVar(t, pc.first, n);
            && (h in states[j].graph.ptr <==> InTable(states[m], pc.keys[n]))
            && (h in states[j].graph.ptr && InTable(states[m], pc.keys[n]) ==>
                 states[j].graph.ptr[h] == states[m].graph.ptr[Entry(pc.keys[n])])
  {
    var pc := Pc(states[j], t);
    RunInv(states, moves, j);
    assert ThreadOk(states[j], t);
    assert EntryOk(states[j], EntryVar(t, pc.first, n), pc.keys[n]);
    SharedTableFixed(states, moves, m, j, t, pc.keys[n]);
  }

  // ---- Progress ----

  /** A step that a thread can take unless it waits for the lock. */
  function NextAction(pc: PC): Action {
    match pc
    case Looking(_, EnterShared) => AcquireShared
    case Looking(_, InShared) => LookupShared
    case Looking(_, LeaveShared(_)) => ReleaseShared
    case Looking(_, EnterExclusive) => AcquireExclusive
    case Looking(_, Recheck) => LookupExclusive
    case Looking(_, Creating) => RunCreator(CreatorFails)
    case Looking(_, CleaningUp) => CleanUp
    case Looking(_, Inserting) => DoCreate
    case Looking(_, Referencing(_)) => TakeRef
    case Looking(_, LeaveExclusive(_)) => ReleaseExclusive
    case Looking(_, Verifying) => Verify(true)
    case Looking(_, Rejecting) => Reject
    case Looking(_, Publishing) => Publish
    case Looking(_, _) => Return
    case EnterMany(_, _) => AcquireShared
    case InMany(keys, _, i) => if i < |keys| then LookupShared else ReleaseShared
    case EnterCreate(_, _) => AcquireExclusive
    case InCreate(_, _) => DoCreate
    case LeaveCreate => ReleaseExclusive
    case EnterDelete(_, _) => AcquireExclusive
    case InDelete(_, _) => DoErase
    case LeaveDelete(_, _) => ReleaseExclusive
    case Dropping(_) => DropErased
    case KernelCheck(_, _) => Check(false, Key("", 0, ""), false)
    case KernelLeave(_, _) => LeaveKernel
    case Idle => MakeKernel(0)
  }

  predicate Waits(s: State, pc: PC) {
    || (((pc.Looking? && pc.stage == EnterShared) || pc.EnterMany?) && s.lock.writer != None)
    || (WantsExclusive(pc) && !LockFree(s))
  }

  lemma CanStep(s: State, t: nat)
    requires ThreadOk(s, t) && !Pc(s, t).Idle? && !Waits(s, Pc(s, t))
    ensures Enabled(s, t, NextAction(Pc(s, t)))
  {
  }

  /** There is no deadlock: while some thread is inside an operation, some thread that is can take a step. */
  lemma NoDeadlock(states: seq<State>, moves: seq<(nat, Action)>, i: nat, t: nat)
    requires IsRun(states, moves) && i < |states| && !Pc(states[i], t).Idle?
    ensures exists u: nat, a: Action :: !Pc(states[i], u).Idle? && Enabled(states[i], u, a)
  {
    RunInv(states, moves, i);
    var u := Unblocked(states[i], t);
    assert ThreadOk(states[i], u);
    CanStep(states[i], u);
  }

  lemma Unblocked(s: State, t: nat) returns (u: nat)
    requires Inv(s) && !Pc(s, t).Idle?
    ensures !Pc(s, u).Idle? && !Waits(s, Pc(s, u))
  {
    u := t;
    if Waits(s, Pc(s, t)) {
      u := if s.lock.writer.Some? then s.lock.writer.value else var r :| r in s.lock.readers; r;
      assert ThreadOk(s, u);
    }
  }

  // ---- What a Compute of a kernel leaves behind ----

  function SlotOf(pc: PC): Option<nat> {
    match pc
    case Looking(call, _) => Some(call.slot)
    case KernelCheck(_, slot) => Some(slot)
    case KernelLeave(_, slot) => Some(slot)
    case _ => None
  }

  /** Apart from `slot`, the variables of thread `t` own the same references in both states. */
  ghost predicate SameLocals(s: State, s': State, t: nat, except: Option<nat>) {
    forall slot: nat :: Some(slot) != except ==>
      && (Local(t, slot) in s'.graph.ptr <==> Local(t, slot) in s.graph.ptr)
      && (Local(t, slot) in s.graph.ptr && Local(t, slot) in s'.graph.ptr ==> s'.graph.ptr[Local(t, slot)] == s.graph.ptr[Local(t, slot)])
  }

  /** Thread `t` is inside `Compute` of kernel `k`, with `slot` for its variable `resource`. */
  ghost predicate InCompute(s: State, t: nat, k: nat, slot: nat) {
    KernelOf(Pc(s, t)) == Some(k) && SlotOf(Pc(s, t)) == Some(slot)
  }

  lemma SameLocalsTransitive(s: State, s1: State, s2: State, t: nat, except: Option<nat>)
    requires SameLocals(s, s1, t, except) && SameLocals(s1, s2, t, except)
    ensures SameLocals(s, s2, t, except)
  {
    forall slot: nat | Some(slot) != except
      ensures Local(t, slot) in s2.graph.ptr <==> Local(t, slot) in s.graph.ptr
      ensures Local(t, slot) in s.graph.ptr ==> s2.graph.ptr[Local(t, slot)] == s.graph.ptr[Local(t, slot)]
    {
      assert Local(t, slot) in s1.graph.ptr <==> Local(t, slot) in s.graph.ptr;
    }
  }

  lemma ObtainLocals(s: State, t: nat, a: Action)
    requires Enabled(s, t, a) && Pc(s, t).Looking? && IsObtainStep(a)
    ensures SameLocals(s, Apply(s, t, a), t, Some(Pc(s, t).call.slot))
  {
  }

  lemma CreateLocals(s: State, t: nat, a: Action)
    requires Enabled(s, t, a) && Pc(s, t).Looking? && IsCreateStep(a)
    ensures SameLocals(s, Apply(s, t, a), t, Some(Pc(s, t).call.slot))
  {
  }

  lemma FinishLocals(s: State, t: nat, a: Action)
    requires Enabled(s, t, a) && Pc(s, t).Looking? && !IsObtainStep(a) && !IsCreateStep(a)
    ensures SameLocals(s, Apply(s, t, a), t, Some(Pc(s, t).call.slot))
  {
  }

  lemma OutsideLocals(s: State, t: nat, a: Action)
    requires Enabled(s, t, a) && (Pc(s, t).KernelCheck? || Pc(s, t).KernelLeave?)
    ensures Apply(s, t, a).graph == s.graph
  {
  }

  lemma ComputeOwnStep(s: State, t: nat, a: Action, k: nat, slot: nat)
    requires Enabled(s, t, a) && InCompute(s, t, k, slot)
    ensures SameLocals(s, Apply(s, t, a), t, Some(slot))
  {
    if !Pc(s, t).Looking? {
      OutsideLocals(s, t, a);
    } else if IsObtainStep(a) {
      ObtainLocals(s, t, a);
    } else if IsCreateStep(a) {
      CreateLocals(s, t, a);
    } else {
      FinishLocals(s, t, a);
    }
  }

  lemma ComputeStep(s: State, u: nat, a: Action, t: nat, k: nat, slot: nat)
    requires Inv(s) && Enabled(s, u, a) && InCompute(s, t, k, slot)
    ensures SameLocals(s, Apply(s, u, a), t, Some(slot))
  {
    if u == t {
      assert ThreadOk(s, t);
      ComputeOwnStep(s, t, a, k, slot);
    } else {
      StepUndisturbed(s, u, a, t);
    }
  }

  lemma ComputeStart(s: State, t: nat, k: nat, slot: nat)
    requires Enabled(s, t, Compute(k, slot))
    ensures Apply(s, t, Compute(k, slot)).graph == s.graph
  {
  }

  lemma ComputeStepInRun(states: seq<State>, moves: seq<(nat, Action)>, m: nat, t: nat, k: nat, slot: nat)
    requires IsRun(states, moves) && m < |moves| && InCompute(states[m], t, k, slot)
    ensures SameLocals(states[m], states[m + 1], t, Some(slot))
  {
    RunInv(states, moves, m);
    ComputeStep(states[m], moves[m].0, moves[m].1, t, k, slot);
  }

  lemma {:induction false} DuringCompute(states: seq<State>, moves: seq<(nat, Action)>, i: nat, j: nat, t: nat, k: nat, slot: nat)
    requires IsRun(states, moves) && i < j < |states|
    requires moves[i] == (t, Compute(k, slot))
    requires forall m {:trigger InCompute(states[m], t, k, slot)} :: i < m <= j ==> InCompute(states[m], t, k, slot)
    ensures SameLocals(states[i], states[j], t, Some(slot))
  {
    if j > i + 1 {
      DuringCompute(states, moves, i, j - 1, t, k, slot);
      assert InCompute(states[j - 1], t, k, slot);
      ComputeStepInRun(states, moves, j - 1, t, k, slot);
      SameLocalsTransitive(states[i], states[j - 1], states[j], t, Some(slot));
    } else {
      assert Enabled(states[i], moves[i].0, moves[i].1);
      ComputeStart(states[i], t, k, slot);
    }
  }

  /**
   * Whatever its creator and its verification did and whatever other threads do meanwhile, a
   * Compute that is about to leave holds no reference of its own: the thread owns what it owned
   * before. The pointer `resource_` of the kernel is a holder of its own; if it is set, it owns one
   * of the references that the resource counts.
   */
  lemma ComputeLeavesNothing(states: seq<State>, moves: seq<(nat, Action)>, i: nat, j: nat, t: nat, k: nat, slot: nat)
    requires IsRun(states, moves) && i < j < |states|
    requires moves[i] == (t, Compute(k, slot)) && Pc(states[j], t).KernelLeave?
    requires forall m {:trigger InCompute(states[m], t, k, slot)} :: i < m <= j ==> InCompute(states[m], t, k, slot)
    ensures SameLocals(states[i], states[j], t, None)
    ensures var g := states[j].graph;
            Field(k) in g.ptr ==>
              var r := g.ptr[Field(k)];
              r in g.count && Field(k) in Kernels(g.ptr, r) && g.count[r] == |Entries(g.ptr, r)| + |Callers(g.ptr, r)| + |Kernels(g.ptr, r)|
  {
    DuringCompute(states, moves, i, j, t, k, slot);
    RunInv(states, moves, j);
    assert ThreadOk(states[j], t) && InCompute(states[j], t, k, slot);
    assert Enabled(states[i], moves[i].0, moves[i].1);
    if Field(k) in states[j].graph.ptr {
      CountIsShared(states[j].graph, states[j].graph.ptr[Field(k)]);
    }
  }
}
