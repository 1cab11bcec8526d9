/**
 * What the calls on a ResourceMgr and the Compute of a kernel promise for their results, in every run:
 * a result is traced back, step by step, to the state in which it was decided.
 */
module ResourceCalls {
  import opened Wrappers
  import opened ReferenceGraph
  import opened ResourceLog
  import opened ResourceProtocol
  import opened ResourceSafety

  // ---- How a thread came to where it is ----

  ghost predicate SameField(s: State, s': State, k: nat) {
    && (Field(k) in s'.graph.ptr <==> Field(k) in s.graph.ptr)
    && (Field(k) in s.graph.ptr && Field(k) in s'.graph.ptr ==> s'.graph.ptr[Field(k)] == s.graph.ptr[Field(k)])
  }

  /** What stays as it is for thread `t` while other threads take steps. */
  ghost predicate Resting(s: State, s': State, t: nat) {
    && Pc(s', t) == Pc(s, t)
    && SameLocals(s, s', t, None)
    && (KernelOf(Pc(s, t)).Some? ==> SameField(s, s', KernelOf(Pc(s, t)).value))
  }

  lemma RestingStep(s: State, u: nat, a: Action, t: nat)
    requires Inv(s) && Enabled(s, u, a) && u != t && !Pc(s, t).Idle?
    ensures Resting(s, Apply(s, u, a), t)
  {
    StepUndisturbed(s, u, a, t);
  }

  lemma RestingTransitive(s: State, s1: State, s2: State, t: nat)
    requires Resting(s, s1, t) && Resting(s1, s2, t)
    ensures Resting(s, s2, t)
  {
    SameLocalsTransitive(s, s1, s2, t, None);
  }

  lemma RunStep(states: seq<State>, moves: seq<(nat, Action)>, i: nat)
    requires IsRun(states, moves) && i < |moves|
    ensures Inv(states[i]) && Enabled(states[i], moves[i].0, moves[i].1)
    ensures states[i + 1] == Apply(states[i], moves[i].0, moves[i].1)
  {
    RunInv(states, moves, i);
    assert Enabled(states[i], moves[i].0, moves[i].1);
  }

  lemma RestsAt(states: seq<State>, moves: seq<(nat, Action)>, j: nat, t: nat)
    requires IsRun(states, moves) && j < |moves| && moves[j].0 != t && !Pc(states[j + 1], t).Idle?
    ensures !Pc(states[j], t).Idle? && Resting(states[j], states[j + 1], t)
  {
    RunStep(states, moves, j);
    StepUndisturbed(states[j], moves[j].0, moves[j].1, t);
    RestingStep(states[j], moves[j].0, moves[j].1, t);
  }

  lemma NobodyAtFirst(states: seq<State>, moves: seq<(nat, Action)>, t: nat)
    requires IsRun(states, moves)
    ensures Pc(states[0], t).Idle?
  {
  }

  ghost predicate StaysAt(states: seq<State>, i: nat, j: nat, t: nat)
    requires i <= j < |states|
  {
    forall n {:trigger states[n]} :: i < n <= j ==> Pc(states[n], t) == Pc(states[j], t)
  }

  lemma {:induction false} LastMove(states: seq<State>, moves: seq<(nat, Action)>, j: nat, t: nat) returns (i: nat)
    requires IsRun(states, moves) && j < |states| && !Pc(states[j], t).Idle?
    ensures i < j && moves[i].0 == t && Resting(states[i + 1], states[j], t) && StaysAt(states, i, j, t)
  {
    NobodyAtFirst(states, moves, t);
    if moves[j - 1].0 == t {
      i := j - 1;
    } else {
      RestsAt(states, moves, j - 1, t);
      i := LastMove(states, moves, j - 1, t);
      RestingTransitive(states[i + 1], states[j - 1], states[j], t);
    }
  }

  /** The last step that a thread took, which brought it to where it is. */
  lemma LastStep(states: seq<State>, moves: seq<(nat, Action)>, j: nat, t: nat) returns (i: nat)
    requires IsRun(states, moves) && j < |states| && !Pc(states[j], t).Idle?
    ensures i < j && moves[i].0 == t && Inv(states[i]) && Enabled(states[i], t, moves[i].1)
    ensures states[i + 1] == Apply(states[i], t, moves[i].1) && Resting(states[i + 1], states[j], t)
    ensures StaysAt(states, i, j, t)
  {
    i := LastMove(states, moves, j, t);
    RunStep(states, moves, i);
  }

  ghost predicate Owns(s: State, h: Holder, r: nat) {
    h in s.graph.ptr && s.graph.ptr[h] == r
  }

  ghost predicate HoldsLock(s: State, t: nat) {
    t in s.lock.readers || s.lock.writer == Some(t)
  }

  // ---- Lookup and LookupOrCreate ----

  /**
   * In every run, a call about to let go of the shared lock has found its key exactly if the key was in
   * the table at any, that is every, moment since it took the lock, and then its variable owns a
   * reference to the resource that was there.
   */
  lemma SharedLookupFindsIff(states: seq<State>, moves: seq<(nat, Action)>, m: nat, j: nat, t: nat)
    requires IsRun(states, moves) && m <= j < |states| && HoldsThroughout(states, m, j, t)
    requires Pc(states[j], t).Looking? && Pc(states[j], t).stage.LeaveShared?
    ensures var call := Pc(states[j], t).call;
            var mine := Local(t, call.slot);
            && (Pc(states[j], t).stage.found <==> InTable(states[m], call.key))
            && (mine in states[j].graph.ptr <==> InTable(states[m], call.key))
            && (InTable(states[m], call.key) ==> Owns(states[j], mine, states[m].graph.ptr[Entry(call.key)]))
  {
    RunInv(states, moves, j);
    assert ThreadOk(states[j], t);
    SharedTableFixed(states, moves, m, j, t, Pc(states[j], t).call.key);
  }

  // What one step makes of the place where a call is.

  lemma LockStages(s: State, t: nat, a: Action)
    requires Enabled(s, t, a) && Pc(s, t).Looking? && IsLockStep(a)
    ensures var call, stage := Pc(s, t).call, Pc(s, t).stage;
            && Apply(s, t, a).graph == s.graph
            && Pc(Apply(s, t, a), t) == Looking(call,
                 if a.AcquireShared? then InShared
                 else if a.AcquireExclusive? then Recheck
                 else if a.ReleaseExclusive? then Finished(stage.ok)
                 else if stage.found then Finished(true)
                 else if call.create then EnterExclusive
                 else Finished(false))
  {
  }

  lemma ObtainStages(s: State, t: nat, a: Action)
    requires Enabled(s, t, a) && Pc(s, t).Looking? && IsObtainStep(a)
    ensures var call := Pc(s, t).call;
            Pc(Apply(s, t, a), t) == Looking(call,
              if a.LookupShared? then LeaveShared(InTable(s, call.key))
              else if a.TakeRef? || InTable(s, call.key) then LeaveExclusive(true)
              else Creating)
  {
  }

  lemma CreateStages(s: State, t: nat, a: Action)
    requires ThreadOk(s, t) && Enabled(s, t, a) && Pc(s, t).Looking? && IsCreateStep(a)
    ensures var pc := Pc(Apply(s, t, a), t);
            && pc.Looking? && pc.call == Pc(s, t).call
            && (a.RunCreator? ==> pc.stage == match a.outcome
                  case CreatorOk => Inserting
                  case CreatorFails => LeaveExclusive(false)
                  case CreatorFailsWithObject => CleaningUp)
            && (a.CleanUp? ==> pc.stage == LeaveExclusive(false))
            && (a.DoCreate? ==> pc.stage.Referencing?)
  {
  }

  lemma FinishStages(s: State, t: nat, a: Action)
    requires ThreadOk(s, t) && Enabled(s, t, a) && Pc(s, t).Looking? && !IsLockStep(a) && !IsObtainStep(a) && !IsCreateStep(a)
    ensures var pc := Pc(Apply(s, t, a), t);
            pc.Looking? ==> (a.Return? && pc.stage == Verifying) || (a.Verify? && pc.stage == if a.ok then Publishing else Rejecting)
  {
  }

  /** Whoever is not in a Lookup yet can only begin one. */
  lemma OthersBegin(s: State, t: nat, a: Action)
    requires Enabled(s, t, a) && !Pc(s, t).Looking?
    ensures Pc(Apply(s, t, a), t).Looking? ==> Pc(Apply(s, t, a), t).stage == EnterShared
  {
  }

  /** The only ways into the places that matter for a result. */
  lemma Stages(s: State, t: nat, a: Action)
    requires ThreadOk(s, t) && Enabled(s, t, a)
    ensures var pc, pc' := Pc(s, t), Pc(Apply(s, t, a), t);
            pc'.Looking? && pc'.stage != EnterShared ==>
              && pc.Looking? && (pc'.stage.Finished? || OnlyToCreate(pc'.stage) ==> pc'.call == pc.call)
              && (pc'.stage.Finished? ==>
                   && Apply(s, t, a).graph == s.graph
                   && ((a.ReleaseShared? && pc.stage == LeaveShared(pc'.stage.ok) && (pc'.stage.ok || !pc.call.create))
                       || (a.ReleaseExclusive? && pc.stage == LeaveExclusive(pc'.stage.ok))))
              && (pc'.stage == LeaveExclusive(false) ==>
                   (a == RunCreator(CreatorFails) && pc.stage == Creating) || (a == CleanUp && pc.stage == CleaningUp))
              && (pc'.stage == CleaningUp ==> a == RunCreator(CreatorFailsWithObject) && pc.stage == Creating)
              && (pc'.stage == Inserting ==>
                   a == RunCreator(CreatorOk) && pc.stage == Creating && Owns(Apply(s, t, a), Local(t, pc.call.slot), s.graph.next))
              && (pc'.stage == Publishing ==> a == Verify(true))
  {
    if !Pc(s, t).Looking? {
      OthersBegin(s, t, a);
    } else if IsLockStep(a) {
      LockStages(s, t, a);
    } else if IsObtainStep(a) {
      ObtainStages(s, t, a);
    } else if IsCreateStep(a) {
      CreateStages(s, t, a);
    } else {
      FinishStages(s, t, a);
    }
  }

  /** The step of a finished call at which its result was settled, under a lock. */
  lemma Settled(states: seq<State>, moves: seq<(nat, Action)>, j: nat, t: nat) returns (m: nat)
    requires IsRun(states, moves) && j < |states| && Pc(states[j], t).Looking? && Pc(states[j], t).stage.Finished?
    ensures m < j && Inv(states[m]) && HoldsLock(states[m], t) && Pc(states[m], t).Looking?
    ensures var call, ok := Pc(states[j], t).call, Pc(states[j], t).stage.ok;
            && Pc(states[m], t).call == call
            && (Pc(states[m], t).stage == LeaveExclusive(ok) || (Pc(states[m], t).stage == LeaveShared(ok) && (ok || !call.create)))
            && EntryOk(states[m], Local(t, call.slot), call.key)
            && SameLocals(states[m], states[j], t, None)
  {
    m := LastStep(states, moves, j, t);
    assert ThreadOk(states[m], t);
    Stages(states[m], t, moves[m].1);
    assert ThreadOk(states[m], t);
    assert SameLocals(states[m], states[m + 1], t, None);
    SameLocalsTransitive(states[m], states[m + 1], states[j], t, None);
  }

  /**
   * In every run, a call succeeds only if its key is in the table at some moment at which the thread
   * holds the lock, and its variable then owns a reference to that resource.
   */
  lemma SuccessMeansPresent(states: seq<State>, moves: seq<(nat, Action)>, j: nat, t: nat) returns (m: nat)
    requires IsRun(states, moves) && j < |states| && Pc(states[j], t).Looking? && Pc(states[j], t).stage == Finished(true)
    ensures var call := Pc(states[j], t).call;
            && m < j && HoldsLock(states[m], t) && InTable(states[m], call.key)
            && Owns(states[j], Local(t, call.slot), states[m].graph.ptr[Entry(call.key)])
  {
    m := Settled(states, moves, j, t);
    assert ThreadOk(states[m], t);
  }

  /** In every run, a plain Lookup fails only if its key is absent at some moment at which it holds the shared lock. */
  lemma FailedLookupMeansAbsent(states: seq<State>, moves: seq<(nat, Action)>, j: nat, t: nat) returns (m: nat)
    requires IsRun(states, moves) && j < |states| && Pc(states[j], t).Looking? && Pc(states[j], t).stage == Finished(false)
    requires !Pc(states[j], t).call.create
    ensures m < j && t in states[m].lock.readers && !InTable(states[m], Pc(states[j], t).call.key)
    ensures Local(t, Pc(states[j], t).call.slot) !in states[j].graph.ptr
  {
    m := Settled(states, moves, j, t);
    assert ThreadOk(states[m], t);
    RunInv(states, moves, j);
    assert ThreadOk(states[j], t);
  }

  /** A plain Lookup never enters the part that creates. */
  lemma LookupNeverCreates(states: seq<State>, moves: seq<(nat, Action)>, j: nat, t: nat)
    requires IsRun(states, moves) && j < |states| && Pc(states[j], t).Looking? && !Pc(states[j], t).call.create
    ensures !OnlyToCreate(Pc(states[j], t).stage) && !HoldsExclusive(Pc(states[j], t))
  {
    RunInv(states, moves, j);
    assert ThreadOk(states[j], t);
  }

  /** The step at which thread `t` ran the creator of the call. */
  ghost predicate RanCreator(states: seq<State>, moves: seq<(nat, Action)>, m: nat, t: nat, call: Call, outcome: Outcome)
    requires m < |states| && m < |moves|
  {
    && moves[m] == (t, RunCreator(outcome)) && Pc(states[m], t) == Looking(call, Creating)
    && !InTable(states[m], call.key) && states[m].lock.writer == Some(t)
  }

  lemma CreatorStep(states: seq<State>, moves: seq<(nat, Action)>, m: nat, t: nat, call: Call)
    requires IsRun(states, moves) && m < |moves| && moves[m].0 == t && moves[m].1.RunCreator?
    requires Pc(states[m], t) == Looking(call, Creating)
    ensures RanCreator(states, moves, m, t, call, moves[m].1.outcome)
  {
    RunInv(states, moves, m);
    assert ThreadOk(states[m], t);
  }

  /** How a call came to give up. */
  lemma GaveUp(states: seq<State>, moves: seq<(nat, Action)>, i: nat, t: nat) returns (m: nat)
    requires IsRun(states, moves) && i < |states| && Pc(states[i], t).Looking? && Pc(states[i], t).stage == LeaveExclusive(false)
    ensures m < i && moves[m].0 == t && moves[m].1.RunCreator? && moves[m].1.outcome != CreatorOk
    ensures Pc(states[m], t) == Looking(Pc(states[i], t).call, Creating)
  {
    m := LastStep(states, moves, i, t);
    assert ThreadOk(states[m], t);
    Stages(states[m], t, moves[m].1);
    if moves[m].1.CleanUp? {
      m := LastStep(states, moves, m, t);
      assert ThreadOk(states[m], t);
      Stages(states[m], t, moves[m].1);
    }
  }

  /** In every run, a LookupOrCreate fails only if it ran its creator, with the key absent, and the creator failed. */
  lemma FailureMeansCreatorFailed(states: seq<State>, moves: seq<(nat, Action)>, j: nat, t: nat) returns (m: nat, outcome: Outcome)
    requires IsRun(states, moves) && j < |states| && Pc(states[j], t).Looking? && Pc(states[j], t).stage == Finished(false)
    requires Pc(states[j], t).call.create
    ensures m < j && outcome != CreatorOk && RanCreator(states, moves, m, t, Pc(states[j], t).call, outcome)
    ensures Local(t, Pc(states[j], t).call.slot) !in states[j].graph.ptr
  {
    RunInv(states, moves, j);
    assert ThreadOk(states[j], t);
    var i := Settled(states, moves, j, t);
    m := GaveUp(states, moves, i, t);
    outcome := moves[m].1.outcome;
    CreatorStep(states, moves, m, t, Pc(states[j], t).call);
  }

  /** In every run, what LookupOrCreate inserts is the new object of its creator, which succeeded. */
  lemma InsertsWhatWasCreated(states: seq<State>, moves: seq<(nat, Action)>, i: nat, t: nat) returns (m: nat)
    requires IsRun(states, moves) && i < |moves| && moves[i] == (t, DoCreate) && Pc(states[i], t).Looking?
    ensures var call := Pc(states[i], t).call;
            && m < i && RanCreator(states, moves, m, t, call, CreatorOk)
            && !InTable(states[i], call.key) && Owns(states[i + 1], Entry(call.key), states[m].graph.next)
  {
    RunInv(states, moves, i);
    assert Enabled(states[i], t, moves[i].1);
    assert ThreadOk(states[i], t);
    m := LastStep(states, moves, i, t);
    assert ThreadOk(states[m], t);
    Stages(states[m], t, moves[m].1);
    assert ThreadOk(states[m], t);
  }

  /** A creator that fails leaves the table as it was. */
  lemma CreatorKeepsTable(s: State, t: nat, a: Action, key: Key)
    requires Inv(s) && Enabled(s, t, a) && (a.RunCreator? || a.CleanUp?)
    ensures SameEntry(s.graph, Apply(s, t, a).graph, key)
  {
  }

  // ---- Create and Delete ----

  /** In every run, Create leaves its key in the table: with the caller's resource and reference if the key was absent. */
  lemma CreateInserts(states: seq<State>, moves: seq<(nat, Action)>, i: nat, t: nat)
    requires IsRun(states, moves) && i < |moves| && moves[i] == (t, DoCreate) && Pc(states[i], t).InCreate?
    ensures var s, s', key, mine := states[i], states[i + 1], Pc(states[i], t).key, Local(t, Pc(states[i], t).slot);
            if InTable(s, key) then s'.graph == s.graph
            else mine in s.graph.ptr && Owns(s', Entry(key), s.graph.ptr[mine]) && mine !in s'.graph.ptr
  {
    RunInv(states, moves, i);
    assert Enabled(states[i], t, moves[i].1);
    assert ThreadOk(states[i], t);
  }

  lemma LookingLeavesNothing(s: State, t: nat, a: Action)
    requires ThreadOk(s, t) && Enabled(s, t, a) && Pc(s, t).Looking?
    ensures !Pc(Apply(s, t, a), t).LeaveCreate? && !Pc(Apply(s, t, a), t).LeaveDelete?
  {
    if IsLockStep(a) {
      LockStages(s, t, a);
    } else if IsObtainStep(a) {
      ObtainStages(s, t, a);
    } else if IsCreateStep(a) {
      CreateStages(s, t, a);
    } else {
      FinishPlaces(s, t, a);
    }
  }

  lemma FinishPlaces(s: State, t: nat, a: Action)
    requires ThreadOk(s, t) && Enabled(s, t, a) && Pc(s, t).Looking? && !IsLockStep(a) && !IsObtainStep(a) && !IsCreateStep(a)
    ensures Pc(Apply(s, t, a), t).Looking? || Pc(Apply(s, t, a), t).Idle? || Pc(Apply(s, t, a), t).KernelLeave?
  {
  }

  lemma IntoLeaving(s: State, t: nat, a: Action)
    requires ThreadOk(s, t) && Enabled(s, t, a) && (Pc(Apply(s, t, a), t).LeaveCreate? || Pc(Apply(s, t, a), t).LeaveDelete?)
    ensures Pc(Apply(s, t, a), t).LeaveCreate? ==> a == DoCreate && Pc(s, t).InCreate?
    ensures Pc(Apply(s, t, a), t).LeaveDelete? ==> a == DoErase && Pc(s, t).InDelete?
  {
    if Pc(s, t).Looking? {
      LookingLeavesNothing(s, t, a);
    } else if !IsMany(Pc(s, t)) {
      OthersLeaving(s, t, a);
    }
  }

  lemma OthersLeaving(s: State, t: nat, a: Action)
    requires ThreadOk(s, t) && Enabled(s, t, a) && IsOther(Pc(s, t))
    ensures Pc(Apply(s, t, a), t).LeaveCreate? ==> a == DoCreate && Pc(s, t).InCreate?
    ensures Pc(Apply(s, t, a), t).LeaveDelete? ==> a == DoErase && Pc(s, t).InDelete?
  {
  }

  /** In every run, a Create about to return has had the exclusive lock and inserted. */
  lemma CreateWasDone(states: seq<State>, moves: seq<(nat, Action)>, j: nat, t: nat) returns (i: nat)
    requires IsRun(states, moves) && j < |states| && Pc(states[j], t).LeaveCreate?
    ensures i < j && moves[i] == (t, DoCreate) && Pc(states[i], t).InCreate? && states[i].lock.writer == Some(t)
    ensures InTable(states[i + 1], Pc(states[i], t).key)
  {
    i := LastStep(states, moves, j, t);
    assert ThreadOk(states[i], t);
    IntoLeaving(states[i], t, moves[i].1);
    assert ThreadOk(states[i], t);
    CreateInserts(states, moves, i, t);
  }

  /** In every run, a Delete about to return has erased its key, and holds the table's reference exactly if the key was there. */
  lemma DeleteWasDone(states: seq<State>, moves: seq<(nat, Action)>, j: nat, t: nat) returns (i: nat)
    requires IsRun(states, moves) && j < |states| && Pc(states[j], t).LeaveDelete?
    ensures i < j && moves[i] == (t, DoErase) && Pc(states[i], t).InDelete? && states[i].lock.writer == Some(t)
    ensures !InTable(states[i + 1], Pc(states[i], t).key)
    ensures Pc(states[j], t).erased <==> InTable(states[i], Pc(states[i], t).key)
    ensures Pc(states[j], t).erased ==> Owns(states[j], Local(t, Pc(states[j], t).slot), states[i].graph.ptr[Entry(Pc(states[i], t).key)])
  {
    i := LastStep(states, moves, j, t);
    assert ThreadOk(states[i], t);
    IntoLeaving(states[i], t, moves[i].1);
    assert ThreadOk(states[i], t);
  }

  // ---- Compute of a kernel ----

  /** In every run, publishing sets `resource_` to the verified resource, with the reference of the local variable. */
  lemma PublishSets(states: seq<State>, moves: seq<(nat, Action)>, i: nat, t: nat)
    requires IsRun(states, moves) && i < |moves| && moves[i] == (t, Publish)
    ensures Pc(states[i], t).Looking? && Pc(states[i], t).call.caller.Kernel?
    ensures var mine, field := Local(t, Pc(states[i], t).call.slot), Field(Pc(states[i], t).call.caller.kernel);
            && mine in states[i].graph.ptr && Owns(states[i + 1], field, states[i].graph.ptr[mine])
            && mine !in states[i + 1].graph.ptr
  {
    RunInv(states, moves, i);
    assert Enabled(states[i], t, moves[i].1);
    assert ThreadOk(states[i], t);
  }

  /** Where a Compute can be once the verification of resource `r` has succeeded. */
  ghost predicate Accepted(s: State, t: nat, k: nat, slot: nat, r: nat) {
    var pc := Pc(s, t);
    || (pc.Looking? && pc.stage == Publishing && pc.call.caller == Kernel(k) && Owns(s, Local(t, slot), r))
    || (pc == KernelLeave(k, slot) && Owns(s, Field(k), r))
  }

  lemma VerifyAccepts(s: State, t: nat, k: nat, slot: nat)
    requires Inv(s) && Enabled(s, t, Verify(true)) && InCompute(s, t, k, slot)
    ensures Local(t, slot) in s.graph.ptr && Accepted(Apply(s, t, Verify(true)), t, k, slot, s.graph.ptr[Local(t, slot)])
  {
    assert ThreadOk(s, t);
  }

  lemma PublishAccepts(s: State, t: nat, k: nat, slot: nat, r: nat)
    requires Accepted(s, t, k, slot, r) && Enabled(s, t, Publish) && InCompute(s, t, k, slot)
    ensures Accepted(Apply(s, t, Publish), t, k, slot, r)
  {
  }

  lemma AcceptedOwnStep(s: State, t: nat, a: Action, k: nat, slot: nat, r: nat)
    requires Inv(s) && Enabled(s, t, a) && Accepted(s, t, k, slot, r)
    requires InCompute(s, t, k, slot) && InCompute(Apply(s, t, a), t, k, slot)
    ensures Accepted(Apply(s, t, a), t, k, slot, r)
  {
    assert ThreadOk(s, t);
    if Pc(s, t).Looking? {
      assert a == Publish;
      PublishAccepts(s, t, k, slot, r);
    }
  }

  lemma AcceptedStep(s: State, u: nat, a: Action, t: nat, k: nat, slot: nat, r: nat)
    requires Inv(s) && Enabled(s, u, a) && Accepted(s, t, k, slot, r)
    requires InCompute(s, t, k, slot) && InCompute(Apply(s, u, a), t, k, slot)
    ensures Accepted(Apply(s, u, a), t, k, slot, r)
  {
    if u == t {
      AcceptedOwnStep(s, t, a, k, slot, r);
    } else {
      RestingStep(s, u, a, t);
    }
  }

  /** The steps from i + 1 to j all belong to one Compute of kernel `k`. */
  ghost predicate OneCompute(states: seq<State>, moves: seq<(nat, Action)>, i: nat, j: nat, t: nat, k: nat, slot: nat)
    requires i < j < |states| && i < |moves|
  {
    && moves[i] == (t, Compute(k, slot))
    && forall m {:trigger InCompute(states[m], t, k, slot)} :: i < m <= j ==> InCompute(states[m], t, k, slot)
  }

  lemma ComputeStays(states: seq<State>, moves: seq<(nat, Action)>, i: nat, j: nat, t: nat, k: nat, slot: nat, n: nat)
    requires i < n <= j < |states| && i < |moves| && OneCompute(states, moves, i, j, t, k, slot)
    ensures InCompute(states[n], t, k, slot) && OneCompute(states, moves, i, n, t, k, slot)
  {
  }

  lemma AcceptedNext(states: seq<State>, moves: seq<(nat, Action)>, n: nat, t: nat, k: nat, slot: nat, r: nat)
    requires IsRun(states, moves) && n < |moves| && Accepted(states[n], t, k, slot, r)
    requires InCompute(states[n], t, k, slot) && InCompute(states[n + 1], t, k, slot)
    ensures Accepted(states[n + 1], t, k, slot, r)
  {
    RunStep(states, moves, n);
    AcceptedStep(states[n], moves[n].0, moves[n].1, t, k, slot, r);
  }

  lemma AcceptedFirst(states: seq<State>, moves: seq<(nat, Action)>, m: nat, t: nat, k: nat, slot: nat)
    requires IsRun(states, moves) && m < |moves| && moves[m] == (t, Verify(true)) && InCompute(states[m], t, k, slot)
    ensures Local(t, slot) in states[m].graph.ptr
    ensures Accepted(states[m + 1], t, k, slot, states[m].graph.ptr[Local(t, slot)])
  {
    RunStep(states, moves, m);
    VerifyAccepts(states[m], t, k, slot);
  }

  lemma {:induction false} AcceptedSince(states: seq<State>, moves: seq<(nat, Action)>, i: nat, m: nat, j: nat, t: nat, k: nat, slot: nat, r: nat)
    requires IsRun(states, moves) && i < m <= j < |states| && OneCompute(states, moves, i, j, t, k, slot)
    requires Accepted(states[m], t, k, slot, r)
    ensures Accepted(states[j], t, k, slot, r)
    decreases j
  {
    if m < j {
      ComputeStays(states, moves, i, j, t, k, slot, j - 1);
      ComputeStays(states, moves, i, j, t, k, slot, j);
      AcceptedSince(states, moves, i, m, j - 1, t, k, slot, r);
      AcceptedNext(states, moves, j - 1, t, k, slot, r);
    }
  }

  lemma AfterVerify(states: seq<State>, moves: seq<(nat, Action)>, i: nat, m: nat, j: nat, t: nat, k: nat, slot: nat)
    requires IsRun(states, moves) && i < m < j < |states| && OneCompute(states, moves, i, j, t, k, slot)
    requires moves[m] == (t, Verify(true))
    ensures Local(t, slot) in states[m].graph.ptr && Accepted(states[j], t, k, slot, states[m].graph.ptr[Local(t, slot)])
  {
    ComputeStays(states, moves, i, j, t, k, slot, m);
    AcceptedFirst(states, moves, m, t, k, slot);
    AcceptedSince(states, moves, i, m + 1, j, t, k, slot, states[m].graph.ptr[Local(t, slot)]);
  }

  lemma OwnSetByPublish(s: State, t: nat, a: Action, k: nat, slot: nat)
    requires ThreadOk(s, t) && Enabled(s, t, a) && InCompute(s, t, k, slot) && a != Publish
    ensures SameField(s, Apply(s, t, a), k)
  {
  }

  lemma SetByPublish(s: State, u: nat, a: Action, t: nat, k: nat, slot: nat)
    requires Inv(s) && Enabled(s, u, a) && InCompute(s, t, k, slot)
    ensures !SameField(s, Apply(s, u, a), k) ==> u == t && a == Publish
  {
    assert ThreadOk(s, t);
    if u != t {
      RestingStep(s, u, a, t);
    } else if a != Publish {
      OwnSetByPublish(s, t, a, k, slot);
    }
  }

  lemma VerifiedBefore(states: seq<State>, moves: seq<(nat, Action)>, n: nat, t: nat) returns (m: nat)
    requires IsRun(states, moves) && n < |states| && Pc(states[n], t).Looking? && Pc(states[n], t).stage == Publishing
    ensures m < n && moves[m] == (t, Verify(true))
    ensures forall x {:trigger states[x]} :: m < x <= n ==> !Pc(states[x], t).Idle?
  {
    m := LastStep(states, moves, n, t);
    assert ThreadOk(states[m], t);
    Stages(states[m], t, moves[m].1);
  }

  lemma IdleAtStart(states: seq<State>, moves: seq<(nat, Action)>, i: nat, t: nat, k: nat, slot: nat)
    requires IsRun(states, moves) && i < |moves| && moves[i] == (t, Compute(k, slot))
    ensures Pc(states[i], t).Idle?
  {
    RunStep(states, moves, i);
  }

  lemma PublishingAt(states: seq<State>, moves: seq<(nat, Action)>, n: nat, t: nat, k: nat, slot: nat)
    requires IsRun(states, moves) && n < |moves|
    requires InCompute(states[n], t, k, slot) && InCompute(states[n + 1], t, k, slot)
    requires !SameField(states[n], states[n + 1], k)
    ensures Pc(states[n], t).Looking? && Pc(states[n], t).stage == Publishing
  {
    RunStep(states, moves, n);
    SetByPublish(states[n], moves[n].0, moves[n].1, t, k, slot);
  }

  /** If `resource_` changes in step n of a Compute, the verification succeeded before. */
  lemma ChangedAt(states: seq<State>, moves: seq<(nat, Action)>, i: nat, n: nat, t: nat, k: nat, slot: nat) returns (m: nat)
    requires IsRun(states, moves) && i < n < |moves| && moves[i] == (t, Compute(k, slot))
    requires InCompute(states[n], t, k, slot) && InCompute(states[n + 1], t, k, slot)
    requires !SameField(states[n], states[n + 1], k)
    ensures i < m < n && moves[m] == (t, Verify(true))
  {
    PublishingAt(states, moves, n, t, k, slot);
    IdleAtStart(states, moves, i, t, k, slot);
    m := VerifiedBefore(states, moves, n, t);
  }

  lemma StartKeepsField(states: seq<State>, moves: seq<(nat, Action)>, i: nat, t: nat, k: nat, slot: nat)
    requires IsRun(states, moves) && i < |moves| && moves[i] == (t, Compute(k, slot))
    ensures SameField(states[i], states[i + 1], k)
  {
    RunStep(states, moves, i);
    ComputeStart(states[i], t, k, slot);
  }

  ghost predicate VerifiedBetween(moves: seq<(nat, Action)>, i: nat, j: nat, t: nat)
    requires j <= |moves|
  {
    exists m :: i < m < j && moves[m] == (t, Verify(true))
  }

  lemma {:induction false} SetOnlyVerified(states: seq<State>, moves: seq<(nat, Action)>, i: nat, j: nat, t: nat, k: nat, slot: nat)
    requires IsRun(states, moves) && i < j < |states| && OneCompute(states, moves, i, j, t, k, slot)
    ensures SameField(states[i], states[j], k) || VerifiedBetween(moves, i, j, t)
    decreases j
  {
    if j == i + 1 {
      StartKeepsField(states, moves, i, t, k, slot);
    } else {
      ComputeStays(states, moves, i, j, t, k, slot, j - 1);
      ComputeStays(states, moves, i, j, t, k, slot, j);
      SetOnlyVerified(states, moves, i, j - 1, t, k, slot);
      if !SameField(states[j - 1], states[j], k) {
        var m := ChangedAt(states, moves, i, j - 1, t, k, slot);
      }
    }
  }

  /**
   * In every run, at the end of a Compute `resource_` is set exactly if it was set before or the
   * verification succeeded, and in the second case it owns the resource that was verified; otherwise it
   * is as it was before.
   */
  lemma ComputeSetsIffVerified(states: seq<State>, moves: seq<(nat, Action)>, i: nat, j: nat, t: nat, k: nat, slot: nat)
    requires IsRun(states, moves) && i < j < |states| && OneCompute(states, moves, i, j, t, k, slot)
    requires Pc(states[j], t).KernelLeave?
    ensures Field(k) in states[j].graph.ptr <==>
              Field(k) in states[i].graph.ptr || VerifiedBetween(moves, i, j, t)
    ensures forall m :: i < m < j && moves[m] == (t, Verify(true)) ==>
              Local(t, slot) in states[m].graph.ptr && Owns(states[j], Field(k), states[m].graph.ptr[Local(t, slot)])
    ensures !VerifiedBetween(moves, i, j, t) ==> SameField(states[i], states[j], k)
  {
    assert InCompute(states[j], t, k, slot);
    forall m | i < m < j && moves[m] == (t, Verify(true))
      ensures Local(t, slot) in states[m].graph.ptr && Owns(states[j], Field(k), states[m].graph.ptr[Local(t, slot)])
    {
      AfterVerify(states, moves, i, m, j, t, k, slot);
    }
    SetOnlyVerified(states, moves, i, j, t, k, slot);
  }
}
