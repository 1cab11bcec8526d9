/**
 * `ResourceHandleOp` and `ResourceHandlesOp` (resource_mgr.h): kernels that build their resource
 * handles once, on the first Compute that succeeds, and output the same handles ever after.
 * ResourceHandleOp is the case of one handle; with the anonymous name it builds a new handle on
 * each call and does not use the shared state at all.
 */
module HandleOps {
  import opened Wrappers

  /** A handle for a container and a name; `stamp` is all that depends on the calling context. */
  datatype Handle = Handle(container: string, name: string, stamp: nat)

  /** A tensor for one handle: not allocated, allocated with a default handle, or built. */
  datatype Tensor = Unallocated | Blank | Built(handle: Handle)

  /** What a kernel reads from its attributes. The constructor checks that the lengths agree. */
  datatype Config = Config(containers: seq<string>, names: seq<string>) {
    predicate Valid() { |containers| == |names| }
  }

  function MakeResourceHandle(c: Config, i: nat, stamp: nat): Handle
    requires c.Valid() && i < |c.names|
  {
    Handle(c.containers[i], c.names[i], stamp)
  }

  /** Tensor `i` holds a handle for container `i` and name `i`. */
  ghost predicate BuiltFor(c: Config, i: nat, t: Tensor)
    requires c.Valid() && i < |c.names|
  {
    t.Built? && t.handle.container == c.containers[i] && t.handle.name == c.names[i]
  }

  ghost predicate AllBuilt(c: Config, ts: seq<Tensor>)
    requires c.Valid()
  {
    |ts| == |c.names| && forall i :: 0 <= i < |ts| ==> BuiltFor(c, i, ts[i])
  }

  // ---- One call at a time ----

  const ANONYMOUS_NAME := "cd2c89b7-88b7-44c8-ad83-06c2a9158347"

  /** How many of the allocations succeed before one fails. */
  ghost function FirstFailure(allocations: seq<bool>): (n: nat)
    ensures n <= |allocations|
    ensures forall i :: 0 <= i < n ==> allocations[i]
    ensures n < |allocations| ==> !allocations[n]
  {
    if allocations == [] || !allocations[0] then 0 else 1 + FirstFailure(allocations[1..])
  }

  class ResourceHandlesOp {
    const config: Config
    var resources: seq<Tensor>
    var initialized: bool

    ghost predicate Valid()
      reads this
    {
      config.Valid() && |resources| == |config.names| && (initialized ==> AllBuilt(config, resources))
    }

    constructor (config: Config)
      requires config.Valid()
      ensures Valid() && !initialized && this.config == config
    {
      this.config := config;
      resources := seq(|config.names|, _ => Unallocated);
      initialized := false;
    }

    /**
     * One Compute, when no other one runs. `allocations` tells which calls of `allocate_temp`
     * succeed. The first failure ends the call without an output, leaving the kernel
     * uninitialised; otherwise the output is what every later call outputs too.
     */
    method Compute(allocations: seq<bool>, stamp: nat) returns (ok: bool, outputs: seq<Tensor>)
      requires Valid() && |allocations| == |config.names|
      modifies this
      ensures Valid() && (ok <==> initialized)
      ensures ok <==> old(initialized) || FirstFailure(allocations) == |allocations|
      ensures outputs == if ok then resources else []
      ensures old(initialized) ==> resources == old(resources)
      ensures !old(initialized) ==>
        var n := FirstFailure(allocations);
        && (forall i :: 0 <= i < n ==> resources[i] == Built(MakeResourceHandle(config, i, stamp)))
        && (forall i :: n <= i < |resources| ==> resources[i] == old(resources)[i])
    {
      if !initialized {
        for i := 0 to |resources|
          invariant Valid() && !initialized && |resources| == |config.names|
          invariant i <= FirstFailure(allocations)
          invariant forall j :: 0 <= j < i ==> resources[j] == Built(MakeResourceHandle(config, j, stamp))
          invariant forall j :: i <= j < |resources| ==> resources[j] == old(resources)[j]
        {
          if !allocations[i] {
            return false, [];
          }
          resources := resources[i := Blank];
          resources := resources[i := Built(MakeResourceHandle(config, i, stamp))];
        }
        initialized := true;
      }
      outputs := [];
      for i := 0 to |resources|
        invariant outputs == resources[..i]
      {
        outputs := outputs + [resources[i]];
      }
      return true, outputs;
    }
  }

  /** Compute of ResourceHandleOp: the anonymous name bypasses the shared handle, which stays as it is. */
  method ComputeOne(op: ResourceHandlesOp, hasMemory: bool, stamp: nat) returns (ok: bool, output: Tensor)
    requires op.Valid() && |op.config.names| == 1
    modifies op
    ensures op.Valid()
    ensures ok ==> BuiltFor(op.config, 0, output)
    ensures ok <==> hasMemory || (op.config.names[0] != ANONYMOUS_NAME && old(op.initialized))
    ensures op.config.names[0] == ANONYMOUS_NAME ==>
      op.resources == old(op.resources) && op.initialized == old(op.initialized) && ok == hasMemory && (ok ==> output.handle.stamp == stamp)
    ensures op.config.names[0] != ANONYMOUS_NAME ==>
      (ok <==> op.initialized) && (ok ==> output == op.resources[0]) && (old(op.initialized) ==> ok && output == old(op.resources)[0])
  {
    output := Unallocated;
    if op.config.names[0] == ANONYMOUS_NAME {
      ok := hasMemory;
      if ok {
        output := Built(MakeResourceHandle(op.config, 0, stamp));
      }
    } else {
      var outputs;
      ok, outputs := op.Compute([hasMemory], stamp);
      if ok {
        output := outputs[0];
      }
    }
  }

  // ---- Any number of calls at once ----

  datatype PC =
    | Idle
    | FirstCheck
    | Lock
    | SecondCheck
    | Allocate(i: nat, stamp: nat)
    | Build(i: nat, stamp: nat)
    | Unlock(ok: bool)
    | Output(i: nat, outputs: seq<Tensor>)

  /** The shared state of the kernel, the threads inside Compute, and what was output so far. */
  datatype State = State(
    resources: seq<Tensor>, initialized: bool, mu: Option<nat>, pcs: map<nat, PC>, results: seq<seq<Tensor>>)

  /** `Step(hasMemory, stamp)`: the outcome of `allocate_temp` and the context, where they matter. */
  datatype Action = Step(hasMemory: bool, stamp: nat)

  function Pc(s: State, t: nat): PC {
    if t in s.pcs then s.pcs[t] else Idle
  }

  function Goto(s: State, t: nat, pc: PC): State {
    s.(pcs := s.pcs[t := pc])
  }

  predicate Enabled(s: State, t: nat) {
    Pc(s, t) == Lock ==> s.mu == None
  }

  predicate InCritical(pc: PC) {
    pc.SecondCheck? || pc.Allocate? || pc.Build? || pc.Unlock?
  }

  function Next(c: Config, s: State, t: nat, a: Action): State
    requires c.Valid() && |s.resources| == |c.names| && Enabled(s, t)
  {
    match Pc(s, t)
    case Idle => Goto(s, t, FirstCheck)
    case FirstCheck => Goto(s, t, if s.initialized then Output(0, []) else Lock)
    case Lock => Goto(s.(mu := Some(t)), t, SecondCheck)
    case SecondCheck => Goto(s, t, if s.initialized then Unlock(true) else Allocate(0, a.stamp))
    case Allocate(i, stamp) =>
      if i >= |s.resources| then Goto(s.(initialized := true), t, Unlock(true))
      else if a.hasMemory then Goto(s.(resources := s.resources[i := Blank]), t, Build(i, stamp))
      else Goto(s, t, Unlock(false))
    case Build(i, stamp) =>
      if i >= |s.resources| then s
      else Goto(s.(resources := s.resources[i := Built(MakeResourceHandle(c, i, stamp))]), t, Allocate(i + 1, stamp))
    case Unlock(ok) => Goto(s.(mu := None), t, if ok then Output(0, []) else Idle)
    case Output(i, outputs) =>
      if i >= |s.resources| then Goto(s.(results := s.results + [outputs]), t, Idle)
      else Goto(s, t, Output(i + 1, outputs + [s.resources[i]]))
  }

  ghost predicate ThreadOk(c: Config, s: State, t: nat)
    requires c.Valid() && |s.resources| == |c.names|
  {
    var pc := Pc(s, t);
    && (s.mu == Some(t) <==> InCritical(pc))
    && (pc.Allocate? || pc.Build? ==>
         !s.initialized && pc.i <= |s.resources| && forall j :: 0 <= j < pc.i ==> BuiltFor(c, j, s.resources[j]))
    && (pc.Build? ==> pc.i < |s.resources|)
    && (pc.Output? ==> s.initialized && pc.i <= |s.resources| && pc.outputs == s.resources[..pc.i])
    && (pc == Unlock(true) ==> s.initialized)
    && (pc == Unlock(false) ==> !s.initialized)
  }

  ghost predicate Inv(c: Config, s: State) {
    && c.Valid() && |s.resources| == |c.names|
    && (s.initialized ==> AllBuilt(c, s.resources))
    && (forall t: nat :: ThreadOk(c, s, t))
    && (!s.initialized ==> s.results == [])
    && (forall k :: 0 <= k < |s.results| ==> s.results[k] == s.resources)
  }

  ghost function Initial(c: Config): State {
    State(seq(|c.names|, _ => Unallocated), false, None, map[], [])
  }

  /** Published handles are never written again, by any thread. */
  lemma NextKeepsPublished(c: Config, s: State, t: nat, a: Action)
    requires Inv(c, s) && Enabled(s, t) && s.initialized
    ensures Next(c, s, t, a).initialized && Next(c, s, t, a).resources == s.resources
  {
    assert ThreadOk(c, s, t);
  }

  lemma NextOwn(c: Config, s: State, t: nat, a: Action)
    requires Inv(c, s) && Enabled(s, t)
    ensures |Next(c, s, t, a).resources| == |c.names| && ThreadOk(c, Next(c, s, t, a), t)
  {
    assert ThreadOk(c, s, t);
  }

  lemma NextOther(c: Config, s: State, t: nat, a: Action, u: nat)
    requires Inv(c, s) && Enabled(s, t) && u != t
    ensures |Next(c, s, t, a).resources| == |c.names| && ThreadOk(c, Next(c, s, t, a), u)
  {
    assert ThreadOk(c, s, t) && ThreadOk(c, s, u);
  }

  lemma NextInv(c: Config, s: State, t: nat, a: Action)
    requires Inv(c, s) && Enabled(s, t)
    ensures Inv(c, Next(c, s, t, a))
  {
    var s' := Next(c, s, t, a);
    assert ThreadOk(c, s, t);
    NextOwn(c, s, t, a);
    forall u: nat ensures ThreadOk(c, s', u) {
      if u != t { NextOther(c, s, t, a, u); }
    }
    if s.initialized {
      NextKeepsPublished(c, s, t, a);
    } else {
      assert s'.results == s.results;
    }
    forall k | 0 <= k < |s'.results| ensures s'.results[k] == s'.resources {
      if k < |s.results| { assert s'.results[k] == s.results[k]; }
    }
  }

  ghost predicate IsRun(c: Config, states: seq<State>, moves: seq<(nat, Action)>) {
    && c.Valid() && |states| == |moves| + 1 && states[0] == Initial(c)
    && forall i {:trigger moves[i]} :: 0 <= i < |moves| ==>
      && |states[i].resources| == |c.names| && Enabled(states[i], moves[i].0)
      && states[i + 1] == Next(c, states[i], moves[i].0, moves[i].1)
  }

  lemma {:induction false} RunInv(c: Config, states: seq<State>, moves: seq<(nat, Action)>, i: nat)
    requires IsRun(c, states, moves) && i < |states|
    ensures Inv(c, states[i])
  {
    if i > 0 {
      RunInv(c, states, moves, i - 1);
      assert Enabled(states[i - 1], moves[i - 1].0);
      NextInv(c, states[i - 1], moves[i - 1].0, moves[i - 1].1);
    }
  }

  /**
   * In every interleaving, every call that has an output outputs the same tensors, and tensor i
   * holds a finished handle for container i and name i.
   */
  lemma SameHandlesForAll(c: Config, states: seq<State>, moves: seq<(nat, Action)>, n: nat, k: nat, l: nat)
    requires IsRun(c, states, moves) && n < |states| && k < |states[n].results| && l < |states[n].results|
    ensures AllBuilt(c, states[n].results[k]) && states[n].results[k] == states[n].results[l]
  {
    RunInv(c, states, moves, n);
  }

  /** Also a call that is still copying its outputs has only finished handles, at any moment. */
  lemma OnlyFinishedHandles(c: Config, states: seq<State>, moves: seq<(nat, Action)>, n: nat, t: nat, i: nat)
    requires IsRun(c, states, moves) && n < |states|
    requires Pc(states[n], t).Output? && i < |Pc(states[n], t).outputs|
    ensures i < |c.names| && BuiltFor(c, i, Pc(states[n], t).outputs[i])
  {
    RunInv(c, states, moves, n);
    assert ThreadOk(c, states[n], t);
  }

  /** A call that fails part-way publishes nothing, and when it has left, the mutex is free for the next one. */
  lemma FailureIsHarmless(c: Config, states: seq<State>, moves: seq<(nat, Action)>, n: nat, t: nat)
    requires IsRun(c, states, moves) && n < |moves|
    requires moves[n].0 == t && Pc(states[n], t) == Unlock(false)
    ensures !states[n + 1].initialized && states[n + 1].mu == None && states[n + 1].results == []
  {
    RunInv(c, states, moves, n);
    RunInv(c, states, moves, n + 1);
    assert ThreadOk(c, states[n], t);
    var move := moves[n];
    assert states[n + 1] == Next(c, states[n], move.0, move.1);
  }

  // ---- A call that nobody interferes with ----

  /** The next step of a call whose allocations succeed or fail as given. */
  function ActionAt(pc: PC, allocations: seq<bool>, stamp: nat): Action {
    Step(pc.Allocate? && pc.i < |allocations| && allocations[pc.i], stamp)
  }

  /** `s'` is reached from `s` by steps of thread `t` alone. */
  ghost predicate Reaches(c: Config, s: State, t: nat, allocations: seq<bool>, stamp: nat, steps: nat, s': State)
    decreases steps
  {
    if steps == 0 then s' == s
    else
      && c.Valid() && |s.resources| == |c.names| && Enabled(s, t)
      && Reaches(c, Next(c, s, t, ActionAt(Pc(s, t), allocations, stamp)), t, allocations, stamp, steps - 1, s')
  }

  lemma {:induction false} ReachesOn(c: Config, s: State, t: nat, allocations: seq<bool>, stamp: nat, i: nat, s1: State, j: nat, s2: State)
    requires Reaches(c, s, t, allocations, stamp, i, s1) && Reaches(c, s1, t, allocations, stamp, j, s2)
    ensures Reaches(c, s, t, allocations, stamp, i + j, s2)
    decreases i
  {
    if i > 0 {
      ReachesOn(c, Next(c, s, t, ActionAt(Pc(s, t), allocations, stamp)), t, allocations, stamp, i - 1, s1, j, s2);
    }
  }

  /** The loop that copies the outputs. */
  lemma {:induction false} OutputAlone(c: Config, s: State, t: nat, allocations: seq<bool>, stamp: nat) returns (steps: nat, s': State)
    requires c.Valid() && |s.resources| == |c.names|
    requires Pc(s, t).Output? && Pc(s, t).i <= |s.resources| && Pc(s, t).outputs == s.resources[..Pc(s, t).i]
    ensures Reaches(c, s, t, allocations, stamp, steps, s')
    ensures Pc(s', t) == Idle && s'.mu == s.mu && s'.initialized == s.initialized && s'.resources == s.resources
    ensures s'.results == s.results + [s.resources]
    decreases |s.resources| - Pc(s, t).i
  {
    var next := Next(c, s, t, ActionAt(Pc(s, t), allocations, stamp));
    if Pc(s, t).i == |s.resources| {
      assert s.resources[..|s.resources|] == s.resources;
      steps, s' := 1, next;
      assert Reaches(c, next, t, allocations, stamp, 0, s');
    } else {
      var more;
      more, s' := OutputAlone(c, next, t, allocations, stamp);
      steps := more + 1;
    }
  }

  /** The loop that builds the handles, until an allocation fails or all are built. */
  lemma {:induction false} BuildAlone(c: Config, s: State, t: nat, allocations: seq<bool>, stamp: nat) returns (steps: nat, s': State)
    requires c.Valid() && |s.resources| == |c.names| == |allocations| && !s.initialized
    requires Pc(s, t).Allocate? && Pc(s, t).stamp == stamp && Pc(s, t).i <= FirstFailure(allocations)
    ensures Reaches(c, s, t, allocations, stamp, steps, s')
    ensures s'.initialized <==> FirstFailure(allocations) == |allocations|
    ensures Pc(s', t) == Unlock(s'.initialized) && s'.mu == s.mu && s'.results == s.results
    ensures |s'.resources| == |s.resources|
    ensures forall j :: Pc(s, t).i <= j < FirstFailure(allocations) ==> s'.resources[j] == Built(MakeResourceHandle(c, j, stamp))
    ensures forall j :: 0 <= j < Pc(s, t).i || FirstFailure(allocations) <= j < |s.resources| ==> s'.resources[j] == s.resources[j]
    decreases |s.resources| - Pc(s, t).i
  {
    var i := Pc(s, t).i;
    var next := Next(c, s, t, ActionAt(Pc(s, t), allocations, stamp));
    if i == FirstFailure(allocations) {
      steps, s' := 1, next;
      assert Reaches(c, next, t, allocations, stamp, 0, s');
    } else {
      var built := Next(c, next, t, ActionAt(Pc(next, t), allocations, stamp));
      assert Pc(next, t) == Build(i, stamp) && Pc(built, t) == Allocate(i + 1, stamp);
      var more;
      more, s' := BuildAlone(c, built, t, allocations, stamp);
      steps := more + 2;
      assert Reaches(c, next, t, allocations, stamp, more + 1, s');
    }
  }

  /**
   * A call during which no other thread takes a step does what `Compute` does: if the handles are there
   * or all allocations succeed, it outputs the handles, and otherwise it fails with the handles before
   * the first failure built.
   */
  lemma AloneIsCompute(c: Config, s: State, t: nat, allocations: seq<bool>, stamp: nat) returns (steps: nat, s': State)
    requires Inv(c, s) && s.mu == None && Pc(s, t) == Idle && |allocations| == |c.names|
    ensures Reaches(c, s, t, allocations, stamp, steps, s') && Pc(s', t) == Idle && s'.mu == None
    ensures s'.initialized <==> s.initialized || FirstFailure(allocations) == |allocations|
    ensures s'.results == if s'.initialized then s.results + [s'.resources] else s.results
    ensures s.initialized ==> s'.resources == s.resources
    ensures |s'.resources| == |s.resources|
    ensures !s.initialized ==>
      var n := FirstFailure(allocations);
      && (forall i :: 0 <= i < n ==> s'.resources[i] == Built(MakeResourceHandle(c, i, stamp)))
      && (forall i :: n <= i < |s.resources| ==> s'.resources[i] == s.resources[i])
  {
    var first := Next(c, s, t, ActionAt(Idle, allocations, stamp));
    var checked := Next(c, first, t, ActionAt(FirstCheck, allocations, stamp));
    assert Reaches(c, first, t, allocations, stamp, 1, checked) by {
      assert Reaches(c, checked, t, allocations, stamp, 0, checked);
    }
    assert Reaches(c, s, t, allocations, stamp, 2, checked);
    var more;
    if s.initialized {
      more, s' := OutputAlone(c, checked, t, allocations, stamp);
    } else {
      more, s' := LockedAlone(c, checked, t, allocations, stamp);
    }
    ReachesOn(c, s, t, allocations, stamp, 2, checked, more, s');
    steps := 2 + more;
  }

  lemma LockedAlone(c: Config, s: State, t: nat, allocations: seq<bool>, stamp: nat) returns (steps: nat, s': State)
    requires c.Valid() && |s.resources| == |c.names| == |allocations| && !s.initialized && s.mu == None && Pc(s, t) == Lock
    ensures Reaches(c, s, t, allocations, stamp, steps, s') && Pc(s', t) == Idle && s'.mu == None
    ensures s'.initialized <==> FirstFailure(allocations) == |allocations|
    ensures s'.results == if s'.initialized then s.results + [s'.resources] else s.results
    ensures |s'.resources| == |s.resources|
    ensures
      var n := FirstFailure(allocations);
      && (forall i :: 0 <= i < n ==> s'.resources[i] == Built(MakeResourceHandle(c, i, stamp)))
      && (forall i :: n <= i < |s.resources| ==> s'.resources[i] == s.resources[i])
  {
    var locked := Next(c, s, t, ActionAt(Lock, allocations, stamp));
    var entered := Next(c, locked, t, ActionAt(SecondCheck, allocations, stamp));
    assert Reaches(c, locked, t, allocations, stamp, 1, entered) by {
      assert Reaches(c, entered, t, allocations, stamp, 0, entered);
    }
    assert Reaches(c, s, t, allocations, stamp, 2, entered);
    var more, built := BuildAlone(c, entered, t, allocations, stamp);
    ReachesOn(c, s, t, allocations, stamp, 2, entered, more, built);
    var left := Next(c, built, t, ActionAt(Pc(built, t), allocations, stamp));
    assert Reaches(c, built, t, allocations, stamp, 1, left) by {
      assert Reaches(c, left, t, allocations, stamp, 0, left);
    }
    ReachesOn(c, s, t, allocations, stamp, 2 + more, built, 1, left);
    if built.initialized {
      var last;
      last, s' := OutputAlone(c, left, t, allocations, stamp);
      ReachesOn(c, s, t, allocations, stamp, 3 + more, left, last, s');
      steps := 3 + more + last;
    } else {
      steps, s' := 3 + more, left;
    }
  }
}
