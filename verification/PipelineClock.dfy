/**
 * The time accounting of tf.data: `Node::record_start` and `record_stop` (model.h), and
 * `DatasetBaseIterator::RecordStart` and `RecordStop` (dataset.h), which hand the clock of a
 * thread over between a node and its output. Times are unbounded integers.
 */
module PipelineClock {
  import opened Wrappers

  /** The clock of a node: its processing time, and the running threads with their start times. */
  datatype Clock = Clock(processingTime: int, workStart: map<nat, int>) {
    function Start(tid: nat, now: int): Clock {
      this.(workStart := workStart[tid := now])
    }

    /** A stop that was not preceded by a start only draws a warning. */
    function Stop(tid: nat, now: int): Clock {
      if tid in workStart then Clock(processingTime + (now - workStart[tid]), workStart - {tid}) else this
    }

    function StartOf(tid: nat): Option<int> {
      if tid in workStart then Some(workStart[tid]) else None
    }
  }

  /** One call of RecordStart or RecordStop; `both` is `stop_output` or `start_output`. */
  datatype Event<N> =
    | Start(tid: nat, node: N, time: int, both: bool)
    | Stop(tid: nat, node: N, time: int, both: bool)

  ghost predicate IsOutput<N>(out: map<N, N>, e: Event<N>, n: N) {
    e.both && e.node in out && out[e.node] == n
  }

  /** What one event does to the clock of node `n`; `out` maps a node to its output, if it has one. */
  ghost function After<N>(out: map<N, N>, n: N, clock: Clock, e: Event<N>): Clock {
    match e
    case Start(tid, node, now, _) =>
      var handed := if IsOutput(out, e, n) then clock.Stop(tid, now) else clock;
      if n == node then handed.Start(tid, now) else handed
    case Stop(tid, node, now, _) =>
      var stopped := if n == node then clock.Stop(tid, now) else clock;
      if IsOutput(out, e, n) then stopped.Start(tid, now) else stopped
  }

  ghost function Run<N>(out: map<N, N>, n: N, clock: Clock, trace: seq<Event<N>>): Clock {
    if trace == [] then clock
    else After(out, n, Run(out, n, clock, trace[..|trace| - 1]), trace[|trace| - 1])
  }

  // ---- The objects ----

  class Node {
    const output: Node?
    var processingTime: int
    var workStart: map<nat, int>

    function TheClock(): Clock
      reads this
    {
      Clock(processingTime, workStart)
    }

    constructor (output: Node?)
      ensures this.output == output && TheClock() == Clock(0, map[])
    {
      this.output := output;
      processingTime, workStart := 0, map[];
    }

    method RecordStart(tid: nat, now: int)
      modifies this
      ensures TheClock() == old(TheClock()).Start(tid, now)
    {
      workStart := workStart[tid := now];
    }

    method RecordStop(tid: nat, now: int)
      modifies this
      ensures TheClock() == old(TheClock()).Stop(tid, now)
    {
      if tid in workStart {
        processingTime := processingTime + (now - workStart[tid]);
        workStart := workStart - {tid};
      }
    }
  }

  ghost function Outputs(nodes: set<Node>): map<Node, Node> {
    map n: Node | n in nodes && n.output != null :: n.output
  }

  class DatasetBaseIterator {
    const node: Node?

    constructor (node: Node?)
      ensures this.node == node
    {
      this.node := node;
    }

    /** `collecting` is `model && model->collect_resource_usage()`. */
    method RecordStart(ghost nodes: set<Node>, collecting: bool, tid: nat, now: int, stopOutput: bool)
      requires node != null ==> node in nodes && (node.output != null ==> node.output in nodes)
      modifies nodes
      ensures forall n <- nodes :: n.TheClock() ==
                (if collecting && node != null then After(Outputs(nodes), n, old(n.TheClock()), Start(tid, node, now, stopOutput))
                 else old(n.TheClock()))
    {
      if collecting && node != null {
        if stopOutput && node.output != null {
          node.output.RecordStop(tid, now);
        }
        node.RecordStart(tid, now);
      }
    }

    method RecordStop(ghost nodes: set<Node>, collecting: bool, tid: nat, now: int, startOutput: bool)
      requires node != null ==> node in nodes && (node.output != null ==> node.output in nodes)
      modifies nodes
      ensures forall n <- nodes :: n.TheClock() ==
                (if collecting && node != null then After(Outputs(nodes), n, old(n.TheClock()), Stop(tid, node, now, startOutput))
                 else old(n.TheClock()))
    {
      if collecting && node != null {
        node.RecordStop(tid, now);
        if startOutput && node.output != null {
          node.output.RecordStart(tid, now);
        }
      }
    }
  }

  /** Every run of the iterators over real nodes is a run of the clocks. */
  method Replay(ghost nodes: set<Node>, trace: seq<Event<Node>>)
    requires forall n <- nodes :: n.output != null ==> n.output in nodes
    requires forall e <- trace :: e.node in nodes
    modifies nodes
    ensures forall n <- nodes :: n.TheClock() == Run(Outputs(nodes), n, old(n.TheClock()), trace)
  {
    for i := 0 to |trace|
      invariant forall n <- nodes :: n.TheClock() == Run(Outputs(nodes), n, old(n.TheClock()), trace[..i])
    {
      assert trace[..i + 1][..i] == trace[..i];
      var e := trace[i];
      var source := new DatasetBaseIterator(e.node);
      if e.Start? {
        source.RecordStart(nodes, true, e.tid, e.time, e.both);
      } else {
        source.RecordStop(nodes, true, e.tid, e.time, e.both);
      }
    }
    assert trace[..|trace|] == trace;
  }

  // ---- One thread at one node ----

  /** What one thread sees of one clock: its start, and the time it has added. */
  datatype Slice = Slice(start: Option<int>, spent: int) {
    function Started(now: int): Slice {
      this.(start := Some(now))
    }

    function Stopped(now: int): Slice {
      if start.Some? then Slice(None, spent + (now - start.value)) else this
    }
  }

  ghost function SliceAfter<N>(out: map<N, N>, n: N, slice: Slice, e: Event<N>): Slice {
    match e
    case Start(_, node, now, _) =>
      var handed := if IsOutput(out, e, n) then slice.Stopped(now) else slice;
      if n == node then handed.Started(now) else handed
    case Stop(_, node, now, _) =>
      var stopped := if n == node then slice.Stopped(now) else slice;
      if IsOutput(out, e, n) then stopped.Started(now) else stopped
  }

  ghost function SliceRun<N>(out: map<N, N>, n: N, slice: Slice, trace: seq<Event<N>>): Slice {
    if trace == [] then slice
    else SliceAfter(out, n, SliceRun(out, n, slice, trace[..|trace| - 1]), trace[|trace| - 1])
  }

  lemma {:induction false} SliceRunAppend<N>(out: map<N, N>, n: N, slice: Slice, a: seq<Event<N>>, b: seq<Event<N>>)
    ensures SliceRun(out, n, slice, a + b) == SliceRun(out, n, SliceRun(out, n, slice, a), b)
  {
    if b == [] {
      assert a + b == a;
    } else {
      assert (a + b)[..|a + b| - 1] == a + b[..|b| - 1];
      SliceRunAppend(out, n, slice, a, b[..|b| - 1]);
    }
  }

  ghost function Projection<N>(trace: seq<Event<N>>, tid: nat): seq<Event<N>> {
    if trace == [] then []
    else
      var before := Projection(trace[..|trace| - 1], tid);
      if trace[|trace| - 1].tid == tid then before + [trace[|trace| - 1]] else before
  }

  /** The time all threads below `threads` add to node `n`, each running on its own. */
  ghost function SpentBy<N>(out: map<N, N>, n: N, clock: Clock, trace: seq<Event<N>>, threads: nat): int {
    if threads == 0 then 0
    else
      SpentBy(out, n, clock, trace, threads - 1)
      + SliceRun(out, n, Slice(clock.StartOf(threads - 1), 0), Projection(trace, threads - 1)).spent
  }

  lemma {:induction false} OnlyOwnThreadSpends<N>(out: map<N, N>, n: N, clock: Clock, trace: seq<Event<N>>, threads: nat)
    requires trace != []
    ensures var before := trace[..|trace| - 1];
            var e := trace[|trace| - 1];
            var own := SliceRun(out, n, Slice(clock.StartOf(e.tid), 0), Projection(before, e.tid));
            SpentBy(out, n, clock, trace, threads) - SpentBy(out, n, clock, before, threads)
            == if e.tid < threads then SliceAfter(out, n, own, e).spent - own.spent else 0
  {
    if threads > 0 {
      OnlyOwnThreadSpends(out, n, clock, trace, threads - 1);
      var before := trace[..|trace| - 1];
      var e := trace[|trace| - 1];
      if e.tid == threads - 1 {
        var mine := Projection(before, e.tid);
        assert Projection(trace, e.tid) == mine + [e];
        assert (mine + [e])[..|mine + [e]| - 1] == mine;
      }
    }
  }

  lemma StepIsOwn<N>(out: map<N, N>, n: N, clock: Clock, e: Event<N>, tid: nat, slice: Slice)
    requires slice.start == clock.StartOf(e.tid)
    ensures var after := After(out, n, clock, e);
            && after.processingTime - clock.processingTime == SliceAfter(out, n, slice, e).spent - slice.spent
            && after.StartOf(tid) == if tid == e.tid then SliceAfter(out, n, slice, e).start else clock.StartOf(tid)
  {
  }

  /** Starts are keyed by thread, so however the threads interleave, each one counts as if it ran alone. */
  lemma {:induction false} ThreadsAreIndependent<N>(out: map<N, N>, n: N, clock: Clock, trace: seq<Event<N>>, threads: nat)
    requires forall e <- trace :: e.tid < threads
    ensures Run(out, n, clock, trace).processingTime == clock.processingTime + SpentBy(out, n, clock, trace, threads)
    ensures forall tid: nat :: Run(out, n, clock, trace).StartOf(tid)
                            == SliceRun(out, n, Slice(clock.StartOf(tid), 0), Projection(trace, tid)).start
  {
    if trace == [] {
      NothingSpent(out, n, clock, trace, threads);
    } else {
      var before := trace[..|trace| - 1];
      var e := trace[|trace| - 1];
      ThreadsAreIndependent(out, n, clock, before, threads);
      OnlyOwnThreadSpends(out, n, clock, trace, threads);
      var own := SliceRun(out, n, Slice(clock.StartOf(e.tid), 0), Projection(before, e.tid));
      forall tid: nat ensures Run(out, n, clock, trace).StartOf(tid)
                           == SliceRun(out, n, Slice(clock.StartOf(tid), 0), Projection(trace, tid)).start
      {
        StepIsOwn(out, n, Run(out, n, clock, before), e, tid, own);
        var mine := Projection(before, tid);
        assert (mine + [e])[..|mine + [e]| - 1] == mine;
      }
      StepIsOwn(out, n, Run(out, n, clock, before), e, e.tid, own);
    }
  }

  lemma {:induction false} NothingSpent<N>(out: map<N, N>, n: N, clock: Clock, trace: seq<Event<N>>, threads: nat)
    requires trace == []
    ensures SpentBy(out, n, clock, trace, threads) == 0
  {
    if threads > 0 {
      NothingSpent(out, n, clock, trace, threads - 1);
    }
  }

  // ---- Well-nested traces ----

  /** A node at work from `begin` to `end`. */
  datatype Call<N> = Call(node: N, begin: int, end: int, body: Body<N>)

  /** What it does in between: calls of its inputs, and waits during which its clock is stopped. */
  datatype Body<N> =
    | Done
    | Nested(call: Call<N>, rest: Body<N>)
    | Pause(from: int, to: int, rest: Body<N>)

  /** A nested call stops and restarts the clock of the caller; a pause hands nothing over. */
  ghost function CallEvents<N>(tid: nat, call: Call<N>, both: bool): seq<Event<N>> {
    [Start(tid, call.node, call.begin, both)] + BodyEvents(tid, call.node, call.body)
    + [Stop(tid, call.node, call.end, both)]
  }

  ghost function BodyEvents<N>(tid: nat, caller: N, body: Body<N>): seq<Event<N>> {
    match body
    case Done => []
    case Nested(call, rest) => CallEvents(tid, call, true) + BodyEvents(tid, caller, rest)
    case Pause(from, to, rest) =>
      [Stop(tid, caller, from, false), Start(tid, caller, to, false)] + BodyEvents(tid, caller, rest)
  }

  /** The output of every nested node is its caller. */
  ghost predicate WellNested<N>(out: map<N, N>, caller: N, body: Body<N>) {
    match body
    case Done => true
    case Nested(call, rest) =>
      && call.node in out && out[call.node] == caller
      && WellNested(out, call.node, call.body)
      && WellNested(out, caller, rest)
    case Pause(_, _, rest) => WellNested(out, caller, rest)
  }

  /** The part of the caller's time taken up by nested calls and pauses. */
  ghost function Durations<N>(body: Body<N>): int {
    match body
    case Done => 0
    case Nested(call, rest) => call.end - call.begin + Durations(rest)
    case Pause(from, to, rest) => to - from + Durations(rest)
  }

  /** The exclusive time of node `n` within a call. */
  ghost function Exclusive<N>(call: Call<N>, n: N): int {
    (if n == call.node then call.end - call.begin - Durations(call.body) else 0) + BodyExclusive(call.body, n)
  }

  ghost function BodyExclusive<N>(body: Body<N>, n: N): int {
    match body
    case Done => 0
    case Nested(call, rest) => Exclusive(call, n) + BodyExclusive(rest, n)
    case Pause(_, _, rest) => BodyExclusive(rest, n)
  }

  ghost function LastResumed<N>(body: Body<N>, since: int): int {
    match body
    case Done => since
    case Nested(call, rest) => LastResumed(rest, call.end)
    case Pause(_, to, rest) => LastResumed(rest, to)
  }

  /** The clock of the thread runs at `node` and nowhere else. */
  ghost function RunningAt<N>(node: N, n: N, since: int, spent: int): Slice {
    Slice(if n == node then Some(since) else None, spent)
  }

  lemma OneEvent<N>(out: map<N, N>, n: N, slice: Slice, e: Event<N>)
    ensures SliceRun(out, n, slice, [e]) == SliceAfter(out, n, slice, e)
  {
    assert [e][..0] == [];
  }

  /** A call seen from node `n`, between the events of its own start and stop. */
  lemma {:induction false} CallSlice<N>(out: map<N, N>, n: N, slice: Slice, tid: nat, call: Call<N>, both: bool)
    requires WellNested(out, call.node, call.body)
    requires SliceAfter(out, n, slice, Start(tid, call.node, call.begin, both)).start
          == RunningAt(call.node, n, call.begin, 0).start
    ensures var started := SliceAfter(out, n, slice, Start(tid, call.node, call.begin, both));
            var worked := RunningAt(call.node, n, LastResumed(call.body, call.begin), started.spent + BodyExclusive(call.body, n)
              + if n == call.node then LastResumed(call.body, call.begin) - call.begin - Durations(call.body) else 0);
            SliceRun(out, n, slice, CallEvents(tid, call, both))
            == SliceAfter(out, n, worked, Stop(tid, call.node, call.end, both))
    decreases call, 1
  {
    var first: Event<N> := Start(tid, call.node, call.begin, both);
    var last: Event<N> := Stop(tid, call.node, call.end, both);
    var started := SliceAfter(out, n, slice, first);
    var work := BodyEvents(tid, call.node, call.body);
    OneEvent(out, n, slice, first);
    SliceRunAppend(out, n, slice, [first], work);
    BodySlice(out, n, tid, call.node, call.body, call.begin, started.spent);
    SliceRunAppend(out, n, slice, [first] + work, [last]);
    OneEvent(out, n, SliceRun(out, n, slice, [first] + work), last);
  }

  lemma {:induction false} BodySlice<N>(out: map<N, N>, n: N, tid: nat, caller: N, body: Body<N>, since: int, spent: int)
    requires WellNested(out, caller, body)
    ensures SliceRun(out, n, RunningAt(caller, n, since, spent), BodyEvents(tid, caller, body))
         == RunningAt(caller, n, LastResumed(body, since), spent + BodyExclusive(body, n)
              + if n == caller then LastResumed(body, since) - since - Durations(body) else 0)
    decreases body
  {
    var slice := RunningAt(caller, n, since, spent);
    match body
    case Done =>
    case Nested(call, rest) =>
      CallSlice(out, n, slice, tid, call, true);
      SliceRunAppend(out, n, slice, CallEvents(tid, call, true), BodyEvents(tid, caller, rest));
      var gap := if n == caller then call.begin - since else 0;
      BodySlice(out, n, tid, caller, rest, call.end, spent + gap + Exclusive(call, n));
    case Pause(from, to, rest) =>
      var stop: Event<N> := Stop(tid, caller, from, false);
      var start: Event<N> := Start(tid, caller, to, false);
      OneEvent(out, n, slice, stop);
      SliceRunAppend(out, n, slice, [stop], [start]);
      assert [stop] + [start] == [stop, start];
      OneEvent(out, n, SliceAfter(out, n, slice, stop), start);
      SliceRunAppend(out, n, slice, [stop, start], BodyEvents(tid, caller, rest));
      var gap := if n == caller then from - since else 0;
      BodySlice(out, n, tid, caller, rest, to, spent + gap);
  }

  /** An outermost call, made while no node is running in the thread. */
  datatype Outer<N> = Outer(call: Call<N>, both: bool)

  /**
   * Each node gets its exclusive time. The clocks are left stopped exactly when the outermost call
   * does not hand over to an output: otherwise the output, which nobody had stopped, is left running.
   */
  lemma OuterCall<N>(out: map<N, N>, n: N, tid: nat, outer: Outer<N>, spent: int)
    requires WellNested(out, outer.call.node, outer.call.body)
    ensures var handsOver := outer.both && outer.call.node in out && out[outer.call.node] == n;
            SliceRun(out, n, Slice(None, spent), CallEvents(tid, outer.call, outer.both))
            == Slice(if handsOver then Some(outer.call.end) else None, spent + Exclusive(outer.call, n))
  {
    CallSlice(out, n, Slice(None, spent), tid, outer.call, outer.both);
  }

  ghost predicate LeavesStopped<N>(out: map<N, N>, outer: Outer<N>) {
    !(outer.both && outer.call.node in out)
  }

  lemma StoppedIffNothingHandedOver<N(!new)>(out: map<N, N>, tid: nat, outer: Outer<N>)
    requires WellNested(out, outer.call.node, outer.call.body)
    ensures LeavesStopped(out, outer) <==>
            forall n: N :: SliceRun(out, n, Slice(None, 0), CallEvents(tid, outer.call, outer.both)).start == None
  {
    forall n: N ensures SliceRun(out, n, Slice(None, 0), CallEvents(tid, outer.call, outer.both)).start
                     == if outer.both && outer.call.node in out && out[outer.call.node] == n then Some(outer.call.end) else None
    {
      OuterCall(out, n, tid, outer, 0);
    }
    if !LeavesStopped(out, outer) {
      var left := out[outer.call.node];
      assert SliceRun(out, left, Slice(None, 0), CallEvents(tid, outer.call, outer.both)).start == Some(outer.call.end);
    }
  }

  // ---- Threads of outermost calls ----

  ghost predicate Proper<N>(out: map<N, N>, outers: seq<Outer<N>>) {
    forall o <- outers :: LeavesStopped(out, o) && WellNested(out, o.call.node, o.call.body)
  }

  ghost function ThreadEvents<N>(tid: nat, outers: seq<Outer<N>>): seq<Event<N>> {
    if outers == [] then []
    else CallEvents(tid, outers[0].call, outers[0].both) + ThreadEvents(tid, outers[1..])
  }

  ghost function ThreadExclusive<N>(outers: seq<Outer<N>>, n: N): int {
    if outers == [] then 0 else Exclusive(outers[0].call, n) + ThreadExclusive(outers[1..], n)
  }

  lemma {:induction false} ThreadSlice<N>(out: map<N, N>, n: N, tid: nat, outers: seq<Outer<N>>, spent: int)
    requires Proper(out, outers)
    ensures SliceRun(out, n, Slice(None, spent), ThreadEvents(tid, outers))
         == Slice(None, spent + ThreadExclusive(outers, n))
  {
    if outers != [] {
      var outer := outers[0];
      OuterCall(out, n, tid, outer, spent);
      SliceRunAppend(out, n, Slice(None, spent), CallEvents(tid, outer.call, outer.both), ThreadEvents(tid, outers[1..]));
      ThreadSlice(out, n, tid, outers[1..], spent + Exclusive(outer.call, n));
    }
  }

  /** `trace` interleaves the threads, thread `t` making the calls `threads[t]`. */
  ghost predicate Interleaves<N>(trace: seq<Event<N>>, threads: seq<seq<Outer<N>>>) {
    && (forall e <- trace :: e.tid < |threads|)
    && (forall t | 0 <= t < |threads| :: Projection(trace, t) == ThreadEvents(t, threads[t]))
  }

  ghost function TotalExclusive<N>(threads: seq<seq<Outer<N>>>, n: N): int {
    if threads == [] then 0
    else TotalExclusive(threads[..|threads| - 1], n) + ThreadExclusive(threads[|threads| - 1], n)
  }

  lemma {:induction false} SpentIsExclusive<N>(out: map<N, N>, n: N, clock: Clock, trace: seq<Event<N>>, threads: seq<seq<Outer<N>>>)
    requires forall t: nat | t < |threads| :: Proper(out, threads[t]) && clock.StartOf(t) == None
    requires forall t | 0 <= t < |threads| :: Projection(trace, t) == ThreadEvents(t, threads[t])
    ensures SpentBy(out, n, clock, trace, |threads|) == TotalExclusive(threads, n)
  {
    if threads != [] {
      var last := |threads| - 1;
      SpentIsExclusive(out, n, clock, trace, threads[..last]);
      ThreadSlice(out, n, last, threads[last], 0);
    }
  }

  /**
   * In every interleaving of threads making well-nested calls, each node ends with the sum of its
   * exclusive times, and with no thread left running that was not running before.
   */
  lemma EachNodeGetsItsOwnTime<N>(out: map<N, N>, n: N, clock: Clock, trace: seq<Event<N>>, threads: seq<seq<Outer<N>>>)
    requires Interleaves(trace, threads)
    requires forall t: nat | t < |threads| :: Proper(out, threads[t]) && clock.StartOf(t) == None
    ensures Run(out, n, clock, trace).processingTime == clock.processingTime + TotalExclusive(threads, n)
    ensures forall t: nat :: t < |threads| ==> Run(out, n, clock, trace).StartOf(t) == None
  {
    ThreadsAreIndependent(out, n, clock, trace, |threads|);
    SpentIsExclusive(out, n, clock, trace, threads);
    forall t: nat | t < |threads| ensures Run(out, n, clock, trace).StartOf(t) == None {
      ThreadSlice(out, n, t, threads[t], 0);
    }
  }

  // ---- Conservation ----

  /** The time during which some node runs: elapsed time minus all pauses, at any depth. */
  ghost function BodyPauses<N>(body: Body<N>): int {
    match body
    case Done => 0
    case Nested(call, rest) => BodyPauses(call.body) + BodyPauses(rest)
    case Pause(from, to, rest) => to - from + BodyPauses(rest)
  }

  ghost function ThreadBusy<N>(outers: seq<Outer<N>>): int {
    if outers == [] then 0
    else outers[0].call.end - outers[0].call.begin - BodyPauses(outers[0].call.body) + ThreadBusy(outers[1..])
  }

  ghost function TotalBusy<N>(threads: seq<seq<Outer<N>>>): int {
    if threads == [] then 0 else TotalBusy(threads[..|threads| - 1]) + ThreadBusy(threads[|threads| - 1])
  }

  ghost function Sum<N(!new)>(nodes: seq<N>, f: N -> int): int {
    if nodes == [] then 0 else f(nodes[0]) + Sum(nodes[1..], f)
  }

  ghost predicate Distinct<N>(nodes: seq<N>) {
    forall i, j :: 0 <= i < j < |nodes| ==> nodes[i] != nodes[j]
  }

  lemma {:induction false} SumAdds<N(!new)>(nodes: seq<N>, f: N -> int, g: N -> int, h: N -> int)
    requires forall n <- nodes :: h(n) == f(n) + g(n)
    ensures Sum(nodes, h) == Sum(nodes, f) + Sum(nodes, g)
  {
    if nodes != [] {
      SumAdds(nodes[1..], f, g, h);
    }
  }

  lemma {:induction false} SumOfOne<N(!new)>(nodes: seq<N>, node: N, f: N -> int)
    requires Distinct(nodes)
    requires forall n <- nodes :: n != node ==> f(n) == 0
    ensures Sum(nodes, f) == if node in nodes then f(node) else 0
  {
    if nodes != [] {
      SumOfOne(nodes[1..], node, f);
    }
  }

  ghost predicate BodyWithin<N>(body: Body<N>, nodes: seq<N>) {
    match body
    case Done => true
    case Nested(call, rest) => call.node in nodes && BodyWithin(call.body, nodes) && BodyWithin(rest, nodes)
    case Pause(_, _, rest) => BodyWithin(rest, nodes)
  }

  lemma {:induction false} CallConserves<N(!new)>(nodes: seq<N>, call: Call<N>)
    requires Distinct(nodes) && call.node in nodes && BodyWithin(call.body, nodes)
    ensures Sum(nodes, n => Exclusive(call, n)) == call.end - call.begin - BodyPauses(call.body)
    decreases call, 1
  {
    var own := (n: N) => if n == call.node then call.end - call.begin - Durations(call.body) else 0;
    SumOfOne(nodes, call.node, own);
    SumAdds(nodes, own, n => BodyExclusive(call.body, n), n => Exclusive(call, n));
    BodyConserves(nodes, call.body);
  }

  lemma {:induction false} BodyConserves<N(!new)>(nodes: seq<N>, body: Body<N>)
    requires Distinct(nodes) && BodyWithin(body, nodes)
    ensures Sum(nodes, n => BodyExclusive(body, n)) == Durations(body) - BodyPauses(body)
    decreases body
  {
    match body
    case Done =>
      SumAdds(nodes, n => BodyExclusive(body, n), n => BodyExclusive(body, n), n => BodyExclusive(body, n));
    case Nested(call, rest) =>
      CallConserves(nodes, call);
      BodyConserves(nodes, rest);
      SumAdds(nodes, n => Exclusive(call, n), n => BodyExclusive(rest, n), n => BodyExclusive(body, n));
    case Pause(from, to, rest) =>
      BodyConserves(nodes, rest);
      SameSum(nodes, n => BodyExclusive(rest, n), n => BodyExclusive(body, n));
  }

  lemma {:induction false} SameSum<N(!new)>(nodes: seq<N>, f: N -> int, g: N -> int)
    requires forall n <- nodes :: f(n) == g(n)
    ensures Sum(nodes, f) == Sum(nodes, g)
  {
    if nodes != [] {
      SameSum(nodes[1..], f, g);
    }
  }

  lemma {:induction false} ThreadConserves<N(!new)>(nodes: seq<N>, outers: seq<Outer<N>>)
    requires Distinct(nodes)
    requires forall o <- outers :: o.call.node in nodes && BodyWithin(o.call.body, nodes)
    ensures Sum(nodes, n => ThreadExclusive(outers, n)) == ThreadBusy(outers)
  {
    if outers == [] {
      SumAdds(nodes, n => ThreadExclusive(outers, n), n => ThreadExclusive(outers, n), n => ThreadExclusive(outers, n));
    } else {
      CallConserves(nodes, outers[0].call);
      ThreadConserves(nodes, outers[1..]);
      SumAdds(nodes, n => Exclusive(outers[0].call, n), n => ThreadExclusive(outers[1..], n), n => ThreadExclusive(outers, n));
    }
  }

  lemma {:induction false} TotalConserves<N(!new)>(nodes: seq<N>, threads: seq<seq<Outer<N>>>)
    requires Distinct(nodes)
    requires forall t | 0 <= t < |threads| :: forall o <- threads[t] :: o.call.node in nodes && BodyWithin(o.call.body, nodes)
    ensures Sum(nodes, n => TotalExclusive(threads, n)) == TotalBusy(threads)
  {
    if threads == [] {
      SumAdds(nodes, n => TotalExclusive(threads, n), n => TotalExclusive(threads, n), n => TotalExclusive(threads, n));
    } else {
      var last := |threads| - 1;
      TotalConserves(nodes, threads[..last]);
      ThreadConserves(nodes, threads[last]);
      SumAdds(nodes, n => TotalExclusive(threads[..last], n), n => ThreadExclusive(threads[last], n), n => TotalExclusive(threads, n));
    }
  }

  /** The processing times added over all nodes sum exactly to the elapsed times of the outermost calls minus all pauses. */
  lemma TimeIsConserved<N(!new)>(out: map<N, N>, nodes: seq<N>, trace: seq<Event<N>>, threads: seq<seq<Outer<N>>>, before: N -> Clock)
    requires Distinct(nodes) && Interleaves(trace, threads)
    requires forall t: nat | t < |threads| :: Proper(out, threads[t])
    requires forall t | 0 <= t < |threads| :: forall o <- threads[t] :: o.call.node in nodes && BodyWithin(o.call.body, nodes)
    requires forall n: N, t: nat | t < |threads| :: before(n).StartOf(t) == None
    ensures Sum(nodes, n => Run(out, n, before(n), trace).processingTime)
         == Sum(nodes, n => before(n).processingTime) + TotalBusy(threads)
  {
    forall n <- nodes ensures Run(out, n, before(n), trace).processingTime
                           == before(n).processingTime + TotalExclusive(threads, n)
    {
      EachNodeGetsItsOwnTime(out, n, before(n), trace, threads);
    }
    TotalConserves(nodes, threads);
    SumAdds(nodes, n => before(n).processingTime, n => TotalExclusive(threads, n), n => Run(out, n, before(n), trace).processingTime);
  }
}
