/**
 * The cost estimate of an op kernel (framework/op_kernel.h): a decaying average in `uint64`
 * arithmetic, loaded and stored by several threads without a lock.
 */
module CostEstimate {
  import opened Bits

  const INITIAL: nat := 100000000
  const THRESHOLD: nat := 5000
  const COST_DECAY: nat := 10

  type Cycles = n: nat | n < TWO_TO_64

  /** The new estimate; the multiplication may wrap. */
  function Next(estimate: Cycles, elapsed: Cycles): Cycles {
    (COST_DECAY - 1) * estimate % TWO_TO_64 / COST_DECAY + elapsed / COST_DECAY
  }

  class OpKernel {
    const expensive: bool
    var costEstimate: Cycles

    constructor (expensive: bool)
      ensures this.expensive == expensive && costEstimate == INITIAL
    {
      this.expensive := expensive;
      costEstimate := INITIAL;
    }

    predicate IsExpensive()
      reads this
    {
      expensive && costEstimate > THRESHOLD
    }

    /**
     * The new estimate lies between the old one and the measurement, as a weighted average rounded down;
     * only the upper bounds survive a multiplication that wraps.
     */
    method UpdateCostEstimate(elapsed: Cycles)
      modifies this
      ensures costEstimate == Next(old(costEstimate), elapsed)
      ensures costEstimate <= Max(old(costEstimate), elapsed) && 10 * costEstimate <= 9 * old(costEstimate) + elapsed
      ensures 9 * old(costEstimate) < TWO_TO_64 ==>
                Min(old(costEstimate), elapsed) <= costEstimate + 1 && 9 * old(costEstimate) + elapsed < 10 * costEstimate + 20
    {
      NextBelow(costEstimate, elapsed);
      costEstimate := (COST_DECAY - 1) * costEstimate % TWO_TO_64 / COST_DECAY + elapsed / COST_DECAY;
    }

    /**
     * One update after the other. With enough cheap measurements the kernel ends up as not expensive, and
     * with enough expensive ones it counts as its construction says.
     */
    method UpdateAll(costs: seq<Cycles>)
      modifies this
      ensures costEstimate == After(old(costEstimate), costs)
      ensures Cheap(costs) && (old(costEstimate) <= THRESHOLD || |costs| >= 7 * 64) ==> !IsExpensive()
      ensures Expensive(costs) && 9 * old(costEstimate) < TWO_TO_64 && (old(costEstimate) > THRESHOLD || |costs| > THRESHOLD) ==>
                IsExpensive() == expensive
    {
      for i := 0 to |costs|
        invariant costEstimate == After(old(costEstimate), costs[..i])
      {
        assert costs[..i + 1][..i] == costs[..i];
        UpdateCostEstimate(costs[i]);
      }
      assert costs[..|costs|] == costs;
      Settles(old(costEstimate), costs);
    }
  }

  function Max(x: Cycles, y: Cycles): Cycles {
    if x < y then y else x
  }

  function Min(x: Cycles, y: Cycles): Cycles {
    if x < y then x else y
  }

  ghost function After(estimate: Cycles, costs: seq<Cycles>): Cycles {
    if costs == [] then estimate else Next(After(estimate, costs[..|costs| - 1]), costs[|costs| - 1])
  }

  // ---- One step ----

  lemma NextBelow(estimate: Cycles, elapsed: Cycles)
    ensures Next(estimate, elapsed) <= 9 * estimate / 10 + elapsed / 10
    ensures 9 * estimate < TWO_TO_64 ==> Next(estimate, elapsed) == 9 * estimate / 10 + elapsed / 10
    ensures Next(estimate, elapsed) <= Max(estimate, elapsed)
    ensures 9 * estimate < TWO_TO_64 ==> Min(estimate, elapsed) <= Next(estimate, elapsed) + 1
  {
    var product := 9 * estimate;
    assert product % TWO_TO_64 <= product;
    assert product < TWO_TO_64 ==> product % TWO_TO_64 == product;
  }

  // ---- Cheap operations ----

  ghost predicate Cheap(costs: seq<Cycles>) {
    forall i :: 0 <= i < |costs| ==> costs[i] <= 5009
  }

  /** How far the estimate can be above the threshold after some cheap measurements. */
  ghost function Decay(excess: nat, steps: nat): nat {
    if steps == 0 then excess else 9 * Decay(excess, steps - 1) / 10
  }

  lemma {:induction false} ExcessDecays(estimate: Cycles, costs: seq<Cycles>)
    requires Cheap(costs)
    ensures After(estimate, costs) <= THRESHOLD + Decay(if estimate > THRESHOLD then estimate - THRESHOLD else 0, |costs|)
  {
    if costs != [] {
      var before := costs[..|costs| - 1];
      ExcessDecays(estimate, before);
      NextBelow(After(estimate, before), costs[|costs| - 1]);
    }
  }

  lemma {:induction false} DecayAdd(excess: nat, i: nat, j: nat)
    ensures Decay(excess, i + j) == Decay(Decay(excess, i), j)
  {
    if j > 0 {
      DecayAdd(excess, i, j - 1);
    }
  }

  lemma SevenHalve(excess: nat)
    ensures Decay(excess, 7) <= excess / 2
  {
    var a := 9 * excess / 10;
    var b := 9 * a / 10;
    var c := 9 * b / 10;
    var d := 9 * c / 10;
    assert Decay(excess, 1) == a;
    assert Decay(excess, 2) == b;
    assert Decay(excess, 3) == c;
    assert Decay(excess, 4) == d;
    assert Decay(excess, 5) == 9 * d / 10;
    assert Decay(excess, 6) == 9 * (9 * d / 10) / 10;
  }

  lemma {:induction false} DecayVanishes(excess: nat, k: nat)
    requires excess < Pow2(k)
    ensures Decay(excess, 7 * k) == 0
  {
    if k > 0 {
      SevenHalve(excess);
      DecayVanishes(Decay(excess, 7), k - 1);
      DecayAdd(excess, 7, 7 * (k - 1));
    }
  }

  lemma {:induction false} DecayFalls(excess: nat, i: nat, j: nat)
    requires i <= j
    ensures Decay(excess, j) <= Decay(excess, i)
  {
    if i < j {
      DecayFalls(excess, i, j - 1);
    }
  }

  /**
   * If no measurement exceeds 5009 cycles, then from any 64-bit estimate at all the operation counts as
   * cheap after 448 measurements, and from then on.
   */
  lemma CheapBecomesCheap(estimate: Cycles, costs: seq<Cycles>)
    requires Cheap(costs) && |costs| >= 7 * 64
    ensures After(estimate, costs) <= THRESHOLD
  {
    var excess := if estimate > THRESHOLD then estimate - THRESHOLD else 0;
    ExcessDecays(estimate, costs);
    SixtyFourBits();
    DecayVanishes(excess, 64);
    DecayFalls(excess, 7 * 64, |costs|);
  }

  /** An operation that counts as cheap stays cheap. */
  lemma {:induction false} CheapStaysCheap(estimate: Cycles, costs: seq<Cycles>)
    requires Cheap(costs) && estimate <= THRESHOLD
    ensures After(estimate, costs) <= THRESHOLD
  {
    if costs != [] {
      CheapStaysCheap(estimate, costs[..|costs| - 1]);
      NextBelow(After(estimate, costs[..|costs| - 1]), costs[|costs| - 1]);
    }
  }

  // ---- Expensive operations ----

  /** The bound under which no multiplication wraps. */
  ghost predicate Expensive(costs: seq<Cycles>) {
    forall i :: 0 <= i < |costs| ==> 5010 <= costs[i] && 9 * costs[i] < TWO_TO_64
  }

  lemma {:induction false} NeverWraps(estimate: Cycles, costs: seq<Cycles>)
    requires Expensive(costs) && 9 * estimate < TWO_TO_64
    ensures 9 * After(estimate, costs) < TWO_TO_64
  {
    if costs != [] {
      NeverWraps(estimate, costs[..|costs| - 1]);
      NextBelow(After(estimate, costs[..|costs| - 1]), costs[|costs| - 1]);
    }
  }

  /**
   * If every measurement is at least 5010 cycles, the estimate exceeds the threshold after 5001 of them at
   * the latest, and from then on.
   */
  lemma {:induction false} ExpensiveBecomesExpensive(estimate: Cycles, costs: seq<Cycles>)
    requires Expensive(costs) && 9 * estimate < TWO_TO_64
    ensures After(estimate, costs) > THRESHOLD || After(estimate, costs) >= estimate + |costs|
    ensures estimate > THRESHOLD || |costs| > THRESHOLD ==> After(estimate, costs) > THRESHOLD
  {
    if costs != [] {
      var before := costs[..|costs| - 1];
      ExpensiveBecomesExpensive(estimate, before);
      NeverWraps(estimate, before);
      NextBelow(After(estimate, before), costs[|costs| - 1]);
    }
  }

  /** What both kinds of measurements lead to. */
  lemma Settles(estimate: Cycles, costs: seq<Cycles>)
    ensures Cheap(costs) && (estimate <= THRESHOLD || |costs| >= 7 * 64) ==> After(estimate, costs) <= THRESHOLD
    ensures Expensive(costs) && 9 * estimate < TWO_TO_64 && (estimate > THRESHOLD || |costs| > THRESHOLD) ==>
              After(estimate, costs) > THRESHOLD
  {
    if Cheap(costs) {
      if estimate <= THRESHOLD {
        CheapStaysCheap(estimate, costs);
      } else if |costs| >= 7 * 64 {
        CheapBecomesCheap(estimate, costs);
      }
    }
    if Expensive(costs) && 9 * estimate < TWO_TO_64 {
      ExpensiveBecomesExpensive(estimate, costs);
    }
  }

  // ---- When the multiplication wraps ----

  /** The least estimate whose product with 9 wraps, to 2. */
  const WRAPPING: Cycles := 2049638230412172402

  /** The least measurement that can bring an estimate below `WRAPPING` up to it. */
  const CLIMBING: Cycles := 2049638230412172420

  ghost predicate Within(costs: seq<Cycles>, bound: nat) {
    forall i :: 0 <= i < |costs| ==> 5010 <= costs[i] <= bound
  }

  /**
   * One update: the operation goes on counting as expensive, whatever is measured from 5010 cycles on,
   * exactly if the product, wrapped or not, is at least 45000.
   */
  lemma NextStaysExpensiveIff(estimate: Cycles)
    ensures (forall e: Cycles | e >= 5010 :: Next(estimate, e) > THRESHOLD) <==> 9 * estimate % TWO_TO_64 >= 45000
  {
    var product := 9 * estimate % TWO_TO_64;
    assert Next(estimate, 5010) == product / 10 + 501;
    forall e: Cycles | e >= 5010 ensures Next(estimate, e) >= product / 10 + 501 {
    }
  }

  /** Only expensive measurements, after which the operation counts as cheap: the second product wraps. */
  lemma WrapsToCheap()
    ensures After(INITIAL, [10000000000000000000, 11496382303311724020]) == WRAPPING
    ensures After(INITIAL, [10000000000000000000, 11496382303311724020, 5010]) == 501
  {
    var costs: seq<Cycles> := [10000000000000000000, 11496382303311724020, 5010];
    assert costs[..2] == [10000000000000000000, 11496382303311724020] && costs[..2][..1] == [10000000000000000000];
    assert After(INITIAL, []) == INITIAL && costs[..2][..1][..0] == [];
    assert After(INITIAL, costs[..2][..1]) == 1000000000090000000;
    assert After(INITIAL, costs[..2]) == WRAPPING;
  }

  lemma NextWithin(estimate: Cycles, elapsed: Cycles)
    requires THRESHOLD < estimate < WRAPPING && 5010 <= elapsed < CLIMBING
    ensures THRESHOLD < Next(estimate, elapsed) < WRAPPING
  {
  }

  lemma {:induction false} RunsWithin(estimate: Cycles, costs: seq<Cycles>)
    requires THRESHOLD < estimate < WRAPPING && Within(costs, CLIMBING - 1)
    ensures THRESHOLD < After(estimate, costs) < WRAPPING
  {
    if costs != [] {
      var before := costs[..|costs| - 1];
      RunsWithin(estimate, before);
      NextWithin(After(estimate, before), costs[|costs| - 1]);
    }
  }

  lemma {:induction false} AfterFrom(estimate: Cycles, first: Cycles, rest: seq<Cycles>)
    ensures After(estimate, [first] + rest) == After(Next(estimate, first), rest)
  {
    var all := [first] + rest;
    if rest == [] {
      assert all[..0] == [];
      assert After(estimate, all[..0]) == estimate;
    } else {
      AfterFrom(estimate, first, rest[..|rest| - 1]);
      assert all[..|all| - 1] == [first] + rest[..|rest| - 1];
    }
  }

  /** Measuring the least climbing value over and over stops exactly at the least wrapping estimate. */
  ghost function Climb(estimate: Cycles): (costs: seq<Cycles>)
    requires estimate <= WRAPPING
    ensures Within(costs, CLIMBING)
    decreases WRAPPING - estimate
  {
    if estimate == WRAPPING then [] else [CLIMBING] + Climb(Next(estimate, CLIMBING))
  }

  lemma {:induction false} ClimbArrives(estimate: Cycles)
    requires estimate <= WRAPPING
    ensures After(estimate, Climb(estimate)) == WRAPPING
    decreases WRAPPING - estimate
  {
    if estimate < WRAPPING {
      ClimbArrives(Next(estimate, CLIMBING));
      AfterFrom(estimate, CLIMBING, Climb(Next(estimate, CLIMBING)));
    }
  }

  /** From the least wrapping estimate, the least expensive measurement counts as cheap. */
  lemma Falls(estimate: Cycles, costs: seq<Cycles>, bound: nat)
    requires Within(costs, bound) && bound >= 5010 && After(estimate, costs) == WRAPPING
    ensures exists longer: seq<Cycles> :: Within(longer, bound) && After(estimate, longer) <= THRESHOLD
  {
    var longer := costs + [5010];
    assert longer[..|costs|] == costs;
    assert Within(longer, bound) && After(estimate, longer) == 501;
  }

  /** The guard that `RunsStayExpensiveIff` is about. */
  predicate WrapsHarmlessly(estimate: Cycles, bound: nat) {
    var product := 9 * estimate % TWO_TO_64;
    product >= 45000 && product / 10 + bound / 10 < WRAPPING
  }

  /**
   * Over runs whose measurements lie between 5010 cycles and a bound: the operation counts as expensive
   * throughout every one of them exactly if it does so now, the bound is below the least climbing
   * value, and the present estimate does not wrap or wraps to a harmless value.
   */
  lemma RunsStayExpensiveIff(estimate: Cycles, bound: nat)
    requires bound >= 5010
    ensures (forall costs: seq<Cycles> | Within(costs, bound) :: After(estimate, costs) > THRESHOLD)
        <==> estimate > THRESHOLD && bound < CLIMBING && (estimate < WRAPPING || WrapsHarmlessly(estimate, bound))
  {
    if estimate <= THRESHOLD {
      assert Within([], bound) && After(estimate, []) <= THRESHOLD;
    } else if bound >= CLIMBING {
      ClimbingFalls(estimate, bound);
    } else if estimate < WRAPPING {
      forall costs: seq<Cycles> | Within(costs, bound) ensures After(estimate, costs) > THRESHOLD {
        RunsWithin(estimate, costs);
      }
    } else {
      WrappedIff(estimate, bound);
    }
  }

  lemma ClimbingFalls(estimate: Cycles, bound: nat)
    requires bound >= CLIMBING
    ensures exists costs: seq<Cycles> :: Within(costs, bound) && After(estimate, costs) <= THRESHOLD
  {
    if estimate <= WRAPPING {
      ClimbArrives(estimate);
      Falls(estimate, Climb(estimate), bound);
    } else {
      var lower := Next(estimate, 5010);
      var costs := [5010] + Climb(lower);
      ClimbArrives(lower);
      AfterFrom(estimate, 5010, Climb(lower));
      Falls(estimate, costs, bound);
    }
  }

  lemma AfterOne(estimate: Cycles, elapsed: Cycles)
    ensures After(estimate, [elapsed]) == Next(estimate, elapsed)
  {
    AfterFrom(estimate, elapsed, []);
    assert [elapsed] + [] == [elapsed];
  }

  lemma WrappedIff(estimate: Cycles, bound: nat)
    requires estimate >= WRAPPING && 5010 <= bound < CLIMBING
    ensures (forall costs: seq<Cycles> | Within(costs, bound) :: After(estimate, costs) > THRESHOLD)
        <==> WrapsHarmlessly(estimate, bound)
  {
    var product := 9 * estimate % TWO_TO_64;
    if product < 45000 {
      AfterOne(estimate, 5010);
      assert Within([5010], bound) && After(estimate, [5010]) <= THRESHOLD;
    } else if product / 10 + bound / 10 >= WRAPPING {
      AfterOne(estimate, bound);
      Falls(estimate, [bound], bound);
    } else {
      forall costs: seq<Cycles> | Within(costs, bound) ensures After(estimate, costs) > THRESHOLD {
        if costs != [] {
          AfterFrom(estimate, costs[0], costs[1..]);
          assert [costs[0]] + costs[1..] == costs;
          RunsWithin(Next(estimate, costs[0]), costs[1..]);
        }
      }
    }
  }

  // ---- Racing updates ----

  /** A thread that has loaded the estimate, and will store what it computes from it. */
  datatype Pending = Idle | Loaded(estimate: Cycles, elapsed: Cycles)

  datatype State = State(estimate: Cycles, pending: map<nat, Pending>)

  datatype Action = Load(thread: nat, elapsed: Cycles) | Store(thread: nat)

  ghost function Step(s: State, a: Action): State {
    match a
    case Load(t, elapsed) => s.(pending := s.pending[t := Loaded(s.estimate, elapsed)])
    case Store(t) =>
      if t in s.pending && s.pending[t].Loaded? then
        State(Next(s.pending[t].estimate, s.pending[t].elapsed), s.pending[t := Idle])
      else s
  }

  ghost function Run(s: State, actions: seq<Action>): State {
    if actions == [] then s else Step(Run(s, actions[..|actions| - 1]), actions[|actions| - 1])
  }

  ghost predicate Below(s: State, bound: nat) {
    && s.estimate <= bound
    && forall t <- s.pending :: s.pending[t].Loaded? ==> s.pending[t].estimate <= bound && s.pending[t].elapsed <= bound
  }

  /** However the updates interleave and get lost, the estimate exceeds neither the initial value nor every measurement. */
  lemma {:induction false} RacesStayBelow(s: State, actions: seq<Action>, bound: nat)
    requires Below(s, bound)
    requires forall a <- actions :: a.Load? ==> a.elapsed <= bound
    ensures Below(Run(s, actions), bound)
  {
    if actions != [] {
      var before := actions[..|actions| - 1];
      var a := actions[|actions| - 1];
      RacesStayBelow(s, before, bound);
      assert a in actions;
      var b := Run(s, before);
      if a.Store? && a.thread in b.pending && b.pending[a.thread].Loaded? {
        NextBelow(b.pending[a.thread].estimate, b.pending[a.thread].elapsed);
      }
    }
  }

  /** Neither the estimate nor what any thread is about to store exceeds the threshold. */
  ghost predicate Calm(s: State) {
    && s.estimate <= THRESHOLD
    && forall t <- s.pending :: s.pending[t].Loaded? ==> Next(s.pending[t].estimate, s.pending[t].elapsed) <= THRESHOLD
  }

  ghost predicate CheapLoads(actions: seq<Action>) {
    forall i :: 0 <= i < |actions| ==> actions[i].Load? ==> actions[i].elapsed <= 5009
  }

  lemma NotCalm(s: State, t: nat)
    requires t in s.pending && s.pending[t].Loaded? && Next(s.pending[t].estimate, s.pending[t].elapsed) > THRESHOLD
    ensures !Calm(s)
  {
  }

  lemma CalmStep(s: State, a: Action)
    requires Calm(s) && (a.Load? ==> a.elapsed <= 5009)
    ensures Calm(Step(s, a))
  {
    if a.Load? {
      NextBelow(s.estimate, a.elapsed);
    }
  }

  lemma {:induction false} StaysCalm(s: State, actions: seq<Action>)
    requires Calm(s) && CheapLoads(actions)
    ensures Calm(Run(s, actions))
  {
    if actions != [] {
      StaysCalm(s, actions[..|actions| - 1]);
      CalmStep(Run(s, actions[..|actions| - 1]), actions[|actions| - 1]);
    }
  }

  /**
   * However updates with cheap measurements race, the operation counts as cheap throughout exactly if it
   * does so now and no thread holds a value that its store would bring above the threshold.
   */
  lemma RacesStayCheapIff(s: State)
    ensures (forall actions: seq<Action> | CheapLoads(actions) :: Run(s, actions).estimate <= THRESHOLD) <==> Calm(s)
  {
    if Calm(s) {
      forall actions: seq<Action> | CheapLoads(actions) ensures Run(s, actions).estimate <= THRESHOLD {
        StaysCalm(s, actions);
      }
    } else {
      if s.estimate > THRESHOLD {
        assert CheapLoads([]) && Run(s, []) == s;
      } else {
        var t :| t in s.pending && s.pending[t].Loaded? && Next(s.pending[t].estimate, s.pending[t].elapsed) > THRESHOLD;
        assert [Store(t)][..0] == [];
        assert CheapLoads([Store(t)]) && Run(s, [Store(t)]) == Step(Run(s, []), Store(t));
      }
    }
  }

  // ---- A late store ----

  ghost function Updates(thread: nat, n: nat): seq<Action> {
    if n == 0 then [] else Updates(thread, n - 1) + [Load(thread, 0), Store(thread)]
  }

  ghost function Zeros(n: nat): (costs: seq<Cycles>)
    ensures |costs| == n && Cheap(costs)
  {
    if n == 0 then [] else Zeros(n - 1) + [0]
  }

  lemma RunTwo(s: State, before: seq<Action>, a: Action, b: Action)
    ensures Run(s, before + [a, b]) == Step(Step(Run(s, before), a), b)
  {
    var trace := before + [a, b];
    assert trace[..|trace| - 1] == before + [a];
    assert (before + [a])[..|before|] == before;
  }

  lemma UpdateAtOnce(s: State, thread: nat)
    ensures var r := Step(Step(s, Load(thread, 0)), Store(thread));
            && r.estimate == Next(s.estimate, 0)
            && forall t: nat | t != thread && t in s.pending :: t in r.pending && r.pending[t] == s.pending[t]
  {
  }

  lemma {:induction false} UpdatesRun(s: State, thread: nat, n: nat)
    ensures var r := Run(s, Updates(thread, n));
            && r.estimate == After(s.estimate, Zeros(n))
            && forall t: nat | t != thread && t in s.pending :: t in r.pending && r.pending[t] == s.pending[t]
  {
    if n > 0 {
      UpdatesRun(s, thread, n - 1);
      RunTwo(s, Updates(thread, n - 1), Load(thread, 0), Store(thread));
      UpdateAtOnce(Run(s, Updates(thread, n - 1)), thread);
      assert Zeros(n)[..n - 1] == Zeros(n - 1);
    }
  }

  lemma RunFrom(s: State, a: Action, actions: seq<Action>)
    ensures Run(s, [a] + actions) == Run(Step(s, a), actions)
  {
    var all := [a] + actions;
    if actions == [] {
      assert all[..0] == [];
      assert Run(s, all) == Step(Run(s, all[..0]), a);
    } else {
      RunFrom(s, a, actions[..|actions| - 1]);
      assert all[..|all| - 1] == [a] + actions[..|actions| - 1];
    }
  }

  /**
   * With races the settling holds only between late stores: in this run all measurements are zero, the
   * operation has come to count as cheap, and the store of a thread that loaded the initial estimate
   * makes it expensive again.
   */
  lemma LateStore()
    ensures exists actions: seq<Action>, last: Action ::
              && (forall a <- actions :: a.Load? ==> a.elapsed == 0)
              && last.Store?
              && Run(State(INITIAL, map[]), actions).estimate <= THRESHOLD && !Calm(Run(State(INITIAL, map[]), actions))
              && Run(State(INITIAL, map[]), actions + [last]).estimate > THRESHOLD
  {
    var start := State(INITIAL, map[]);
    var load := Load(0, 0);
    var loaded := Step(start, load);
    var updates := Updates(1, 7 * 64);
    var actions := [load] + updates;
    RunFrom(start, load, updates);
    UpdatesRun(loaded, 1, 7 * 64);
    CheapBecomesCheap(INITIAL, Zeros(7 * 64));
    ZeroLoads(1, 7 * 64);
    var cheap := Run(start, actions);
    assert cheap.pending[0] == Loaded(INITIAL, 0);
    NotCalm(cheap, 0);
    assert (actions + [Store(0)])[..|actions|] == actions;
    assert Run(start, actions + [Store(0)]) == Step(cheap, Store(0));
  }

  lemma {:induction false} ZeroLoads(thread: nat, n: nat)
    ensures forall a <- Updates(thread, n) :: a.Load? ==> a.elapsed == 0
  {
    if n > 0 {
      ZeroLoads(thread, n - 1);
    }
  }
}
