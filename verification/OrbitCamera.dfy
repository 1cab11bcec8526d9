/**
 * The orbit camera (ImageOPs/Math/OrbitControl.cpp), over exact real numbers. The constant pi, the
 * functions `length` and `normalize` and the pair (cos, sin) of an angle are parameters.
 */
module OrbitCamera {
  import opened Matrices
  import opened CameraTransform

  datatype Range = Range(x: real, y: real)

  function Max(a: real, b: real): real { if a < b then b else a }
  function Min(a: real, b: real): real { if b < a then b else a }

  // ---- The camera in whole steps ----

  /** Yaw in steps of pi/60, pitch in steps of pi/180. */
  datatype Orbit = Orbit(yaw: int, pitch: int, dist: real, range: Range, target: Vec3, camera: Vec3)

  datatype Command =
    | Init(target: Vec3, camera: Vec3)
    | Reset
    | RotateLeft
    | RotateRight
    | RotateUp
    | RotateDown
    | ZoomIn
    | ZoomOut
    | ToLeftNearest
    | ToRightNearest

  function MaxInt(a: int, b: int): int { if a < b then b else a }
  function MinInt(a: int, b: int): int { if b < a then b else a }

  ghost function Fresh(maths: Maths, target: Vec3, camera: Vec3): Orbit {
    var d := maths.length(target.Minus(camera));
    Orbit(0, 0, d, Range(d - 80.0, d + 80.0), target, camera)
  }

  ghost function Step(maths: Maths, o: Orbit, command: Command): Orbit {
    match command
    case Init(target, camera) => Fresh(maths, target, camera)
    case Reset => Fresh(maths, o.target, o.camera)
    case RotateLeft => o.(yaw := MaxInt(o.yaw - 1, -45))
    case RotateRight => o.(yaw := MinInt(o.yaw + 1, 45))
    case RotateUp => o.(pitch := MaxInt(o.pitch - 1, -60))
    case RotateDown => o.(pitch := MinInt(o.pitch + 1, 60))
    case ZoomIn => o.(dist := Max(o.dist - 3.0, o.range.x))
    case ZoomOut => o.(dist := Min(o.dist + 3.0, o.range.y))
    case ToLeftNearest => o.(pitch := 0, yaw := -30, dist := o.range.x)
    case ToRightNearest => o.(pitch := 0, yaw := 30, dist := o.range.x)
  }

  ghost function Run(maths: Maths, o: Orbit, commands: seq<Command>): Orbit {
    if commands == [] then o else Step(maths, Run(maths, o, commands[..|commands| - 1]), commands[|commands| - 1])
  }

  // ---- The code ----

  class OrbitControl {
    const maths: Maths

    var pitch: real
    var pitchVelocity: real
    var pitchRange: Range
    var yaw: real
    var yawVelocity: real
    var yawRange: Range
    var dist: real
    var distVelocity: real
    var distRange: Range
    var target: Vec3
    var camera: Vec3
    var perDistTranslate: Vec3
    var preTranslate: Mat4
    var aftTranslate: Mat4
    var isInitted: bool

    ghost var yawSteps: int
    ghost var pitchSteps: int

    /** The speeds and limits that the constructor sets. */
    ghost predicate Settings()
      reads `pitchVelocity, `pitchRange, `yawVelocity, `yawRange, `distVelocity
    {
      && maths.Ok()
      && pitchVelocity == maths.pi / 180.0 && pitchRange == Range(-maths.pi / 3.0, maths.pi / 3.0)
      && yawVelocity == maths.pi / 60.0 && yawRange == Range(-maths.pi * 3.0 / 4.0, maths.pi * 3.0 / 4.0)
      && distVelocity == 3.0
    }

    ghost predicate Valid()
      reads this
    {
      && Settings()
      && yaw == yawSteps as real * (maths.pi / 60.0) && pitch == pitchSteps as real * (maths.pi / 180.0)
      && perDistTranslate == maths.normalize(target.Minus(camera))
      && preTranslate == Translation(Opposite(target)) && aftTranslate == Translation(target)
    }

    ghost function State(): Orbit
      reads this
    {
      Orbit(yawSteps, pitchSteps, dist, distRange, target, camera)
    }

    /** The target and the camera have no particular value before `Init`. */
    constructor (maths: Maths)
      requires maths.Ok()
      ensures Valid() && !isInitted && this.maths == maths
    {
      this.maths := maths;
      isInitted := false;
      pitchVelocity := maths.pi / 180.0;
      pitchRange := Range(-maths.pi / 3.0, maths.pi / 3.0);
      yawVelocity := maths.pi / 60.0;
      yawRange := Range(-maths.pi * 3.0 / 4.0, maths.pi * 3.0 / 4.0);
      distVelocity := 3.0;
      new;
      DoReset();
    }

    method DoInit(target: Vec3, camera: Vec3)
      requires Valid()
      modifies this
      ensures Valid() && isInitted && State() == Fresh(maths, target, camera)
    {
      this.target := target;
      this.camera := camera;
      DoReset();
      isInitted := true;
    }

    method DoReset()
      requires Settings()
      modifies this
      ensures Valid() && isInitted == old(isInitted) && State() == Fresh(maths, old(target), old(camera))
    {
      pitch := 0.0;
      yaw := 0.0;
      dist := maths.length(target.Minus(camera));
      distRange := Range(dist - 80.0, dist + 80.0);
      perDistTranslate := maths.normalize(target.Minus(camera));
      preTranslate := Translation(Opposite(target));
      aftTranslate := Translation(target);
      yawSteps, pitchSteps := 0, 0;
    }

    method DoRotateLeft()
      requires Valid()
      modifies this
      ensures Valid() && isInitted == old(isInitted) && State() == Step(maths, old(State()), RotateLeft)
    {
      var newYaw := yaw - yawVelocity;
      yaw := Max(newYaw, yawRange.x);
      LowerBound(old(yaw), yawSteps, yawRange.x, 45, maths.pi / 60.0);
      yawSteps := MaxInt(yawSteps - 1, -45);
    }

    method DoRotateRight()
      requires Valid()
      modifies this
      ensures Valid() && isInitted == old(isInitted) && State() == Step(maths, old(State()), RotateRight)
    {
      var newYaw := yaw + yawVelocity;
      yaw := Min(newYaw, yawRange.y);
      UpperBound(old(yaw), yawSteps, yawRange.y, 45, maths.pi / 60.0);
      yawSteps := MinInt(yawSteps + 1, 45);
    }

    method DoRotateUp()
      requires Valid()
      modifies this
      ensures Valid() && isInitted == old(isInitted) && State() == Step(maths, old(State()), RotateUp)
    {
      var newPitch := pitch - pitchVelocity;
      pitch := Max(newPitch, pitchRange.x);
      LowerBound(old(pitch), pitchSteps, pitchRange.x, 60, maths.pi / 180.0);
      pitchSteps := MaxInt(pitchSteps - 1, -60);
    }

    method DoRotateDown()
      requires Valid()
      modifies this
      ensures Valid() && isInitted == old(isInitted) && State() == Step(maths, old(State()), RotateDown)
    {
      var newPitch := pitch + pitchVelocity;
      pitch := Min(newPitch, pitchRange.y);
      UpperBound(old(pitch), pitchSteps, pitchRange.y, 60, maths.pi / 180.0);
      pitchSteps := MinInt(pitchSteps + 1, 60);
    }

    method DoZoomIn()
      requires Valid()
      modifies this
      ensures Valid() && isInitted == old(isInitted) && State() == Step(maths, old(State()), ZoomIn)
    {
      var newDist := dist - distVelocity;
      dist := Max(newDist, distRange.x);
    }

    method DoZoomOut()
      requires Valid()
      modifies this
      ensures Valid() && isInitted == old(isInitted) && State() == Step(maths, old(State()), ZoomOut)
    {
      var newDist := dist + distVelocity;
      dist := Min(newDist, distRange.y);
    }

    method DoToLeftNearest()
      requires Valid()
      modifies this
      ensures Valid() && isInitted == old(isInitted) && State() == Step(maths, old(State()), ToLeftNearest)
    {
      pitch := 0.0;
      yaw := -(maths.pi / 2.0);
      dist := distRange.x;
      yawSteps, pitchSteps := -30, 0;
    }

    method DoToRightNearest()
      requires Valid()
      modifies this
      ensures Valid() && isInitted == old(isInitted) && State() == Step(maths, old(State()), ToRightNearest)
    {
      pitch := 0.0;
      yaw := maths.pi / 2.0;
      dist := distRange.x;
      yawSteps, pitchSteps := 30, 0;
    }

    method Perform(command: Command)
      requires Valid()
      modifies this
      ensures Valid() && isInitted == (old(isInitted) || command.Init?) && State() == Step(maths, old(State()), command)
    {
      match command
      case Init(target, camera) => DoInit(target, camera);
      case Reset => DoReset();
      case RotateLeft => DoRotateLeft();
      case RotateRight => DoRotateRight();
      case RotateUp => DoRotateUp();
      case RotateDown => DoRotateDown();
      case ZoomIn => DoZoomIn();
      case ZoomOut => DoZoomOut();
      case ToLeftNearest => DoToLeftNearest();
      case ToRightNearest => DoToRightNearest();
    }

    /** A whole session of the camera. */
    method Session(commands: seq<Command>)
      requires Valid() && isInitted
      modifies this
      ensures Valid() && isInitted && State() == Run(maths, old(State()), commands)
    {
      for i := 0 to |commands|
        invariant Valid() && isInitted && State() == Run(maths, old(State()), commands[..i])
      {
        assert commands[..i + 1][..i] == commands[..i];
        Perform(commands[i]);
      }
      assert commands[..|commands|] == commands;
    }

    /** Before `Init` the identity. */
    method GetTransform() returns (transform: Mat4)
      requires Valid()
      ensures transform == if isInitted
                           then TransformOf(maths.normalize(target.Minus(camera)).Times(dist), maths.angle(pitch), maths.angle(yaw), target)
                           else IDENTITY
    {
      if isInitted {
        var translateVector := perDistTranslate.Times(dist);
        var translate := Translation(translateVector);
        var rotationPitch := Rotation4(AXIS_X, maths.angle(pitch));
        var upAxisY := rotationPitch.Apply(Vec4(0.0, 1.0, 0.0, 1.0)).XYZ();
        var rotationYaw := Rotation4(upAxisY, maths.angle(yaw));
        var rotation := rotationYaw.Mul(rotationPitch);
        transform := translate.Mul(rotation).Mul(preTranslate);
      } else {
        transform := IDENTITY;
      }
    }
  }

  lemma LowerBound(value: real, steps: int, low: real, bound: int, unit: real)
    requires unit > 0.0 && value == steps as real * unit && low == -bound as real * unit
    ensures Max(value - unit, low) == MaxInt(steps - 1, -bound) as real * unit
  {
    if steps - 1 < -bound {
      Monotone(steps - 1, -bound, unit);
    } else {
      Monotone(-bound, steps - 1, unit);
    }
  }

  lemma UpperBound(value: real, steps: int, high: real, bound: int, unit: real)
    requires unit > 0.0 && value == steps as real * unit && high == bound as real * unit
    ensures Min(value + unit, high) == MinInt(steps + 1, bound) as real * unit
  {
    if bound < steps + 1 {
      Monotone(bound, steps + 1, unit);
    } else {
      Monotone(steps + 1, bound, unit);
    }
  }

  lemma Monotone(a: int, b: int, unit: real)
    requires unit > 0.0 && a <= b
    ensures a as real * unit <= b as real * unit
  {
  }

  // ---- Every run ----

  ghost predicate InRange(maths: Maths, o: Orbit) {
    && -45 <= o.yaw <= 45
    && -60 <= o.pitch <= 60
    && o.range.x <= o.dist <= o.range.y
    && o.range == Range(maths.length(o.target.Minus(o.camera)) - 80.0, maths.length(o.target.Minus(o.camera)) + 80.0)
  }

  /** In every run after `Init`, yaw, pitch and distance stay in range. */
  lemma {:induction false} RunInRange(maths: Maths, target: Vec3, camera: Vec3, commands: seq<Command>)
    ensures InRange(maths, Run(maths, Fresh(maths, target, camera), commands))
  {
    if commands != [] {
      RunInRange(maths, target, camera, commands[..|commands| - 1]);
    }
  }

  ghost function Repeat(command: Command, n: nat): seq<Command> {
    if n == 0 then [] else Repeat(command, n - 1) + [command]
  }

  lemma RunOne(maths: Maths, o: Orbit, commands: seq<Command>, command: Command)
    ensures Run(maths, o, commands + [command]) == Step(maths, Run(maths, o, commands), command)
  {
    assert (commands + [command])[..|commands|] == commands;
  }

  ghost function Moved(o: Orbit, command: Command, n: nat): Orbit {
    match command
    case RotateLeft => o.(yaw := MaxInt(o.yaw - n, -45))
    case RotateRight => o.(yaw := MinInt(o.yaw + n, 45))
    case RotateUp => o.(pitch := MaxInt(o.pitch - n, -60))
    case RotateDown => o.(pitch := MinInt(o.pitch + n, 60))
    case ZoomIn => o.(dist := Max(o.dist - 3.0 * n as real, o.range.x))
    case ZoomOut => o.(dist := Min(o.dist + 3.0 * n as real, o.range.y))
    case _ => o
  }

  ghost predicate Moves(command: Command) {
    !command.Init? && !command.Reset? && !command.ToLeftNearest? && !command.ToRightNearest?
  }

  lemma OneMoreMove(maths: Maths, o: Orbit, command: Command, n: nat)
    requires InRange(maths, o) && Moves(command) && n > 0
    ensures Step(maths, Moved(o, command, n - 1), command) == Moved(o, command, n)
  {
  }

  ghost function Repeated(maths: Maths, o: Orbit, command: Command, n: nat): Orbit {
    if n == 0 then o else Step(maths, Repeated(maths, o, command, n - 1), command)
  }

  lemma {:induction false} RepeatedMoves(maths: Maths, o: Orbit, command: Command, n: nat)
    requires InRange(maths, o) && Moves(command)
    ensures Repeated(maths, o, command, n) == Moved(o, command, n)
  {
    if n > 0 {
      RepeatedMoves(maths, o, command, n - 1);
      OneMoreMove(maths, o, command, n);
    }
  }

  lemma {:induction false} RunRepeat(maths: Maths, o: Orbit, command: Command, n: nat)
    ensures Run(maths, o, Repeat(command, n)) == Repeated(maths, o, command, n)
  {
    if n > 0 {
      RunRepeat(maths, o, command, n - 1);
      RunOne(maths, o, Repeat(command, n - 1), command);
    }
  }

  /** Repeating a command moves step by step, up to the bound. */
  lemma RepeatMoves(maths: Maths, o: Orbit, command: Command, n: nat)
    requires InRange(maths, o) && Moves(command)
    ensures Run(maths, o, Repeat(command, n)) == Moved(o, command, n)
  {
    RunRepeat(maths, o, command, n);
    RepeatedMoves(maths, o, command, n);
  }

  ghost function Enough(command: Command): nat {
    if command.RotateLeft? || command.RotateRight? then 90
    else if command.RotateUp? || command.RotateDown? then 120
    else 54
  }

  ghost function AtBound(o: Orbit, command: Command): Orbit {
    match command
    case RotateLeft => o.(yaw := -45)
    case RotateRight => o.(yaw := 45)
    case RotateUp => o.(pitch := -60)
    case RotateDown => o.(pitch := 60)
    case ZoomIn => o.(dist := o.range.x)
    case ZoomOut => o.(dist := o.range.y)
    case _ => o
  }

  /** 90 turns, 120 tilts or 54 zooms always reach the bound, wherever a run has left the camera. */
  lemma BoundReached(maths: Maths, target: Vec3, camera: Vec3, commands: seq<Command>, command: Command)
    requires Moves(command)
    ensures var o := Run(maths, Fresh(maths, target, camera), commands);
            Run(maths, o, Repeat(command, Enough(command))) == AtBound(o, command)
  {
    RunInRange(maths, target, camera, commands);
    RepeatMoves(maths, Run(maths, Fresh(maths, target, camera), commands), command, Enough(command));
  }

  /** After `Init`, and after `Reset`, the camera looks straight ahead from where it was put. */
  lemma StartsAhead(maths: Maths, o: Orbit, target: Vec3, camera: Vec3)
    ensures var r := Step(maths, o, Init(target, camera));
            && r.yaw == 0 && r.pitch == 0 && r.target == target && r.camera == camera
            && r.dist == maths.length(target.Minus(camera)) && r.range == Range(r.dist - 80.0, r.dist + 80.0)
    ensures Step(maths, o, Reset) == Step(maths, o, Init(o.target, o.camera))
  {
  }

  lemma {:induction false} RunAppend(maths: Maths, o: Orbit, a: seq<Command>, b: seq<Command>)
    ensures Run(maths, o, a + b) == Run(maths, Run(maths, o, a), b)
  {
    if b == [] {
      assert a + b == a;
    } else {
      assert (a + b)[..|a + b| - 1] == a + b[..|b| - 1];
      RunAppend(maths, o, a, b[..|b| - 1]);
    }
  }

  lemma RunSingle(maths: Maths, o: Orbit, command: Command)
    ensures Run(maths, o, [command]) == Step(maths, o, command)
  {
    assert [command][..0] == [];
  }

  ghost function YawAfter(turn: Command, turns: nat): int {
    if turn.RotateLeft? then -(turns as int) else turns
  }

  /** Turning as far as `n` steps within the range. */
  lemma Turned(maths: Maths, o: Orbit, turn: Command, n: nat)
    requires InRange(maths, o) && o.yaw == 0 && n <= 45 && (turn.RotateLeft? || turn.RotateRight?)
    ensures Run(maths, o, Repeat(turn, n)) == o.(yaw := YawAfter(turn, n))
  {
    RepeatMoves(maths, o, turn, n);
  }

  lemma ZoomedIn(maths: Maths, o: Orbit, n: nat)
    requires InRange(maths, o) && o.dist - 3.0 * n as real <= o.range.x
    ensures Run(maths, o, Repeat(ZoomIn, n)) == o.(dist := o.range.x)
  {
    RepeatMoves(maths, o, ZoomIn, n);
  }

  lemma ResetInRange(maths: Maths, o: Orbit)
    requires InRange(maths, o)
    ensures var r := Step(maths, o, Reset);
            InRange(maths, r) && r.range == o.range && r.dist == o.range.x + 80.0
            && r == o.(yaw := 0, pitch := 0, dist := o.range.x + 80.0)
  {
  }

  lemma ResetTurned(maths: Maths, o: Orbit, turn: Command, turns: nat)
    requires InRange(maths, o) && (turn.RotateLeft? || turn.RotateRight?) && turns <= 45
    ensures var turned := o.(yaw := YawAfter(turn, turns), pitch := 0, dist := o.range.x + 80.0);
            Run(maths, o, [Reset] + Repeat(turn, turns)) == turned && InRange(maths, turned)
  {
    ResetInRange(maths, o);
    RunSingle(maths, o, Reset);
    RunAppend(maths, o, [Reset], Repeat(turn, turns));
    Turned(maths, Step(maths, o, Reset), turn, turns);
  }

  /** Straight ahead, a number of turns one way, and a number of zooms in. */
  ghost function ResetThen(turn: Command, turns: nat, zooms: nat): seq<Command> {
    [Reset] + Repeat(turn, turns) + Repeat(ZoomIn, zooms)
  }

  lemma ResetThenIs(maths: Maths, o: Orbit, turn: Command, turns: nat, zooms: nat)
    requires InRange(maths, o) && (turn.RotateLeft? || turn.RotateRight?) && turns <= 45 && zooms >= 27
    ensures Run(maths, o, ResetThen(turn, turns, zooms)) == o.(yaw := YawAfter(turn, turns), pitch := 0, dist := o.range.x)
  {
    ResetTurned(maths, o, turn, turns);
    RunAppend(maths, o, [Reset] + Repeat(turn, turns), Repeat(ZoomIn, zooms));
    ZoomedIn(maths, o.(yaw := YawAfter(turn, turns), pitch := 0, dist := o.range.x + 80.0), zooms);
  }

  lemma NearestIs(maths: Maths, o: Orbit, nearest: Command, turn: Command, turns: nat, zooms: nat)
    requires InRange(maths, o) && turns == 30 && zooms >= 27
    requires (nearest.ToLeftNearest? && turn.RotateLeft?) || (nearest.ToRightNearest? && turn.RotateRight?)
    ensures Run(maths, o, [nearest]) == Run(maths, o, ResetThen(turn, turns, zooms))
  {
    ResetThenIs(maths, o, turn, turns, zooms);
    RunSingle(maths, o, nearest);
  }

  /**
   * Whatever went before, `ToLeftNearest` is a reset, 30 turns to the left, which make a right angle,
   * and zooming in to the near bound, which 27 steps reach; `ToRightNearest` is its mirror image.
   */
  lemma ToNearest(maths: Maths, target: Vec3, camera: Vec3, commands: seq<Command>, turns: nat, zooms: nat)
    requires turns == 30 && zooms >= 27
    ensures var o := Run(maths, Fresh(maths, target, camera), commands);
            && Run(maths, o, [ToLeftNearest]) == Run(maths, o, ResetThen(RotateLeft, turns, zooms))
            && Run(maths, o, [ToRightNearest]) == Run(maths, o, ResetThen(RotateRight, turns, zooms))
  {
    var o := Run(maths, Fresh(maths, target, camera), commands);
    RunInRange(maths, target, camera, commands);
    NearestIs(maths, o, ToLeftNearest, RotateLeft, turns, zooms);
    NearestIs(maths, o, ToRightNearest, RotateRight, turns, zooms);
  }

  /** No run brings the camera to the target, or through it, exactly when it starts farther than 80 away. */
  lemma NeverThroughTarget(maths: Maths, target: Vec3, camera: Vec3)
    ensures (forall commands: seq<Command> | (forall c <- commands :: !c.Init?) ::
               Run(maths, Fresh(maths, target, camera), commands).dist > 0.0)
            <==> maths.length(target.Minus(camera)) > 80.0
  {
    var start := Fresh(maths, target, camera);
    forall commands: seq<Command> | forall c <- commands :: !c.Init?
      ensures Run(maths, start, commands).range == start.range
    {
      SameRange(maths, target, camera, commands);
    }
    forall commands: seq<Command> ensures InRange(maths, Run(maths, start, commands)) {
      RunInRange(maths, target, camera, commands);
    }
    var nearest: seq<Command> := [ToLeftNearest];
    assert nearest[..0] == [];
    assert Run(maths, start, nearest) == Step(maths, start, ToLeftNearest);
  }

  lemma {:induction false} SameRange(maths: Maths, target: Vec3, camera: Vec3, commands: seq<Command>)
    requires forall c <- commands :: !c.Init?
    ensures var o := Run(maths, Fresh(maths, target, camera), commands);
            o.range == Fresh(maths, target, camera).range && o.target == target && o.camera == camera
  {
    if commands != [] {
      SameRange(maths, target, camera, commands[..|commands| - 1]);
    }
  }
}
