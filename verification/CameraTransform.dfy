/**
 * What the transform of the orbit camera does (ImageOPs/Math/OrbitControl.cpp): it turns about the
 * target, and then moves the target to its distance straight ahead.
 */
module CameraTransform {
  import opened Matrices

  datatype Maths = Maths(pi: real, angle: real -> Angle, length: Vec3 -> real, normalize: Vec3 -> Vec3) {
    ghost predicate Ok() {
      && pi > 0.0
      && (forall v: Vec3 :: length(v) >= 0.0 && length(v) * length(v) == v.Dot(v))
      && (forall v: Vec3 :: length(v) != 0.0 ==> normalize(v).Times(length(v)) == v)
    }
  }

  function Opposite(v: Vec3): Vec3 {
    Vec3(-v.x, -v.y, -v.z)
  }

  function UpAxis(pitch: Angle): Vec3 {
    Rotation4(AXIS_X, pitch).Apply(Vec4(0.0, 1.0, 0.0, 1.0)).XYZ()
  }

  /** The pitch, and then the yaw about the up axis as the pitch has left it. */
  function Turning(pitch: Angle, yaw: Angle): Mat4 {
    Rotation4(UpAxis(pitch), yaw).Mul(Rotation4(AXIS_X, pitch))
  }

  const IDENTITY := Mat4(Vec4(1.0, 0.0, 0.0, 0.0), Vec4(0.0, 1.0, 0.0, 0.0), Vec4(0.0, 0.0, 1.0, 0.0), Vec4(0.0, 0.0, 0.0, 1.0))

  // ---- Turning about a turned axis ----

  ghost function Lean(c: real, s: real, a: real, b: real): real { c * a + s * b }
  ghost function Det(a: real, b: real, c: real, d: real): real { a * d - b * c }
  ghost function Mix(a: real, b: real, e: real, u: real, v: real, w: real): real { a * u + b * v + e * w }

  /** The rotation about the x axis. */
  ghost function Pitched(c: real, s: real, v: Vec3): Vec3 {
    Vec3(v.x, Lean(c, s, v.y, v.z), Lean(c, -s, v.z, v.y))
  }

  /** The rotation about the y axis. */
  ghost function Yawed(c: real, s: real, v: Vec3): Vec3 {
    Vec3(Lean(c, -s, v.x, v.z), v.y, Lean(c, s, v.z, v.x))
  }

  lemma CombinationMix(u: Vec3, v: Vec3, w: Vec3, a: real, b: real, e: real)
    ensures Combination(u, v, w, a, b, e)
         == Vec3(Mix(a, b, e, u.x, v.x, w.x), Mix(a, b, e, u.y, v.y, w.y), Mix(a, b, e, u.z, v.z, w.z))
  {
  }

  lemma CrossDet(u: Vec3, v: Vec3)
    ensures u.Cross(v) == Vec3(Det(u.y, u.z, v.y, v.z), Det(u.z, u.x, v.z, v.x), Det(u.x, u.y, v.x, v.y))
  {
  }

  lemma PitchedIsTurn(a: Angle, v: Vec3)
    ensures Turn(AXIS_X, a, v) == Pitched(a.c, a.s, v)
  {
    CombinationCoordinates(v, AXIS_X, v.Cross(AXIS_X), a.c, Along(a.c, AXIS_X.Dot(v)), a.s);
    assert Along(a.c, AXIS_X.Dot(v)) == v.x - a.c * v.x;
  }

  lemma YawedIsTurn(a: Angle, v: Vec3)
    ensures Turn(AXIS_Y, a, v) == Yawed(a.c, a.s, v)
  {
    CombinationCoordinates(v, AXIS_Y, v.Cross(AXIS_Y), a.c, Along(a.c, AXIS_Y.Dot(v)), a.s);
    assert Along(a.c, AXIS_Y.Dot(v)) == v.y - a.c * v.y;
  }

  lemma PitchedDot(c: real, s: real, u: Vec3, v: Vec3, p: Vec3, q: Vec3)
    requires c * c + s * s == 1.0
    requires p == Pitched(c, s, u) && q == Pitched(c, s, v)
    ensures p.Dot(q) == u.Dot(v)
  {
    LeanDot(c, s, u.y, u.z, v.y, v.z, p.y, p.z, q.y, q.z);
  }

  lemma LeanDot(c: real, s: real, uy: real, uz: real, vy: real, vz: real, py: real, pz: real, qy: real, qz: real)
    requires c * c + s * s == 1.0
    requires py == Lean(c, s, uy, uz) && pz == Lean(c, -s, uz, uy) && qy == Lean(c, s, vy, vz) && qz == Lean(c, -s, vz, vy)
    ensures py * qy + pz * qz == uy * vy + uz * vz
  {
    assert py * qy + pz * qz == (c * c + s * s) * (uy * vy + uz * vz);
  }

  lemma LeanDetX(c: real, s: real, uy: real, uz: real, vy: real, vz: real, py: real, pz: real, qy: real, qz: real)
    requires c * c + s * s == 1.0
    requires py == Lean(c, s, uy, uz) && pz == Lean(c, -s, uz, uy) && qy == Lean(c, s, vy, vz) && qz == Lean(c, -s, vz, vy)
    ensures Det(py, pz, qy, qz) == Det(uy, uz, vy, vz)
  {
    assert Det(py, pz, qy, qz) == (c * c + s * s) * Det(uy, uz, vy, vz);
  }

  lemma LeanDetY(c: real, s: real, ux: real, uy: real, uz: real, vx: real, vy: real, vz: real)
    ensures Det(Lean(c, s, uz, uy), ux, Lean(c, s, vz, vy), vx) == Lean(c, -s, Det(uz, ux, vz, vx), Det(ux, uy, vx, vy))
  {
  }

  lemma LeanDetZ(c: real, s: real, ux: real, uy: real, uz: real, vx: real, vy: real, vz: real)
    ensures Det(ux, Lean(c, s, uy, uz), vx, Lean(c, s, vy, vz)) == Lean(c, -s, Det(ux, uy, vx, vy), Det(uz, ux, vz, vx))
  {
  }

  lemma PitchedCross(c: real, s: real, u: Vec3, v: Vec3)
    requires c * c + s * s == 1.0
    ensures Pitched(c, s, u).Cross(Pitched(c, s, v)) == Pitched(c, s, u.Cross(v))
  {
    var p, q := Pitched(c, s, u), Pitched(c, s, v);
    CrossDet(u, v);
    CrossDet(p, q);
    LeanDetX(c, s, u.y, u.z, v.y, v.z, p.y, p.z, q.y, q.z);
    LeanDetY(c, -s, u.x, u.y, u.z, v.x, v.y, v.z);
    LeanDetZ(c, s, u.x, u.y, u.z, v.x, v.y, v.z);
  }

  lemma LeanMix(c: real, s: real, uy: real, uz: real, vy: real, vz: real, wy: real, wz: real, a: real, b: real, e: real)
    ensures Mix(a, b, e, Lean(c, s, uy, uz), Lean(c, s, vy, vz), Lean(c, s, wy, wz))
         == Lean(c, s, Mix(a, b, e, uy, vy, wy), Mix(a, b, e, uz, vz, wz))
  {
  }

  lemma PitchedCombination(c: real, s: real, u: Vec3, v: Vec3, w: Vec3, a: real, b: real, e: real)
    ensures Combination(Pitched(c, s, u), Pitched(c, s, v), Pitched(c, s, w), a, b, e)
         == Pitched(c, s, Combination(u, v, w, a, b, e))
  {
    CombinationMix(u, v, w, a, b, e);
    CombinationMix(Pitched(c, s, u), Pitched(c, s, v), Pitched(c, s, w), a, b, e);
    LeanMix(c, s, u.y, u.z, v.y, v.z, w.y, w.z, a, b, e);
    LeanMix(c, -s, u.z, u.y, v.z, v.y, w.z, w.y, a, b, e);
  }

  /** Turning about the pitched axis, after the pitch, is turning about the axis itself, before the pitch. */
  lemma TurnCommutes(pitch: Angle, yaw: Angle, axis: Vec3, v: Vec3)
    ensures Turn(Turn(AXIS_X, pitch, axis), yaw, Turn(AXIS_X, pitch, v)) == Turn(AXIS_X, pitch, Turn(axis, yaw, v))
  {
    PitchedIsTurn(pitch, axis);
    PitchedIsTurn(pitch, v);
    PitchedIsTurn(pitch, Turn(axis, yaw, v));
    PitchedTurn(pitch, yaw, axis, v, Pitched(pitch.c, pitch.s, axis), Pitched(pitch.c, pitch.s, v));
  }

  lemma PitchedTurn(pitch: Angle, yaw: Angle, axis: Vec3, v: Vec3, p: Vec3, q: Vec3)
    requires p == Pitched(pitch.c, pitch.s, axis) && q == Pitched(pitch.c, pitch.s, v)
    ensures Turn(p, yaw, q) == Pitched(pitch.c, pitch.s, Turn(axis, yaw, v))
  {
    PitchedDot(pitch.c, pitch.s, axis, v, p, q);
    PitchedCross(pitch.c, pitch.s, v, axis);
    assert p.Dot(q) == axis.Dot(v);
    PitchedCombination(pitch.c, pitch.s, v, axis, v.Cross(axis), yaw.c, Along(yaw.c, axis.Dot(v)), yaw.s);
  }

  // ---- The rotation of the camera ----

  /** What the camera sees of a point: yaw about the world's y axis, then pitch about the x axis. */
  ghost function View(pitch: Angle, yaw: Angle, v: Vec3): Vec3 {
    Pitched(pitch.c, pitch.s, Yawed(yaw.c, yaw.s, v))
  }

  lemma UpAxisIs(pitch: Angle)
    ensures UpAxis(pitch) == Turn(AXIS_X, pitch, AXIS_Y)
  {
    assert Vec4(0.0, 1.0, 0.0, 1.0) == Point(AXIS_Y);
    RotationTurnsPoint(AXIS_X, pitch, AXIS_Y);
  }

  /** The yaw about the up axis, whatever the pitch, is a yaw about the world's y axis before the pitch. */
  lemma TurningMoves(pitch: Angle, yaw: Angle, v: Vec3)
    ensures Turning(pitch, yaw).Apply(Point(v)) == Point(View(pitch, yaw, v))
  {
    YawedIsTurn(yaw, v);
    PitchedIsTurn(pitch, Turn(AXIS_Y, yaw, v));
    MulApply(Rotation4(UpAxis(pitch), yaw), Rotation4(AXIS_X, pitch), Point(v));
    RotationTurnsPoint(AXIS_X, pitch, v);
    RotationTurnsPoint(UpAxis(pitch), yaw, Turn(AXIS_X, pitch, v));
    UpAxisIs(pitch);
    TurnCommutes(pitch, yaw, AXIS_Y, v);
  }

  function Direction(v: Vec3): Vec4 {
    Vec4(v.x, v.y, v.z, 0.0)
  }

  lemma DirectionApply(m: Mat4, r: Mat3, v: Vec3)
    requires m.c0 == Direction(r.c0) && m.c1 == Direction(r.c1) && m.c2 == Direction(r.c2)
    ensures m.Apply(Direction(v)) == Direction(r.Apply(v))
  {
    ApplyCoordinates(r, v);
    ApplyRows(m, Direction(v));
  }

  lemma RotationTurnsDirection(axis: Vec3, angle: Angle, v: Vec3)
    ensures Rotation4(axis, angle).Apply(Direction(v)) == Direction(Turn(axis, angle, v))
  {
    RotationTurns(axis, angle, v);
    DirectionApply(Rotation4(axis, angle), Rotation3(axis, angle), v);
  }

  ghost function Dot3(u: Vec3, v: Vec3): real {
    u.x * v.x + u.y * v.y + u.z * v.z
  }

  lemma UnitDots(r: Vec3)
    ensures Dot3(AXIS_X, r) == r.x && Dot3(AXIS_Y, r) == r.y && Dot3(AXIS_Z, r) == r.z
  {
  }

  lemma ApplyDots(m: Mat3, v: Vec3)
    ensures m.Apply(v) == Vec3(Dot3(v, Vec3(m.c0.x, m.c1.x, m.c2.x)), Dot3(v, Vec3(m.c0.y, m.c1.y, m.c2.y)),
                               Dot3(v, Vec3(m.c0.z, m.c1.z, m.c2.z)))
  {
  }

  lemma UnitsApply(m: Mat3)
    ensures m.Apply(AXIS_X) == m.c0 && m.Apply(AXIS_Y) == m.c1 && m.Apply(AXIS_Z) == m.c2
  {
    ApplyDots(m, AXIS_X);
    ApplyDots(m, AXIS_Y);
    ApplyDots(m, AXIS_Z);
    UnitDots(Vec3(m.c0.x, m.c1.x, m.c2.x));
    UnitDots(Vec3(m.c0.y, m.c1.y, m.c2.y));
    UnitDots(Vec3(m.c0.z, m.c1.z, m.c2.z));
  }

  lemma RotationByColumns(axis: Vec3, angle: Angle)
    ensures Rotation4(axis, angle).c0 == Direction(Turn(axis, angle, AXIS_X))
    ensures Rotation4(axis, angle).c1 == Direction(Turn(axis, angle, AXIS_Y))
    ensures Rotation4(axis, angle).c2 == Direction(Turn(axis, angle, AXIS_Z))
  {
    RotationTurns(axis, angle, AXIS_X);
    RotationTurns(axis, angle, AXIS_Y);
    RotationTurns(axis, angle, AXIS_Z);
    UnitsApply(Rotation3(axis, angle));
  }

  lemma RowAtUnits(r: Vec4)
    ensures Dot4(Vec4(1.0, 0.0, 0.0, 0.0), r) == r.x && Dot4(Vec4(0.0, 1.0, 0.0, 0.0), r) == r.y
    ensures Dot4(Vec4(0.0, 0.0, 1.0, 0.0), r) == r.z && Dot4(Vec4(0.0, 0.0, 0.0, 1.0), r) == r.w
  {
  }

  lemma AtUnits(m: Mat4)
    ensures m.Apply(Vec4(1.0, 0.0, 0.0, 0.0)) == m.c0 && m.Apply(Vec4(0.0, 1.0, 0.0, 0.0)) == m.c1
    ensures m.Apply(Vec4(0.0, 0.0, 1.0, 0.0)) == m.c2 && m.Apply(Vec4(0.0, 0.0, 0.0, 1.0)) == m.c3
  {
    ApplyRows(m, Vec4(1.0, 0.0, 0.0, 0.0));
    ApplyRows(m, Vec4(0.0, 1.0, 0.0, 0.0));
    ApplyRows(m, Vec4(0.0, 0.0, 1.0, 0.0));
    ApplyRows(m, Vec4(0.0, 0.0, 0.0, 1.0));
    RowAtUnits(RowX(m));
    RowAtUnits(RowY(m));
    RowAtUnits(RowZ(m));
    RowAtUnits(RowW(m));
  }

  lemma MulColumns(m: Mat4, t: Mat4, k0: Vec4, k1: Vec4, k2: Vec4, k3: Vec4)
    requires m.Apply(t.c0) == k0 && m.Apply(t.c1) == k1 && m.Apply(t.c2) == k2 && m.Apply(t.c3) == k3
    ensures m.Mul(t) == Mat4(k0, k1, k2, k3)
  {
  }

  ghost function TwoTurns(axis: Vec3, angle: Angle, axis2: Vec3, angle2: Angle, v: Vec3): Vec4 {
    Direction(Turn(axis, angle, Turn(axis2, angle2, v)))
  }

  lemma ProductColumns(axis: Vec3, angle: Angle, axis2: Vec3, angle2: Angle)
    ensures Rotation4(axis, angle).Mul(Rotation4(axis2, angle2))
         == Mat4(TwoTurns(axis, angle, axis2, angle2, AXIS_X), TwoTurns(axis, angle, axis2, angle2, AXIS_Y),
                 TwoTurns(axis, angle, axis2, angle2, AXIS_Z), Vec4(0.0, 0.0, 0.0, 1.0))
  {
    RotationByColumns(axis2, angle2);
    RotationTurnsDirection(axis, angle, Turn(axis2, angle2, AXIS_X));
    RotationTurnsDirection(axis, angle, Turn(axis2, angle2, AXIS_Y));
    RotationTurnsDirection(axis, angle, Turn(axis2, angle2, AXIS_Z));
    AtUnits(Rotation4(axis, angle));
    MulColumns(Rotation4(axis, angle), Rotation4(axis2, angle2),
               TwoTurns(axis, angle, axis2, angle2, AXIS_X), TwoTurns(axis, angle, axis2, angle2, AXIS_Y),
               TwoTurns(axis, angle, axis2, angle2, AXIS_Z), Vec4(0.0, 0.0, 0.0, 1.0));
  }

  /** The rotation is the pitch times the yaw about the world's y axis. */
  lemma RotationIsPitchTimesYaw(pitch: Angle, yaw: Angle)
    ensures Turning(pitch, yaw) == Rotation4(AXIS_X, pitch).Mul(Rotation4(AXIS_Y, yaw))
  {
    UpAxisIs(pitch);
    ProductColumns(UpAxis(pitch), yaw, AXIS_X, pitch);
    ProductColumns(AXIS_X, pitch, AXIS_Y, yaw);
    TurnCommutes(pitch, yaw, AXIS_Y, AXIS_X);
    TurnCommutes(pitch, yaw, AXIS_Y, AXIS_Y);
    TurnCommutes(pitch, yaw, AXIS_Y, AXIS_Z);
  }

  // ---- The transform ----

  lemma ThreeMoves(after: Vec3, pitch: Angle, yaw: Angle, before: Vec3, p: Vec3)
    ensures Translation(after).Mul(Turning(pitch, yaw)).Mul(Translation(before)).Apply(Point(p))
         == Point(View(pitch, yaw, p.Plus(before)).Plus(after))
  {
    MulApply(Translation(after).Mul(Turning(pitch, yaw)), Translation(before), Point(p));
    TranslationMoves(before, p);
    MulApply(Translation(after), Turning(pitch, yaw), Point(p.Plus(before)));
    TurningMoves(pitch, yaw, p.Plus(before));
    TranslationMoves(after, View(pitch, yaw, p.Plus(before)));
  }

  ghost function Square(v: Vec3): real {
    v.Dot(v)
  }

  lemma LeanMinus(c: real, s: real, a: real, b: real, a2: real, b2: real)
    ensures Lean(c, s, a, b) - Lean(c, s, a2, b2) == Lean(c, s, a - a2, b - b2)
  {
  }

  lemma PitchedMinus(c: real, s: real, u: Vec3, v: Vec3)
    ensures Pitched(c, s, u).Minus(Pitched(c, s, v)) == Pitched(c, s, u.Minus(v))
  {
    LeanMinus(c, s, u.y, u.z, v.y, v.z);
    LeanMinus(c, -s, u.z, u.y, v.z, v.y);
  }

  lemma YawedMinus(c: real, s: real, u: Vec3, v: Vec3)
    ensures Yawed(c, s, u).Minus(Yawed(c, s, v)) == Yawed(c, s, u.Minus(v))
  {
    LeanMinus(c, s, u.z, u.x, v.z, v.x);
    LeanMinus(c, -s, u.x, u.z, v.x, v.z);
  }

  lemma LeanSquare(c: real, s: real, a: real, b: real, p: real, q: real)
    requires c * c + s * s == 1.0 && p == Lean(c, s, a, b) && q == Lean(c, -s, b, a)
    ensures p * p + q * q == a * a + b * b
  {
    assert p * p + q * q == (c * c + s * s) * (a * a + b * b);
  }

  lemma PitchedSquare(a: Angle, v: Vec3)
    ensures Square(Pitched(a.c, a.s, v)) == Square(v)
  {
    LeanSquare(a.c, a.s, v.y, v.z, Lean(a.c, a.s, v.y, v.z), Lean(a.c, -a.s, v.z, v.y));
  }

  lemma YawedSquare(a: Angle, v: Vec3)
    ensures Square(Yawed(a.c, a.s, v)) == Square(v)
  {
    LeanSquare(a.c, a.s, v.z, v.x, Lean(a.c, a.s, v.z, v.x), Lean(a.c, -a.s, v.x, v.z));
  }

  lemma ViewKeepsDistance(pitch: Angle, yaw: Angle, u: Vec3, v: Vec3)
    ensures Square(View(pitch, yaw, u).Minus(View(pitch, yaw, v))) == Square(u.Minus(v))
  {
    YawedMinus(yaw.c, yaw.s, u, v);
    PitchedMinus(pitch.c, pitch.s, Yawed(yaw.c, yaw.s, u), Yawed(yaw.c, yaw.s, v));
    PitchedSquare(pitch, Yawed(yaw.c, yaw.s, u.Minus(v)));
    YawedSquare(yaw, u.Minus(v));
  }

  lemma MovesKeepDistance(pitch: Angle, yaw: Angle, before: Vec3, after: Vec3, p: Vec3, q: Vec3)
    ensures Square(View(pitch, yaw, p.Plus(before)).Plus(after).Minus(View(pitch, yaw, q.Plus(before)).Plus(after)))
         == Square(p.Minus(q))
  {
    ViewKeepsDistance(pitch, yaw, p.Plus(before), q.Plus(before));
    SameShift(p, q, before);
    SameShift(View(pitch, yaw, p.Plus(before)), View(pitch, yaw, q.Plus(before)), after);
  }

  lemma SameShift(u: Vec3, v: Vec3, t: Vec3)
    ensures u.Plus(t).Minus(v.Plus(t)) == u.Minus(v)
  {
  }

  lemma UnitDirection(maths: Maths, v: Vec3)
    requires maths.Ok() && v != Vec3(0.0, 0.0, 0.0)
    ensures Square(maths.normalize(v)) == 1.0 && maths.normalize(v).Times(maths.length(v)) == v
  {
    var l := maths.length(v);
    NotZero(v);
    assert l * l == v.Dot(v) && l != 0.0;
    ScaledSquare(maths.normalize(v), l, v, v.Dot(v));
  }

  lemma NotZero(v: Vec3)
    requires v != Vec3(0.0, 0.0, 0.0)
    ensures v.Dot(v) > 0.0
  {
    SquaresPositive(v.x, v.y, v.z, v.x * v.x, v.y * v.y, v.z * v.z, v.Dot(v));
  }

  lemma SquaresPositive(x: real, y: real, z: real, a: real, b: real, c: real, d: real)
    requires x != 0.0 || y != 0.0 || z != 0.0
    requires a == x * x && b == y * y && c == z * z && d == a + b + c
    ensures d > 0.0
  {
    PositiveSquare(x, a);
    PositiveSquare(y, b);
    PositiveSquare(z, c);
  }

  lemma PositiveSquare(x: real, a: real)
    requires a == x * x
    ensures a >= 0.0 && (x != 0.0 ==> a > 0.0)
  {
    if x > 0.0 {
      PositiveProduct(x, x, a);
    } else if x < 0.0 {
      PositiveProduct(-x, -x, a);
    } else {
      assert a == 0.0;
    }
  }

  lemma PositiveProduct(x: real, y: real, a: real)
    requires x > 0.0 && y > 0.0 && a == x * y
    ensures a > 0.0
  {
  }

  lemma ScaledSquare(n: Vec3, l: real, v: Vec3, k: real)
    requires n.Times(l) == v && v.Dot(v) == k && k == l * l && k > 0.0
    ensures Square(n) == 1.0
  {
    ScaledSquareScalars(l, n.x, n.y, n.z, v.x, v.y, v.z, k, Square(n));
  }

  lemma ScaledSquareScalars(l: real, nx: real, ny: real, nz: real, vx: real, vy: real, vz: real, k: real, n: real)
    requires vx == l * nx && vy == l * ny && vz == l * nz && k == l * l && k > 0.0
    requires vx * vx + vy * vy + vz * vz == k && n == nx * nx + ny * ny + nz * nz
    ensures n == 1.0
  {
    assert n * k == 1.0 * k;
    SameFactor(n, 1.0, k);
  }

  lemma ViewOfZero(pitch: Angle, yaw: Angle)
    ensures View(pitch, yaw, Vec3(0.0, 0.0, 0.0)) == Vec3(0.0, 0.0, 0.0)
  {
  }

  lemma TargetMoves(pitch: Angle, yaw: Angle, target: Vec3, after: Vec3)
    ensures View(pitch, yaw, target.Plus(Opposite(target))).Plus(after) == after
  {
    assert target.Plus(Opposite(target)) == Vec3(0.0, 0.0, 0.0);
    ViewOfZero(pitch, yaw);
  }

  lemma TurningTurnsDirection(pitch: Angle, yaw: Angle, v: Vec3)
    ensures Turning(pitch, yaw).Apply(Direction(v)) == Direction(Turn(UpAxis(pitch), yaw, Turn(AXIS_X, pitch, v)))
  {
    MulApply(Rotation4(UpAxis(pitch), yaw), Rotation4(AXIS_X, pitch), Direction(v));
    RotationTurnsDirection(AXIS_X, pitch, v);
    RotationTurnsDirection(UpAxis(pitch), yaw, Turn(AXIS_X, pitch, v));
  }

  lemma TranslationKeepsDirection(t: Vec3, v: Vec3)
    ensures Translation(t).Apply(Direction(v)) == Direction(v)
  {
  }

  // ---- The transform as a whole ----

  /** The product of the three parts. */
  ghost function TransformOf(after: Vec3, pitch: Angle, yaw: Angle, target: Vec3): Mat4 {
    Translation(after).Mul(Turning(pitch, yaw)).Mul(Translation(Opposite(target)))
  }

  /** On directions it is the pitch times the yaw about the world's y axis, whatever the up axis was. */
  lemma TransformTurns(after: Vec3, pitch: Angle, yaw: Angle, target: Vec3, v: Vec3)
    ensures TransformOf(after, pitch, yaw, target).Apply(Direction(v))
         == Rotation4(AXIS_X, pitch).Mul(Rotation4(AXIS_Y, yaw)).Apply(Direction(v))
  {
    TransformTurnsDirection(after, pitch, yaw, Opposite(target), v);
    RotationIsPitchTimesYaw(pitch, yaw);
  }

  lemma TransformTurnsDirection(after: Vec3, pitch: Angle, yaw: Angle, before: Vec3, v: Vec3)
    ensures Translation(after).Mul(Turning(pitch, yaw)).Mul(Translation(before)).Apply(Direction(v))
         == Turning(pitch, yaw).Apply(Direction(v))
  {
    MulApply(Translation(after).Mul(Turning(pitch, yaw)), Translation(before), Direction(v));
    TranslationKeepsDirection(before, v);
    MulApply(Translation(after), Turning(pitch, yaw), Direction(v));
    TurningTurnsDirection(pitch, yaw, v);
    TranslationKeepsDirection(after, Turn(UpAxis(pitch), yaw, Turn(AXIS_X, pitch, v)));
  }

  /** It preserves the distance between any two points. */
  lemma TransformKeepsDistance(after: Vec3, pitch: Angle, yaw: Angle, target: Vec3, p: Vec3, q: Vec3)
    ensures var m := TransformOf(after, pitch, yaw, target);
            Square(m.Apply(Point(p)).XYZ().Minus(m.Apply(Point(q)).XYZ())) == Square(p.Minus(q))
  {
    ThreeMoves(after, pitch, yaw, Opposite(target), p);
    ThreeMoves(after, pitch, yaw, Opposite(target), q);
    MovesKeepDistance(pitch, yaw, Opposite(target), after, p, q);
  }

  /** The target is seen straight ahead, whatever the pitch and the yaw. */
  lemma TransformOfTarget(after: Vec3, pitch: Angle, yaw: Angle, target: Vec3)
    ensures TransformOf(after, pitch, yaw, target).Apply(Point(target)) == Point(after)
  {
    ThreeMoves(after, pitch, yaw, Opposite(target), target);
    TargetMoves(pitch, yaw, target, after);
  }

  /** The direction from the camera to the target has length one, unless they coincide. */
  lemma DirectionIs(maths: Maths, target: Vec3, camera: Vec3)
    requires maths.Ok() && target != camera
    ensures var v := target.Minus(camera);
            Square(maths.normalize(v)) == 1.0 && maths.normalize(v).Times(maths.length(v)) == v
  {
    var v := target.Minus(camera);
    assert v != Vec3(0.0, 0.0, 0.0);
    UnitDirection(maths, v);
  }
}
