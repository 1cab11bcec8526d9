/**
 * Rotation matrices and Euler angles (ImageOPs/Math/MathUtilities.cpp), over exact real numbers.
 * An angle is the pair of its cosine and sine; matrices are given by their columns.
 */
module Matrices {
  datatype Pair = Pair(c: real, s: real)

  type Angle = a: Pair | a.c * a.c + a.s * a.s == 1.0 witness Pair(1.0, 0.0)

  const ZERO: Angle := Pair(1.0, 0.0)

  function Negate(a: Angle): Angle {
    Pair(a.c, -a.s)
  }

  datatype Vec3 = Vec3(x: real, y: real, z: real) {
    function Plus(v: Vec3): Vec3 { Vec3(x + v.x, y + v.y, z + v.z) }
    function Minus(v: Vec3): Vec3 { Vec3(x - v.x, y - v.y, z - v.z) }
    function Times(k: real): Vec3 { Vec3(k * x, k * y, k * z) }
    function Dot(v: Vec3): real { x * v.x + y * v.y + z * v.z }
    function Cross(v: Vec3): Vec3 { Vec3(y * v.z - z * v.y, z * v.x - x * v.z, x * v.y - y * v.x) }
  }

  datatype Vec4 = Vec4(x: real, y: real, z: real, w: real) {
    function Plus(v: Vec4): Vec4 { Vec4(x + v.x, y + v.y, z + v.z, w + v.w) }
    function Times(k: real): Vec4 { Vec4(k * x, k * y, k * z, k * w) }
    function XYZ(): Vec3 { Vec3(x, y, z) }
  }

  function Point(v: Vec3): Vec4 { Vec4(v.x, v.y, v.z, 1.0) }

  datatype Mat3 = Mat3(c0: Vec3, c1: Vec3, c2: Vec3) {
    function Apply(v: Vec3): Vec3 { c0.Times(v.x).Plus(c1.Times(v.y)).Plus(c2.Times(v.z)) }
    function Mul(m: Mat3): Mat3 { Mat3(Apply(m.c0), Apply(m.c1), Apply(m.c2)) }
  }

  datatype Mat4 = Mat4(c0: Vec4, c1: Vec4, c2: Vec4, c3: Vec4) {
    function Apply(v: Vec4): Vec4 { c0.Times(v.x).Plus(c1.Times(v.y)).Plus(c2.Times(v.z)).Plus(c3.Times(v.w)) }
    function Mul(m: Mat4): Mat4 { Mat4(Apply(m.c0), Apply(m.c1), Apply(m.c2), Apply(m.c3)) }
    function Rotate(): Mat3 { Mat3(c0.XYZ(), c1.XYZ(), c2.XYZ()) }
    predicate Affine() { c0.w == 0.0 && c1.w == 0.0 && c2.w == 0.0 && c3.w == 1.0 }
  }

  // ---- The builders ----

  function Translation(t: Vec3): Mat4 {
    Mat4(Vec4(1.0, 0.0, 0.0, 0.0), Vec4(0.0, 1.0, 0.0, 0.0), Vec4(0.0, 0.0, 1.0, 0.0), Vec4(t.x, t.y, t.z, 1.0))
  }

  function Diagonal(a: real, c: real): real {
    a * a + (1.0 - a * a) * c
  }

  function Beside(a: real, b: real, c: real): real {
    a * b * (1.0 - c)
  }

  function Rotation4(axis: Vec3, angle: Angle): Mat4 {
    var c, s := angle.c, angle.s;
    Mat4(Vec4(Diagonal(axis.x, c), Beside(axis.x, axis.y, c) - axis.z * s, Beside(axis.x, axis.z, c) + axis.y * s, 0.0),
         Vec4(Beside(axis.x, axis.y, c) + axis.z * s, Diagonal(axis.y, c), Beside(axis.y, axis.z, c) - axis.x * s, 0.0),
         Vec4(Beside(axis.x, axis.z, c) - axis.y * s, Beside(axis.y, axis.z, c) + axis.x * s, Diagonal(axis.z, c), 0.0),
         Vec4(0.0, 0.0, 0.0, 1.0))
  }

  function Rotation3(axis: Vec3, angle: Angle): Mat3 {
    var c, s := angle.c, angle.s;
    Mat3(Vec3(Diagonal(axis.x, c), Beside(axis.x, axis.y, c) - axis.z * s, Beside(axis.x, axis.z, c) + axis.y * s),
         Vec3(Beside(axis.x, axis.y, c) + axis.z * s, Diagonal(axis.y, c), Beside(axis.y, axis.z, c) - axis.x * s),
         Vec3(Beside(axis.x, axis.z, c) - axis.y * s, Beside(axis.y, axis.z, c) + axis.x * s, Diagonal(axis.z, c)))
  }

  const AXIS_X := Vec3(1.0, 0.0, 0.0)
  const AXIS_Y := Vec3(0.0, 1.0, 0.0)
  const AXIS_Z := Vec3(0.0, 0.0, 1.0)

  datatype Angles = Angles(x: Angle, y: Angle, z: Angle)

  function ThreeAxis(a: Angles): Mat3 {
    Rotation3(AXIS_Z, a.z).Mul(Rotation3(AXIS_Y, a.y)).Mul(Rotation3(AXIS_X, a.x))
  }

  // ---- Axis-angle rotations ----

  ghost function Combination(u: Vec3, v: Vec3, w: Vec3, a: real, b: real, e: real): Vec3 {
    u.Times(a).Plus(v.Times(b)).Plus(w.Times(e))
  }

  ghost function Along(c: real, d: real): real {
    (1.0 - c) * d
  }

  /** A rotation by minus the angle, in Rodrigues' form. */
  ghost function Turn(axis: Vec3, angle: Angle, v: Vec3): Vec3 {
    Combination(v, axis, v.Cross(axis), angle.c, Along(angle.c, axis.Dot(v)), angle.s)
  }

  lemma ApplyCoordinates(m: Mat3, v: Vec3)
    ensures m.Apply(v) == Vec3(v.x * m.c0.x + v.y * m.c1.x + v.z * m.c2.x,
                               v.x * m.c0.y + v.y * m.c1.y + v.z * m.c2.y,
                               v.x * m.c0.z + v.y * m.c1.z + v.z * m.c2.z)
  {
  }

  lemma CombinationCoordinates(u: Vec3, v: Vec3, w: Vec3, a: real, b: real, e: real)
    ensures Combination(u, v, w, a, b, e)
         == Vec3(a * u.x + b * v.x + e * w.x, a * u.y + b * v.y + e * w.y, a * u.z + b * v.z + e * w.z)
  {
  }

  lemma RowTurns(x: real, y: real, z: real, c: real, s: real, vx: real, vy: real, vz: real,
                 e0: real, e1: real, e2: real, w: real, d: real, k: real)
    requires e0 == Diagonal(x, c) && e1 == Beside(x, y, c) + z * s && e2 == Beside(x, z, c) - y * s
    requires w == vy * z - vz * y && d == x * vx + y * vy + z * vz && k == Along(c, d)
    ensures vx * e0 + vy * e1 + vz * e2 == c * vx + k * x + s * w
  {
  }

  /** The entries of a rotation matrix, row by row. */
  ghost predicate HasEntries(m: Mat3, axis: Vec3, c: real, s: real) {
    && m.c0.x == Diagonal(axis.x, c) && m.c1.y == Diagonal(axis.y, c) && m.c2.z == Diagonal(axis.z, c)
    && m.c1.x == Beside(axis.x, axis.y, c) + axis.z * s && m.c2.x == Beside(axis.x, axis.z, c) - axis.y * s
    && m.c2.y == Beside(axis.y, axis.z, c) + axis.x * s && m.c0.y == Beside(axis.y, axis.x, c) - axis.z * s
    && m.c0.z == Beside(axis.z, axis.x, c) + axis.y * s && m.c1.z == Beside(axis.z, axis.y, c) - axis.x * s
  }

  /** The cross and dot products of a vector with the axis. */
  ghost predicate HasProducts(axis: Vec3, v: Vec3, w: Vec3, d: real) {
    && w.x == v.y * axis.z - v.z * axis.y && w.y == v.z * axis.x - v.x * axis.z && w.z == v.x * axis.y - v.y * axis.x
    && d == axis.x * v.x + axis.y * v.y + axis.z * v.z
    && d == axis.y * v.y + axis.z * v.z + axis.x * v.x
    && d == axis.z * v.z + axis.x * v.x + axis.y * v.y
  }

  lemma TurnsX(m: Mat3, axis: Vec3, c: real, s: real, v: Vec3, w: Vec3, d: real, k: real)
    requires HasEntries(m, axis, c, s) && HasProducts(axis, v, w, d) && k == Along(c, d)
    ensures m.Apply(v).x == Combination(v, axis, w, c, k, s).x
  {
    ApplyCoordinates(m, v);
    CombinationCoordinates(v, axis, w, c, k, s);
    RowTurns(axis.x, axis.y, axis.z, c, s, v.x, v.y, v.z, m.c0.x, m.c1.x, m.c2.x, w.x, d, k);
  }

  lemma TurnsY(m: Mat3, axis: Vec3, c: real, s: real, v: Vec3, w: Vec3, d: real, k: real)
    requires HasEntries(m, axis, c, s) && HasProducts(axis, v, w, d) && k == Along(c, d)
    ensures m.Apply(v).y == Combination(v, axis, w, c, k, s).y
  {
    ApplyCoordinates(m, v);
    CombinationCoordinates(v, axis, w, c, k, s);
    RowTurns(axis.y, axis.z, axis.x, c, s, v.y, v.z, v.x, m.c1.y, m.c2.y, m.c0.y, w.y, d, k);
  }

  lemma TurnsZ(m: Mat3, axis: Vec3, c: real, s: real, v: Vec3, w: Vec3, d: real, k: real)
    requires HasEntries(m, axis, c, s) && HasProducts(axis, v, w, d) && k == Along(c, d)
    ensures m.Apply(v).z == Combination(v, axis, w, c, k, s).z
  {
    ApplyCoordinates(m, v);
    CombinationCoordinates(v, axis, w, c, k, s);
    RowTurns(axis.z, axis.x, axis.y, c, s, v.z, v.x, v.y, m.c2.z, m.c0.z, m.c1.z, w.z, d, k);
  }

  lemma BesideSymmetric(a: real, b: real, c: real)
    ensures Beside(a, b, c) == Beside(b, a, c)
  {
  }

  lemma TurnIs(axis: Vec3, angle: Angle, v: Vec3, d: real, k: real)
    requires d == axis.Dot(v) && k == Along(angle.c, d)
    ensures Turn(axis, angle, v) == Combination(v, axis, v.Cross(axis), angle.c, k, angle.s)
  {
  }

  lemma RotationEntries(axis: Vec3, angle: Angle)
    ensures HasEntries(Rotation3(axis, angle), axis, angle.c, angle.s)
  {
    BesideSymmetric(axis.x, axis.y, angle.c);
    BesideSymmetric(axis.y, axis.z, angle.c);
    BesideSymmetric(axis.x, axis.z, angle.c);
  }

  lemma ProductEntries(axis: Vec3, v: Vec3)
    ensures HasProducts(axis, v, v.Cross(axis), axis.Dot(v))
  {
  }

  lemma TurnsAll(m: Mat3, axis: Vec3, c: real, s: real, v: Vec3, w: Vec3, d: real, k: real)
    requires HasEntries(m, axis, c, s) && HasProducts(axis, v, w, d) && k == Along(c, d)
    ensures m.Apply(v) == Combination(v, axis, w, c, k, s)
  {
    TurnsX(m, axis, c, s, v, w, d, k);
    TurnsY(m, axis, c, s, v, w, d, k);
    TurnsZ(m, axis, c, s, v, w, d, k);
  }

  /** The matrix written out entry by entry is Rodrigues' rotation. */
  lemma RotationTurns(axis: Vec3, angle: Angle, v: Vec3)
    ensures Rotation3(axis, angle).Apply(v) == Turn(axis, angle, v)
  {
    var w, d := v.Cross(axis), axis.Dot(v);
    var k := Along(angle.c, d);
    RotationEntries(axis, angle);
    ProductEntries(axis, v);
    TurnIs(axis, angle, v, d, k);
    TurnsAll(Rotation3(axis, angle), axis, angle.c, angle.s, v, w, d, k);
  }

  lemma SquareOfSum(t: real, a: real, b: real, e: real, u: real, v: real, w: real)
    requires t == a * u + b * v + e * w
    ensures t * t == a * a * (u * u) + b * b * (v * v) + e * e * (w * w)
                     + 2.0 * (a * b) * (u * v) + 2.0 * (a * e) * (u * w) + 2.0 * (b * e) * (v * w)
  {
  }

  lemma CrossSquare(vx: real, vy: real, vz: real, nx: real, ny: real, nz: real, wx: real, wy: real, wz: real,
                    vv: real, nn: real, ww: real, d: real)
    requires wx == vy * nz - vz * ny && wy == vz * nx - vx * nz && wz == vx * ny - vy * nx
    requires vv == vx * vx + vy * vy + vz * vz && nn == nx * nx + ny * ny + nz * nz
    requires ww == wx * wx + wy * wy + wz * wz && d == nx * vx + ny * vy + nz * vz
    ensures ww == vv * nn - d * d
    ensures vx * wx + vy * wy + vz * wz == 0.0 && nx * wx + ny * wy + nz * wz == 0.0
  {
  }

  lemma SumOfSquares(a: real, b: real, e: real, t: Vec3, u: Vec3, v: Vec3, w: Vec3,
                     uu: real, vv: real, ww: real, uv: real, uw: real, vw: real)
    requires t.x == a * u.x + b * v.x + e * w.x && t.y == a * u.y + b * v.y + e * w.y && t.z == a * u.z + b * v.z + e * w.z
    requires uu == u.x * u.x + u.y * u.y + u.z * u.z && vv == v.x * v.x + v.y * v.y + v.z * v.z
    requires ww == w.x * w.x + w.y * w.y + w.z * w.z && uv == u.x * v.x + u.y * v.y + u.z * v.z
    requires uw == u.x * w.x + u.y * w.y + u.z * w.z && vw == v.x * w.x + v.y * w.y + v.z * w.z
    ensures t.x * t.x + t.y * t.y + t.z * t.z
         == a * a * uu + b * b * vv + e * e * ww + 2.0 * (a * b) * uv + 2.0 * (a * e) * uw + 2.0 * (b * e) * vw
  {
    SquareOfSum(t.x, a, b, e, u.x, v.x, w.x);
    SquareOfSum(t.y, a, b, e, u.y, v.y, w.y);
    SquareOfSum(t.z, a, b, e, u.z, v.z, w.z);
  }

  lemma LengthAlgebra(c: real, s: real, d: real, k: real, vv: real, ww: real, tt: real)
    requires c * c + s * s == 1.0 && k == Along(c, d) && ww == vv - d * d
    requires tt == c * c * vv + k * k * 1.0 + s * s * ww + 2.0 * (c * k) * d
    ensures tt == vv
  {
  }

  lemma TurnLength(c: real, s: real, d: real, k: real, t: Vec3, v: Vec3, n: Vec3, w: Vec3, vv: real, ww: real, tt: real)
    requires c * c + s * s == 1.0 && k == Along(c, d) && 1.0 == n.x * n.x + n.y * n.y + n.z * n.z
    requires w.x == v.y * n.z - v.z * n.y && w.y == v.z * n.x - v.x * n.z && w.z == v.x * n.y - v.y * n.x
    requires d == n.x * v.x + n.y * v.y + n.z * v.z
    requires t.x == c * v.x + k * n.x + s * w.x && t.y == c * v.y + k * n.y + s * w.y && t.z == c * v.z + k * n.z + s * w.z
    requires vv == v.x * v.x + v.y * v.y + v.z * v.z && ww == w.x * w.x + w.y * w.y + w.z * w.z
    requires tt == t.x * t.x + t.y * t.y + t.z * t.z
    ensures tt == vv
  {
    CrossSquare(v.x, v.y, v.z, n.x, n.y, n.z, w.x, w.y, w.z, vv, 1.0, ww, d);
    SumOfSquares(c, k, s, t, v, n, w, vv, 1.0, ww, d, 0.0, 0.0);
    LengthAlgebra(c, s, d, k, vv, ww, tt);
  }

  /** About a unit axis, lengths are preserved. */
  lemma TurnKeepsLength(axis: Vec3, angle: Angle, v: Vec3)
    requires axis.Dot(axis) == 1.0
    ensures Turn(axis, angle, v).Dot(Turn(axis, angle, v)) == v.Dot(v)
  {
    var t, w, d := Turn(axis, angle, v), v.Cross(axis), axis.Dot(v);
    CombinationCoordinates(v, axis, w, angle.c, Along(angle.c, d), angle.s);
    TurnLength(angle.c, angle.s, d, Along(angle.c, d), t, v, axis, w, v.Dot(v), w.Dot(w), t.Dot(t));
  }

  // ---- Transforms ----

  lemma SameFactor(p: real, q: real, k: real)
    requires p * k == q * k && k > 0.0
    ensures p == q
  {
    assert (p - q) * k == 0.0;
  }

  ghost function Dot4(u: Vec4, v: Vec4): real {
    u.x * v.x + u.y * v.y + u.z * v.z + u.w * v.w
  }

  ghost function RowX(m: Mat4): Vec4 { Vec4(m.c0.x, m.c1.x, m.c2.x, m.c3.x) }
  ghost function RowY(m: Mat4): Vec4 { Vec4(m.c0.y, m.c1.y, m.c2.y, m.c3.y) }
  ghost function RowZ(m: Mat4): Vec4 { Vec4(m.c0.z, m.c1.z, m.c2.z, m.c3.z) }
  ghost function RowW(m: Mat4): Vec4 { Vec4(m.c0.w, m.c1.w, m.c2.w, m.c3.w) }

  lemma ApplyRows(m: Mat4, v: Vec4)
    ensures m.Apply(v) == Vec4(Dot4(v, RowX(m)), Dot4(v, RowY(m)), Dot4(v, RowZ(m)), Dot4(v, RowW(m)))
  {
  }

  lemma DotScaled(k: real, b: Vec4, a: Vec4)
    ensures k * Dot4(b, a) == Dot4(b.Times(k), a)
  {
  }

  lemma DotSum(u: Vec4, v: Vec4, a: Vec4)
    ensures Dot4(u, a) + Dot4(v, a) == Dot4(u.Plus(v), a)
  {
  }

  lemma SumsExchange(a: Vec4, b0: Vec4, b1: Vec4, b2: Vec4, b3: Vec4, v: Vec4, r: Vec4, p: Vec4)
    requires p.x == Dot4(b0, a) && p.y == Dot4(b1, a) && p.z == Dot4(b2, a) && p.w == Dot4(b3, a)
    requires r == b0.Times(v.x).Plus(b1.Times(v.y)).Plus(b2.Times(v.z).Plus(b3.Times(v.w)))
    ensures Dot4(v, p) == Dot4(r, a)
  {
    DotScaled(v.x, b0, a);
    DotScaled(v.y, b1, a);
    DotScaled(v.z, b2, a);
    DotScaled(v.w, b3, a);
    DotSum(b0.Times(v.x), b1.Times(v.y), a);
    DotSum(b2.Times(v.z), b3.Times(v.w), a);
    DotSum(b0.Times(v.x).Plus(b1.Times(v.y)), b2.Times(v.z).Plus(b3.Times(v.w)), a);
  }

  lemma RowTimesColumns(a: Vec4, b: Mat4, v: Vec4, r: Vec4, p: Vec4)
    requires p.x == Dot4(b.c0, a) && p.y == Dot4(b.c1, a) && p.z == Dot4(b.c2, a) && p.w == Dot4(b.c3, a)
    requires r.x == Dot4(v, RowX(b)) && r.y == Dot4(v, RowY(b)) && r.z == Dot4(v, RowZ(b)) && r.w == Dot4(v, RowW(b))
    ensures Dot4(v, p) == Dot4(r, a)
  {
    SumsExchange(a, b.c0, b.c1, b.c2, b.c3, v, r, p);
  }

  lemma MulApply(a: Mat4, b: Mat4, v: Vec4)
    ensures a.Mul(b).Apply(v) == a.Apply(b.Apply(v))
  {
    MulApplyAt(a, b, a.Mul(b), v, b.Apply(v));
  }

  lemma MulApplyAt(a: Mat4, b: Mat4, m: Mat4, v: Vec4, r: Vec4)
    requires m == a.Mul(b) && r == b.Apply(v)
    ensures m.Apply(v) == a.Apply(r)
  {
    ApplyRows(a, b.c0);
    ApplyRows(a, b.c1);
    ApplyRows(a, b.c2);
    ApplyRows(a, b.c3);
    ApplyRows(b, v);
    ApplyRows(m, v);
    ApplyRows(a, r);
    RowTimesColumns(RowX(a), b, v, r, RowX(m));
    RowTimesColumns(RowY(a), b, v, r, RowY(m));
    RowTimesColumns(RowZ(a), b, v, r, RowZ(m));
    RowTimesColumns(RowW(a), b, v, r, RowW(m));
  }

  lemma TranslationMoves(t: Vec3, v: Vec3)
    ensures Translation(t).Apply(Point(v)) == Point(v.Plus(t))
  {
  }

  lemma RotationTurnsPoint(axis: Vec3, angle: Angle, v: Vec3)
    ensures Rotation4(axis, angle).Apply(Point(v)) == Point(Turn(axis, angle, v))
  {
    RotationTurns(axis, angle, v);
    LinearApply(Rotation4(axis, angle), Rotation3(axis, angle), v);
  }

  lemma LinearApply(m: Mat4, r: Mat3, v: Vec3)
    requires m.Affine() && m.c3.XYZ() == Vec3(0.0, 0.0, 0.0) && m.Rotate() == r
    ensures m.Apply(Point(v)) == Point(r.Apply(v))
  {
    ApplyCoordinates(r, v);
    ApplyRows(m, Point(v));
  }
}
