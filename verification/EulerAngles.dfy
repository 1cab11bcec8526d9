/**
 * Taking a rotation matrix apart into Euler angles (ImageOPs/Math/MathUtilities.cpp). The function
 * `atan2` is a parameter: any function that returns the direction of a point, and zero at the origin.
 */
module EulerAngles {
  import opened Matrices

  /** The point (x, y) lies in direction `a`. */
  ghost predicate Points(y: real, x: real, a: Angle) {
    var r := x * a.c + y * a.s;
    r > 0.0 && x == r * a.c && y == r * a.s
  }

  ghost predicate IsAtan2(atan2: (real, real) -> Angle) {
    && atan2(0.0, 0.0) == ZERO
    && forall y: real, x: real :: x != 0.0 || y != 0.0 ==> Points(y, x, atan2(y, x))
  }

  // ---- The code ----

  /** Of an affine transform, the two parts: it rotates every point, and then translates it. */
  method MatrixTransformExtract(transform: Mat4) returns (rotate: Mat3, translate: Vec3)
    ensures transform.Affine() ==> forall v: Vec3 :: transform.Apply(Point(v)) == Point(rotate.Apply(v).Plus(translate))
    ensures transform.Affine() ==> transform == Composed(rotate, translate)
    ensures forall r: Mat3, t: Vec3 :: transform == Composed(r, t) ==> rotate == r && translate == t
    ensures rotate == transform.Rotate() && translate == transform.c3.XYZ()
  {
    rotate := Mat3(Vec3(transform.c0.x, transform.c0.y, transform.c0.z),
                   Vec3(transform.c1.x, transform.c1.y, transform.c1.z),
                   Vec3(transform.c2.x, transform.c2.y, transform.c2.z));
    translate := Vec3(transform.c3.x, transform.c3.y, transform.c3.z);
    if transform.Affine() {
      forall v: Vec3 ensures transform.Apply(Point(v)) == Point(rotate.Apply(v).Plus(translate)) {
        AffineMoves(transform, rotate, translate, v);
      }
    }
  }

  lemma AffineMoves(m: Mat4, r: Mat3, t: Vec3, v: Vec3)
    requires m.Affine() && r == m.Rotate() && t == m.c3.XYZ()
    ensures m.Apply(Point(v)) == Point(r.Apply(v).Plus(t))
  {
    ApplyCoordinates(r, v);
    ApplyRows(m, Point(v));
  }

  function Composed(rotate: Mat3, translate: Vec3): Mat4 {
    Mat4(Vec4(rotate.c0.x, rotate.c0.y, rotate.c0.z, 0.0),
         Vec4(rotate.c1.x, rotate.c1.y, rotate.c1.z, 0.0),
         Vec4(rotate.c2.x, rotate.c2.y, rotate.c2.z, 0.0),
         Vec4(translate.x, translate.y, translate.z, 1.0))
  }

  /** The composed transform rotates, then translates; taking it apart gives back both parts. */
  method MatrixTransformCompose(rotate: Mat3, translate: Vec3) returns (transform: Mat4)
    ensures transform == Composed(rotate, translate)
    ensures transform.Rotate() == rotate && transform.c3.XYZ() == translate && transform.Affine()
    ensures forall v: Vec3 :: transform.Apply(Point(v)) == Point(rotate.Apply(v).Plus(translate))
  {
    transform := Mat4(Vec4(rotate.c0.x, rotate.c0.y, rotate.c0.z, 0.0),
                      Vec4(rotate.c1.x, rotate.c1.y, rotate.c1.z, 0.0),
                      Vec4(rotate.c2.x, rotate.c2.y, rotate.c2.z, 0.0),
                      Vec4(translate.x, translate.y, translate.z, 1.0));
  }

  /** Composing what was taken out restores a transform exactly when its last row is (0, 0, 0, 1). */
  lemma ExtractCompose(transform: Mat4)
    ensures Composed(transform.Rotate(), transform.c3.XYZ()) == transform <==> transform.Affine()
  {
  }

  function Second(t0: real, t1: real, t2: real, e0: Angle, atan2: (real, real) -> Angle): Angle {
    atan2(-1.0 * t2, t0 * e0.c + t1 * e0.s)
  }

  function Third(t3: real, t4: real, t6: real, t7: real, e0: Angle, atan2: (real, real) -> Angle): Angle {
    atan2(t6 * e0.s - t7 * e0.c, -1.0 * t3 * e0.s + t4 * e0.c)
  }

  ghost function Eulerian(m: Mat3, atan2: (real, real) -> Angle): Angles {
    var e0 := atan2(m.c0.y, m.c0.x);
    Angles(Negate(Third(m.c1.x, m.c1.y, m.c2.x, m.c2.y, e0, atan2)),
           Negate(Second(m.c0.x, m.c0.y, m.c0.z, e0, atan2)),
           Negate(e0))
  }

  method MatrixEulerianAngle(rotateM: Mat4, atan2: (real, real) -> Angle) returns (rotateV: Angles)
    ensures rotateV == Eulerian(rotateM.Rotate(), atan2)
  {
    var columns := [rotateM.c0, rotateM.c1, rotateM.c2];
    var t := new real[9];
    for i := 0 to 3
      invariant forall k: nat | k < i :: t[k * 3] == columns[k].x && t[k * 3 + 1] == columns[k].y && t[k * 3 + 2] == columns[k].z
    {
      t[i * 3 + 0] := columns[i].x;
      t[i * 3 + 1] := columns[i].y;
      t[i * 3 + 2] := columns[i].z;
    }
    assert t[0 * 3] == rotateM.c0.x && t[0 * 3 + 1] == rotateM.c0.y && t[0 * 3 + 2] == rotateM.c0.z;
    assert t[1 * 3] == rotateM.c1.x && t[1 * 3 + 1] == rotateM.c1.y;
    assert t[2 * 3] == rotateM.c2.x && t[2 * 3 + 1] == rotateM.c2.y;
    var e0 := atan2(t[1], t[0]);
    var e1 := Second(t[0], t[1], t[2], e0, atan2);
    var e2 := Third(t[3], t[4], t[6], t[7], e0, atan2);
    rotateV := Angles(Negate(e2), Negate(e1), Negate(e0));
  }

  // ---- The matrix of three angles ----

  /** The product of the three rotations, entry by entry. */
  ghost predicate IsEuler(m: Mat3, cx: real, sx: real, cy: real, sy: real, cz: real, sz: real) {
    && m.c0.x == cz * cy
    && m.c0.y == -(sz * cy)
    && m.c0.z == sy
    && m.c1.x == cz * sy * sx + sz * cx
    && m.c1.y == cz * cx - sz * sy * sx
    && m.c1.z == -(cy * sx)
    && m.c2.x == sz * sx - cz * sy * cx
    && m.c2.y == sz * sy * cx + cz * sx
    && m.c2.z == cy * cx
  }

  lemma AxisRotations(a: Angle)
    ensures Rotation3(AXIS_X, a) == Mat3(AXIS_X, Vec3(0.0, a.c, -a.s), Vec3(0.0, a.s, a.c))
    ensures Rotation3(AXIS_Y, a) == Mat3(Vec3(a.c, 0.0, a.s), AXIS_Y, Vec3(-a.s, 0.0, a.c))
    ensures Rotation3(AXIS_Z, a) == Mat3(Vec3(a.c, -a.s, 0.0), Vec3(a.s, a.c, 0.0), AXIS_Z)
  {
  }

  /** The product with a vector, given the products of the coordinates. */
  lemma ApplyTo(m: Mat3, v: Vec3, r: Vec3)
    requires r.x == v.x * m.c0.x + v.y * m.c1.x + v.z * m.c2.x
    requires r.y == v.x * m.c0.y + v.y * m.c1.y + v.z * m.c2.y
    requires r.z == v.x * m.c0.z + v.y * m.c1.z + v.z * m.c2.z
    ensures m.Apply(v) == r
  {
    ApplyCoordinates(m, v);
  }

  lemma ProductOfTwo(ry: Mat3, rz: Mat3, cy: real, sy: real, cz: real, sz: real)
    requires ry == Mat3(Vec3(cy, 0.0, sy), AXIS_Y, Vec3(-sy, 0.0, cy))
    requires rz == Mat3(Vec3(cz, -sz, 0.0), Vec3(sz, cz, 0.0), AXIS_Z)
    ensures rz.Mul(ry) == Mat3(Vec3(cz * cy, -(sz * cy), sy), Vec3(sz, cz, 0.0), Vec3(-(cz * sy), sz * sy, cy))
  {
    ApplyTo(rz, ry.c0, Vec3(cz * cy, -(sz * cy), sy));
    ApplyTo(rz, ry.c1, Vec3(sz, cz, 0.0));
    ApplyTo(rz, ry.c2, Vec3(-(cz * sy), sz * sy, cy));
  }

  lemma ProductOfThree(rx: Mat3, m: Mat3, cx: real, sx: real, cy: real, sy: real, cz: real, sz: real)
    requires rx == Mat3(AXIS_X, Vec3(0.0, cx, -sx), Vec3(0.0, sx, cx))
    requires m == Mat3(Vec3(cz * cy, -(sz * cy), sy), Vec3(sz, cz, 0.0), Vec3(-(cz * sy), sz * sy, cy))
    ensures IsEuler(m.Mul(rx), cx, sx, cy, sy, cz, sz)
  {
    ApplyTo(m, rx.c0, m.c0);
    ApplyTo(m, rx.c1, Vec3(cz * sy * sx + sz * cx, cz * cx - sz * sy * sx, -(cy * sx)));
    ApplyTo(m, rx.c2, Vec3(sz * sx - cz * sy * cx, sz * sy * cx + cz * sx, cy * cx));
  }

  lemma ThreeAxisIsEuler(a: Angles)
    ensures IsEuler(ThreeAxis(a), a.x.c, a.x.s, a.y.c, a.y.s, a.z.c, a.z.s)
  {
    AxisRotations(a.x);
    AxisRotations(a.y);
    AxisRotations(a.z);
    ProductOfTwo(Rotation3(AXIS_Y, a.y), Rotation3(AXIS_Z, a.z), a.y.c, a.y.s, a.z.c, a.z.s);
    ProductOfThree(Rotation3(AXIS_X, a.x), Rotation3(AXIS_Z, a.z).Mul(Rotation3(AXIS_Y, a.y)),
                   a.x.c, a.x.s, a.y.c, a.y.s, a.z.c, a.z.s);
  }

  // ---- Rebuilding ----

  /** The columns are orthonormal and right-handed. */
  ghost predicate IsRotation(m: Mat3) {
    && m.c0.x * m.c0.x + m.c0.y * m.c0.y + m.c0.z * m.c0.z == 1.0
    && m.c1.x * m.c1.x + m.c1.y * m.c1.y + m.c1.z * m.c1.z == 1.0
    && m.c0.x * m.c1.x + m.c0.y * m.c1.y + m.c0.z * m.c1.z == 0.0
    && m.c2.x == m.c0.y * m.c1.z - m.c0.z * m.c1.y
    && m.c2.y == m.c0.z * m.c1.x - m.c0.x * m.c1.z
    && m.c2.z == m.c0.x * m.c1.y - m.c0.y * m.c1.x
  }

  /** The angles that are returned: cos y is not negative, and z is zero where it is not determined. */
  ghost predicate Canonical(a: Angles) {
    a.y.c > 0.0 || (a.y.c == 0.0 && a.z == ZERO)
  }

  lemma UnitPoint(x: real, y: real, a: Angle)
    requires Points(y, x, a) && x * x + y * y == 1.0
    ensures a == Pair(x, y)
  {
    var r := x * a.c + y * a.s;
    assert x * x + y * y == r * r * (a.c * a.c + a.s * a.s);
    assert r * r == 1.0;
    assert (r - 1.0) * (r + 1.0) == 0.0;
  }

  /** The first angle turns the first column into the plane of x and z. */
  lemma FirstAngle(t0: real, t1: real, e0: Angle, p: real)
    requires p == t0 * e0.c + t1 * e0.s
    requires if t0 != 0.0 || t1 != 0.0 then Points(t1, t0, e0) else e0 == ZERO
    ensures t0 == p * e0.c && t1 == p * e0.s && p * p == t0 * t0 + t1 * t1
    ensures p > 0.0 || (p == 0.0 && e0 == ZERO)
  {
    if t0 != 0.0 || t1 != 0.0 {
      assert p * p == p * e0.c * t0 + p * e0.s * t1;
    }
  }

  /** The other two columns, seen along the first angle. */
  lemma OtherColumns(c: real, s: real, p: real, t2: real, t3: real, t4: real, t5: real, t6: real, t7: real, t8: real,
                     a: real, x: real, k: real)
    requires c * c + s * s == 1.0 && p * p + t2 * t2 == 1.0
    requires t3 * t3 + t4 * t4 + t5 * t5 == 1.0 && p * c * t3 + p * s * t4 + t2 * t5 == 0.0
    requires t6 == p * s * t5 - t2 * t4 && t7 == t2 * t3 - p * c * t5 && t8 == p * c * t4 - p * s * t3
    requires a == c * t3 + s * t4 && x == t4 * c - t3 * s && k == p * t5 - t2 * a
    ensures t6 * s - t7 * c == k && x * x + k * k == 1.0
    ensures t3 == -(c * t2 * k) - s * x && t4 == c * x - s * t2 * k && t5 == p * k
    ensures t6 == s * k - c * t2 * x && t7 == -(s * t2 * x) - c * k && t8 == p * x
  {
    assert p * a + t2 * t5 == 0.0;
    assert t2 * k == p * (t2 * t5) - t2 * t2 * a;
    assert t2 * k == -a * (p * p + t2 * t2);
    assert p * k == p * p * t5 - t2 * (p * a);
    assert p * k == t5 * (p * p + t2 * t2);
    assert t3 == (c * c + s * s) * t3 && t4 == (c * c + s * s) * t4;
    assert t3 == c * a - s * x && t4 == s * a + c * x;
    assert t3 * t3 + t4 * t4 == (c * c + s * s) * (a * a + x * x);
    assert a * a + t5 * t5 == k * k * (p * p + t2 * t2);
    ThirdColumn(c, s, p, t2, t3, t4, t5, t6, t7, a);
  }

  lemma ThirdColumn(c: real, s: real, p: real, t2: real, t3: real, t4: real, t5: real, t6: real, t7: real, a: real)
    requires c * c + s * s == 1.0 && t6 == p * s * t5 - t2 * t4 && t7 == t2 * t3 - p * c * t5 && a == c * t3 + s * t4
    ensures t6 * s - t7 * c == p * t5 - t2 * a
  {
    assert t6 * s == p * (s * s) * t5 - t2 * (t4 * s);
    assert t7 * c == t2 * (t3 * c) - p * (c * c) * t5;
    assert t6 * s - t7 * c == p * t5 * (c * c + s * s) - t2 * a;
  }

  lemma RotationColumns(c: real, s: real, p: real, t0: real, t1: real, t2: real, t3: real, t4: real, t5: real,
                        t6: real, t7: real, t8: real, a: real, x: real, y: real, k: real)
    requires c * c + s * s == 1.0 && t0 == p * c && t1 == p * s && p * p == t0 * t0 + t1 * t1
    requires t0 * t0 + t1 * t1 + t2 * t2 == 1.0
    requires t3 * t3 + t4 * t4 + t5 * t5 == 1.0 && t0 * t3 + t1 * t4 + t2 * t5 == 0.0
    requires t6 == t1 * t5 - t2 * t4 && t7 == t2 * t3 - t0 * t5 && t8 == t0 * t4 - t1 * t3
    requires a == c * t3 + s * t4 && x == t4 * c - t3 * s && k == p * t5 - t2 * a
    requires y == t6 * s - t7 * c
    ensures y == k && x * x + y * y == 1.0
    ensures t3 == -(c * t2 * k) - s * x && t4 == c * x - s * t2 * k && t5 == p * k
    ensures t6 == s * k - c * t2 * x && t7 == -(s * t2 * x) - c * k && t8 == p * x
  {
    OtherColumns(c, s, p, t2, t3, t4, t5, t6, t7, t8, a, x, k);
  }

  lemma EulerFrom(m: Mat3, c: real, s: real, p: real, t2: real, x: real, k: real,
                  cx: real, sx: real, cy: real, sy: real, cz: real, sz: real)
    requires cx == x && sx == -k && cy == p && sy == t2 && cz == c && sz == -s
    requires m.c0.x == p * c && m.c0.y == p * s && m.c0.z == t2
    requires m.c1.x == -(c * t2 * k) - s * x && m.c1.y == c * x - s * t2 * k && m.c1.z == p * k
    requires m.c2.x == s * k - c * t2 * x && m.c2.y == -(s * t2 * x) - c * k && m.c2.z == p * x
    ensures IsEuler(m, cx, sx, cy, sy, cz, sz)
  {
  }

  lemma RebuildFrom(m: Mat3, e0: Angle, e1: Angle, e2: Angle, p: real, a: real, x: real, y: real, k: real)
    requires IsRotation(m)
    requires m.c0.x == p * e0.c && m.c0.y == p * e0.s && p * p == m.c0.x * m.c0.x + m.c0.y * m.c0.y
    requires a == e0.c * m.c1.x + e0.s * m.c1.y && k == p * m.c1.z - m.c0.z * a
    requires x == m.c1.y * e0.c - m.c1.x * e0.s && y == m.c2.x * e0.s - m.c2.y * e0.c
    requires e1 == Pair(p, -m.c0.z) && (x != 0.0 || y != 0.0 ==> Points(y, x, e2))
    ensures IsEuler(m, e2.c, -e2.s, e1.c, -e1.s, e0.c, -e0.s)
  {
    RotationColumns(e0.c, e0.s, p, m.c0.x, m.c0.y, m.c0.z, m.c1.x, m.c1.y, m.c1.z, m.c2.x, m.c2.y, m.c2.z, a, x, y, k);
    UnitPoint(x, y, e2);
    EulerFrom(m, e0.c, e0.s, p, m.c0.z, x, k, e2.c, -e2.s, e1.c, -e1.s, e0.c, -e0.s);
  }

  ghost predicate Direction(y: real, x: real, a: Angle) {
    if x != 0.0 || y != 0.0 then Points(y, x, a) else a == ZERO
  }

  lemma FirstIs(m: Mat3, atan2: (real, real) -> Angle)
    requires IsAtan2(atan2)
    ensures Direction(m.c0.y, m.c0.x, atan2(m.c0.y, m.c0.x))
  {
  }

  lemma SecondIs(t0: real, t1: real, t2: real, e0: Angle, p: real, atan2: (real, real) -> Angle)
    requires IsAtan2(atan2) && p == t0 * e0.c + t1 * e0.s
    ensures Direction(-t2, p, Second(t0, t1, t2, e0, atan2))
  {
  }

  lemma ThirdIs(t3: real, t4: real, t6: real, t7: real, e0: Angle, x: real, y: real, atan2: (real, real) -> Angle)
    requires IsAtan2(atan2) && x == t4 * e0.c - t3 * e0.s && y == t6 * e0.s - t7 * e0.c
    ensures Direction(y, x, Third(t3, t4, t6, t7, e0, atan2))
  {
    assert -1.0 * t3 * e0.s + t4 * e0.c == x;
    assert Third(t3, t4, t6, t7, e0, atan2) == atan2(y, x);
  }

  lemma SecondAngle(m: Mat3, p: real, e1: Angle)
    requires IsRotation(m) && p * p == m.c0.x * m.c0.x + m.c0.y * m.c0.y
    requires Direction(-m.c0.z, p, e1)
    ensures e1 == Pair(p, -m.c0.z)
  {
    assert p * p + m.c0.z * m.c0.z == 1.0;
    UnitPoint(p, -m.c0.z, e1);
  }

  lemma RebuildParts(m: Mat3, e0: Angle, e1: Angle, e2: Angle, p: real, a: real, x: real, y: real, k: real)
    requires IsRotation(m) && p == m.c0.x * e0.c + m.c0.y * e0.s
    requires a == e0.c * m.c1.x + e0.s * m.c1.y && k == p * m.c1.z - m.c0.z * a
    requires x == m.c1.y * e0.c - m.c1.x * e0.s && y == m.c2.x * e0.s - m.c2.y * e0.c
    requires Direction(m.c0.y, m.c0.x, e0) && Direction(-m.c0.z, p, e1) && Direction(y, x, e2)
    ensures IsEuler(m, e2.c, -e2.s, e1.c, -e1.s, e0.c, -e0.s)
    ensures Canonical(Angles(Negate(e2), Negate(e1), Negate(e0)))
  {
    FirstAngle(m.c0.x, m.c0.y, e0, p);
    SecondAngle(m, p, e1);
    RebuildFrom(m, e0, e1, e2, p, a, x, y, k);
  }

  lemma SameEuler(m: Mat3, a: Angles)
    requires IsEuler(m, a.x.c, a.x.s, a.y.c, a.y.s, a.z.c, a.z.s)
    ensures ThreeAxis(a) == m
  {
    ThreeAxisIsEuler(a);
  }

  lemma RebuildWith(m: Mat3, e0: Angle, e1: Angle, e2: Angle, p: real, a: real, x: real, y: real, k: real)
    requires IsRotation(m) && p == m.c0.x * e0.c + m.c0.y * e0.s
    requires a == e0.c * m.c1.x + e0.s * m.c1.y && k == p * m.c1.z - m.c0.z * a
    requires x == m.c1.y * e0.c - m.c1.x * e0.s && y == m.c2.x * e0.s - m.c2.y * e0.c
    requires Direction(m.c0.y, m.c0.x, e0) && Direction(-m.c0.z, p, e1) && Direction(y, x, e2)
    ensures var r := Angles(Negate(e2), Negate(e1), Negate(e0));
            ThreeAxis(r) == m && Canonical(r)
  {
    RebuildParts(m, e0, e1, e2, p, a, x, y, k);
    SameEuler(m, Angles(Negate(e2), Negate(e1), Negate(e0)));
  }

  lemma RebuildGiven(m: Mat3, atan2: (real, real) -> Angle, e0: Angle, p: real, a: real, x: real, y: real, k: real)
    requires IsAtan2(atan2) && IsRotation(m)
    requires e0 == atan2(m.c0.y, m.c0.x) && p == m.c0.x * e0.c + m.c0.y * e0.s
    requires a == e0.c * m.c1.x + e0.s * m.c1.y && k == p * m.c1.z - m.c0.z * a
    requires x == m.c1.y * e0.c - m.c1.x * e0.s && y == m.c2.x * e0.s - m.c2.y * e0.c
    ensures ThreeAxis(Eulerian(m, atan2)) == m && Canonical(Eulerian(m, atan2))
  {
    var e1 := Second(m.c0.x, m.c0.y, m.c0.z, e0, atan2);
    var e2 := Third(m.c1.x, m.c1.y, m.c2.x, m.c2.y, e0, atan2);
    FirstIs(m, atan2);
    SecondIs(m.c0.x, m.c0.y, m.c0.z, e0, p, atan2);
    ThirdIs(m.c1.x, m.c1.y, m.c2.x, m.c2.y, e0, x, y, atan2);
    RebuildWith(m, e0, e1, e2, p, a, x, y, k);
  }

  /** Whatever rotation it was, the angles taken out of it build it again, and they are canonical. */
  lemma Rebuild(m: Mat3, atan2: (real, real) -> Angle)
    requires IsAtan2(atan2) && IsRotation(m)
    ensures ThreeAxis(Eulerian(m, atan2)) == m && Canonical(Eulerian(m, atan2))
  {
    var e0 := atan2(m.c0.y, m.c0.x);
    var p := m.c0.x * e0.c + m.c0.y * e0.s;
    var a := e0.c * m.c1.x + e0.s * m.c1.y;
    RebuildGiven(m, atan2, e0, p, a, m.c1.y * e0.c - m.c1.x * e0.s, m.c2.x * e0.s - m.c2.y * e0.c, p * m.c1.z - m.c0.z * a);
  }

  // ---- The round trip ----

  lemma EulerFirstColumns(cx: real, sx: real, cy: real, sy: real, cz: real, sz: real,
                          t0: real, t1: real, t2: real, t3: real, t4: real, t5: real)
    requires cx * cx + sx * sx == 1.0 && cy * cy + sy * sy == 1.0 && cz * cz + sz * sz == 1.0
    requires t0 == cz * cy && t1 == -(sz * cy) && t2 == sy
    requires t3 == cz * sy * sx + sz * cx && t4 == cz * cx - sz * sy * sx && t5 == -(cy * sx)
    ensures t0 * t0 + t1 * t1 + t2 * t2 == 1.0
    ensures t3 * t3 + t4 * t4 + t5 * t5 == 1.0
    ensures t0 * t3 + t1 * t4 + t2 * t5 == 0.0
  {
    assert t0 * t0 + t1 * t1 == cy * cy * (cz * cz + sz * sz);
    SecondColumn(cx, sx, cy, sy, cz, sz, sy * sx, t3, t4, t5);
    assert t0 * t3 + t1 * t4 == cy * sy * sx * (cz * cz + sz * sz);
  }

  lemma SecondColumn(cx: real, sx: real, cy: real, sy: real, cz: real, sz: real, u: real, t3: real, t4: real, t5: real)
    requires cx * cx + sx * sx == 1.0 && cy * cy + sy * sy == 1.0 && cz * cz + sz * sz == 1.0
    requires u == sy * sx && t3 == cz * u + sz * cx && t4 == cz * cx - sz * u && t5 == -(cy * sx)
    ensures t3 * t3 + t4 * t4 + t5 * t5 == 1.0
  {
    assert t3 * t3 + t4 * t4 == (u * u + cx * cx) * (cz * cz + sz * sz);
    assert t5 * t5 == cy * cy * (sx * sx);
    assert u * u == sy * sy * (sx * sx);
    assert t5 * t5 + u * u == (cy * cy + sy * sy) * (sx * sx);
  }

  lemma EulerThirdColumn(cx: real, sx: real, cy: real, sy: real, cz: real, sz: real,
                         t0: real, t1: real, t2: real, t3: real, t4: real, t5: real)
    requires cy * cy + sy * sy == 1.0 && cz * cz + sz * sz == 1.0
    requires t0 == cz * cy && t1 == -(sz * cy) && t2 == sy
    requires t3 == cz * sy * sx + sz * cx && t4 == cz * cx - sz * sy * sx && t5 == -(cy * sx)
    ensures t1 * t5 - t2 * t4 == sz * sx - cz * sy * cx
    ensures t2 * t3 - t0 * t5 == sz * sy * cx + cz * sx
    ensures t0 * t4 - t1 * t3 == cy * cx
  {
    CrossX(cx, sx, cy, sy, cz, sz, t1, t4, t5);
    CrossY(cx, sx, cy, sy, cz, sz, t0, t3, t5);
    CrossZ(cx, sx, cy, sy, cz, sz, t0, t1, t3, t4);
  }

  lemma CrossX(cx: real, sx: real, cy: real, sy: real, cz: real, sz: real, t1: real, t4: real, t5: real)
    requires cy * cy + sy * sy == 1.0 && t1 == -(sz * cy) && t4 == cz * cx - sz * sy * sx && t5 == -(cy * sx)
    ensures t1 * t5 - sy * t4 == sz * sx - cz * sy * cx
  {
    assert t1 * t5 - sy * t4 == sz * sx * (cy * cy + sy * sy) - cz * sy * cx;
  }

  lemma CrossY(cx: real, sx: real, cy: real, sy: real, cz: real, sz: real, t0: real, t3: real, t5: real)
    requires cy * cy + sy * sy == 1.0 && t0 == cz * cy && t3 == cz * sy * sx + sz * cx && t5 == -(cy * sx)
    ensures sy * t3 - t0 * t5 == sz * sy * cx + cz * sx
  {
    assert sy * t3 - t0 * t5 == cz * sx * (cy * cy + sy * sy) + sz * sy * cx;
  }

  lemma CrossZ(cx: real, sx: real, cy: real, sy: real, cz: real, sz: real, t0: real, t1: real, t3: real, t4: real)
    requires cz * cz + sz * sz == 1.0 && t0 == cz * cy && t1 == -(sz * cy)
    requires t3 == cz * sy * sx + sz * cx && t4 == cz * cx - sz * sy * sx
    ensures t0 * t4 - t1 * t3 == cy * cx
  {
    assert t0 * t4 - t1 * t3 == cy * cx * (cz * cz + sz * sz);
  }

  lemma UnitAngle(a: Angle)
    ensures a.c * a.c + a.s * a.s == 1.0
  {
  }

  lemma EulerIsRotation(m: Mat3, cx: real, sx: real, cy: real, sy: real, cz: real, sz: real)
    requires cx * cx + sx * sx == 1.0 && cy * cy + sy * sy == 1.0 && cz * cz + sz * sz == 1.0
    requires IsEuler(m, cx, sx, cy, sy, cz, sz)
    ensures IsRotation(m)
  {
    EulerFirstColumns(cx, sx, cy, sy, cz, sz, m.c0.x, m.c0.y, m.c0.z, m.c1.x, m.c1.y, m.c1.z);
    EulerThirdColumn(cx, sx, cy, sy, cz, sz, m.c0.x, m.c0.y, m.c0.z, m.c1.x, m.c1.y, m.c1.z);
  }

  lemma AnglesMakeRotation(m: Mat3, a: Angles)
    requires IsEuler(m, a.x.c, a.x.s, a.y.c, a.y.s, a.z.c, a.z.s)
    ensures IsRotation(m)
  {
    UnitAngle(a.x);
    UnitAngle(a.y);
    UnitAngle(a.z);
    EulerIsRotation(m, a.x.c, a.x.s, a.y.c, a.y.s, a.z.c, a.z.s);
  }

  /** Every product of the three rotations is a rotation. */
  lemma ThreeAxisIsRotation(a: Angles)
    ensures IsRotation(ThreeAxis(a))
  {
    ThreeAxisIsEuler(a);
    AnglesMakeRotation(ThreeAxis(a), a);
  }

  /** The angle x is read off the matrix once z is known. */
  lemma LastAngle(m: Mat3, cx: real, sx: real, cy: real, sy: real, cz: real, sz: real)
    requires IsEuler(m, cx, sx, cy, sy, cz, sz) && cz * cz + sz * sz == 1.0
    ensures cx == m.c1.x * sz + m.c1.y * cz && sx == m.c2.x * sz + m.c2.y * cz
  {
    LastAngleScalars(cx, sx, sy, cz, sz, m.c1.x, m.c1.y, m.c2.x, m.c2.y);
  }

  lemma LastAngleScalars(cx: real, sx: real, sy: real, cz: real, sz: real, t3: real, t4: real, t6: real, t7: real)
    requires cz * cz + sz * sz == 1.0
    requires t3 == cz * sy * sx + sz * cx && t4 == cz * cx - sz * sy * sx
    requires t6 == sz * sx - cz * sy * cx && t7 == sz * sy * cx + cz * sx
    ensures cx == t3 * sz + t4 * cz && sx == t6 * sz + t7 * cz
  {
    assert t3 * sz + t4 * cz == cx * (cz * cz + sz * sz);
    assert t6 * sz + t7 * cz == sx * (cz * cz + sz * sz);
  }

  lemma SameRoot(p: real, q: real)
    requires p * p == q * q && p >= 0.0 && q >= 0.0
    ensures p == q
  {
    if p + q > 0.0 {
      SameFactor(p, q, p + q);
    }
  }

  /** Canonical angles are determined by their matrix. */
  lemma CanonicalUnique(m: Mat3, a: Angles, b: Angles)
    requires Canonical(a) && Canonical(b)
    requires IsEuler(m, a.x.c, a.x.s, a.y.c, a.y.s, a.z.c, a.z.s)
    requires IsEuler(m, b.x.c, b.x.s, b.y.c, b.y.s, b.z.c, b.z.s)
    ensures a == b
  {
    assert a.y.s == b.y.s;
    SameRoot(a.y.c, b.y.c);
    if a.y.c > 0.0 {
      SameFactor(a.z.c, b.z.c, a.y.c);
      SameFactor(a.z.s, b.z.s, a.y.c);
    }
    assert a.z == b.z;
    LastAngle(m, a.x.c, a.x.s, a.y.c, a.y.s, a.z.c, a.z.s);
    LastAngle(m, b.x.c, b.x.s, b.y.c, b.y.s, b.z.c, b.z.s);
  }

  /**
   * Building the rotation of three angles, embedding it in a transform and taking it apart returns the
   * three angles exactly when cos y > 0, or cos y = 0 and z = 0.
   */
  lemma RoundTrip(a: Angles, translate: Vec3, atan2: (real, real) -> Angle)
    requires IsAtan2(atan2)
    ensures Eulerian(Composed(ThreeAxis(a), translate).Rotate(), atan2) == a <==> Canonical(a)
  {
    var m := ThreeAxis(a);
    assert Composed(m, translate).Rotate() == m;
    var b := Eulerian(m, atan2);
    ThreeAxisIsRotation(a);
    Rebuild(m, atan2);
    ThreeAxisIsEuler(a);
    ThreeAxisIsEuler(b);
    if Canonical(a) {
      CanonicalUnique(m, a, b);
    }
  }
}
