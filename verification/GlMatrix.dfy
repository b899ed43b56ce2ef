/** The vector, quaternion and matrix functions the trackball camera calls, over the reals. */
module GlMatrix {

  datatype Vec3 = Vec3(x: real, y: real, z: real)

  datatype Vec4 = Vec4(x: real, y: real, z: real, w: real)

  datatype Quat = Quat(x: real, y: real, z: real, w: real)

  /** Column by column, as the arrays of the library are. */
  datatype Mat4 = Mat4(
    m0: real, m1: real, m2: real, m3: real,
    m4: real, m5: real, m6: real, m7: real,
    m8: real, m9: real, m10: real, m11: real,
    m12: real, m13: real, m14: real, m15: real)

  /** A square root function: the one thing assumed of `Math.sqrt`. */
  ghost predicate IsSqrt(f: real -> real) {
    forall x: real :: x >= 0.0 ==> f(x) >= 0.0 && f(x) * f(x) == x
  }

  function Abs(a: real): real {
    if a < 0.0 then -a else a
  }

  function Max(a: real, b: real): real {
    if a < b then b else a
  }

  function Min(a: real, b: real): real {
    if b < a then b else a
  }

  // ----- vec3 -----------------------------------------------------------------------------------

  function Dot(a: Vec3, b: Vec3): real {
    a.x * b.x + a.y * b.y + a.z * b.z
  }

  function Cross(a: Vec3, b: Vec3): Vec3 {
    Vec3(a.y * b.z - a.z * b.y, a.z * b.x - a.x * b.z, a.x * b.y - a.y * b.x)
  }

  function Subtract(a: Vec3, b: Vec3): Vec3 {
    Vec3(a.x - b.x, a.y - b.y, a.z - b.z)
  }

  function Scale(a: Vec3, k: real): Vec3 {
    Vec3(a.x * k, a.y * k, a.z * k)
  }

  function Add(a: Vec3, b: Vec3): Vec3 {
    Vec3(a.x + b.x, a.y + b.y, a.z + b.z)
  }

  function Length(sqrt: real -> real, a: Vec3): real {
    sqrt(Dot(a, a))
  }

  /** `vec3.normalize` */
  function NormalizeVec(sqrt: real -> real, a: Vec3): Vec3 {
    var len := Length(sqrt, a);
    if len == 0.0 then Vec3(0.0, 0.0, 0.0)
    else if len == 1.0 then a
    else Scale(a, 1.0 / len)
  }

  // ----- quat4 ----------------------------------------------------------------------------------

  function Norm2(q: Quat): real {
    q.x * q.x + q.y * q.y + q.z * q.z + q.w * q.w
  }

  predicate Unit(q: Quat) {
    Norm2(q) == 1.0
  }

  predicate UnitVec(a: Vec3) {
    Dot(a, a) == 1.0
  }

  /** `quat4.multiply` */
  function Multiply(a: Quat, b: Quat): Quat {
    Quat(a.x * b.w + a.w * b.x + a.y * b.z - a.z * b.y,
         a.y * b.w + a.w * b.y + a.z * b.x - a.x * b.z,
         a.z * b.w + a.w * b.z + a.x * b.y - a.y * b.x,
         a.w * b.w - a.x * b.x - a.y * b.y - a.z * b.z)
  }

  /** `quat4.multiplyVec3` */
  function Rotate(q: Quat, v: Vec3): Vec3 {
    var ix := q.w * v.x + q.y * v.z - q.z * v.y;
    var iy := q.w * v.y + q.z * v.x - q.x * v.z;
    var iz := q.w * v.z + q.x * v.y - q.y * v.x;
    var iw := -q.x * v.x - q.y * v.y - q.z * v.z;
    Vec3(ix * q.w + iw * -q.x + iy * -q.z - iz * -q.y,
         iy * q.w + iw * -q.y + iz * -q.x - ix * -q.z,
         iz * q.w + iw * -q.z + ix * -q.y - iy * -q.x)
  }

  /** `quat4.normalize` */
  function Normalize(sqrt: real -> real, q: Quat): Quat {
    var len := sqrt(Norm2(q));
    if len == 0.0 then Quat(0.0, 0.0, 0.0, 0.0)
    else var k := 1.0 / len; Quat(q.x * k, q.y * k, q.z * k, q.w * k)
  }

  // ----- mat4 -----------------------------------------------------------------------------------

  /** `mat4.multiplyVec4` */
  function Transform(m: Mat4, v: Vec4): Vec4 {
    Vec4(m.m0 * v.x + m.m4 * v.y + m.m8 * v.z + m.m12 * v.w,
         m.m1 * v.x + m.m5 * v.y + m.m9 * v.z + m.m13 * v.w,
         m.m2 * v.x + m.m6 * v.y + m.m10 * v.z + m.m14 * v.w,
         m.m3 * v.x + m.m7 * v.y + m.m11 * v.z + m.m15 * v.w)
  }

  /** `mat4.fromRotationTranslation` */
  function FromRotationTranslation(q: Quat, v: Vec3): Mat4 {
    var x2, y2, z2 := q.x + q.x, q.y + q.y, q.z + q.z;
    var xx, xy, xz := q.x * x2, q.x * y2, q.x * z2;
    var yy, yz, zz := q.y * y2, q.y * z2, q.z * z2;
    var wx, wy, wz := q.w * x2, q.w * y2, q.w * z2;
    Mat4(1.0 - (yy + zz), xy + wz, xz - wy, 0.0,
         xy - wz, 1.0 - (xx + zz), yz + wx, 0.0,
         xz + wy, yz - wx, 1.0 - (xx + yy), 0.0,
         v.x, v.y, v.z, 1.0)
  }

  /** `mat4.translate` */
  function Translate(m: Mat4, v: Vec3): Mat4 {
    m.(m12 := m.m0 * v.x + m.m4 * v.y + m.m8 * v.z + m.m12,
       m13 := m.m1 * v.x + m.m5 * v.y + m.m9 * v.z + m.m13,
       m14 := m.m2 * v.x + m.m6 * v.y + m.m10 * v.z + m.m14,
       m15 := m.m3 * v.x + m.m7 * v.y + m.m11 * v.z + m.m15)
  }

  /** `mat4.frustum` */
  function Frustum(left: real, right: real, bottom: real, top: real, near: real, far: real): Mat4
    requires left != right && bottom != top && near != far
  {
    var rl, tb, fn := right - left, top - bottom, far - near;
    Mat4((near * 2.0) / rl, 0.0, 0.0, 0.0,
         0.0, (near * 2.0) / tb, 0.0, 0.0,
         (right + left) / rl, (top + bottom) / tb, -(far + near) / fn, -1.0,
         0.0, 0.0, -(far * near * 2.0) / fn, 0.0)
  }

  function Point(v: Vec3): Vec4 {
    Vec4(v.x, v.y, v.z, 1.0)
  }

  // ----- quaternions as rotations ---------------------------------------------------------------

  function Conjugate(q: Quat): Quat {
    Quat(-q.x, -q.y, -q.z, q.w)
  }

  function Pure(v: Vec3): Quat {
    Quat(v.x, v.y, v.z, 0.0)
  }

  // Associativity is proved on plain numbers first: a polynomial identity among the fields of
  // datatypes is more than the solver takes in.

  /** The scalar part. */
  lemma ScalarIdentity(ax: real, ay: real, az: real, aw: real, bx: real, be: real, bz: real, bw: real,
                       cx: real, cy: real, cz: real, cw: real, px: real, py: real, pz: real, pw: real,
                       rx: real, ry: real, rz: real, rw: real)
    requires px == ax * bw + aw * bx + ay * bz - az * be && py == ay * bw + aw * be + az * bx - ax * bz
    requires pz == az * bw + aw * bz + ax * be - ay * bx && pw == aw * bw - ax * bx - ay * be - az * bz
    requires rx == bx * cw + bw * cx + be * cz - bz * cy && ry == be * cw + bw * cy + bz * cx - bx * cz
    requires rz == bz * cw + bw * cz + bx * cy - be * cx && rw == bw * cw - bx * cx - be * cy - bz * cz
    ensures pw * cw - px * cx - py * cy - pz * cz == aw * rw - ax * rx - ay * ry - az * rz
  {
  }

  /** One part of the vector; the other two are this one with the axes turned round. */
  lemma VectorIdentity(ax: real, ay: real, az: real, aw: real, bx: real, be: real, bz: real, bw: real,
                       cx: real, cy: real, cz: real, cw: real, px: real, py: real, pz: real, pw: real,
                       rx: real, ry: real, rz: real, rw: real)
    requires px == ax * bw + aw * bx + ay * bz - az * be && py == ay * bw + aw * be + az * bx - ax * bz
    requires pz == az * bw + aw * bz + ax * be - ay * bx && pw == aw * bw - ax * bx - ay * be - az * bz
    requires rx == bx * cw + bw * cx + be * cz - bz * cy && ry == be * cw + bw * cy + bz * cx - bx * cz
    requires rz == bz * cw + bw * cz + bx * cy - be * cx && rw == bw * cw - bx * cx - be * cy - bz * cz
    ensures px * cw + pw * cx + py * cz - pz * cy == ax * rw + aw * rx + ay * rz - az * ry
  {
  }

  ghost predicate IsProduct(p: Quat, a: Quat, b: Quat) {
    && p.x == a.x * b.w + a.w * b.x + a.y * b.z - a.z * b.y
    && p.y == a.y * b.w + a.w * b.y + a.z * b.x - a.x * b.z
    && p.z == a.z * b.w + a.w * b.z + a.x * b.y - a.y * b.x
    && p.w == a.w * b.w - a.x * b.x - a.y * b.y - a.z * b.z
  }

  lemma Parts(a: Quat, b: Quat)
    ensures IsProduct(Multiply(a, b), a, b)
  {
  }

  lemma NormIdentity(ax: real, ay: real, az: real, aw: real, bx: real, be: real, bz: real, bw: real,
                     px: real, py: real, pz: real, pw: real, na: real, nb: real)
    requires px == ax * bw + aw * bx + ay * bz - az * be && py == ay * bw + aw * be + az * bx - ax * bz
    requires pz == az * bw + aw * bz + ax * be - ay * bx && pw == aw * bw - ax * bx - ay * be - az * bz
    requires na == ax * ax + ay * ay + az * az + aw * aw && nb == bx * bx + be * be + bz * bz + bw * bw
    ensures px * px + py * py + pz * pz + pw * pw == na * nb
  {
  }

  /** The norm of a product is the product of the norms. */
  lemma NormMultiplies(a: Quat, b: Quat)
    ensures Norm2(Multiply(a, b)) == Norm2(a) * Norm2(b)
  {
    Parts(a, b);
    NormOfProduct(a, b, Multiply(a, b));
  }

  lemma NormOfProduct(a: Quat, b: Quat, p: Quat)
    requires IsProduct(p, a, b)
    ensures Norm2(p) == Norm2(a) * Norm2(b)
  {
    NormIdentity(a.x, a.y, a.z, a.w, b.x, b.y, b.z, b.w, p.x, p.y, p.z, p.w, Norm2(a), Norm2(b));
  }

  lemma FirstPart(a: Quat, b: Quat, c: Quat, p: Quat, r: Quat)
    requires IsProduct(p, a, b) && IsProduct(r, b, c)
    ensures p.x * c.w + p.w * c.x + p.y * c.z - p.z * c.y
         == a.x * r.w + a.w * r.x + a.y * r.z - a.z * r.y
  {
    VectorIdentity(a.x, a.y, a.z, a.w, b.x, b.y, b.z, b.w, c.x, c.y, c.z, c.w,
                   p.x, p.y, p.z, p.w, r.x, r.y, r.z, r.w);
  }

  lemma SecondPart(a: Quat, b: Quat, c: Quat, p: Quat, r: Quat)
    requires IsProduct(p, a, b) && IsProduct(r, b, c)
    ensures p.y * c.w + p.w * c.y + p.z * c.x - p.x * c.z
         == a.y * r.w + a.w * r.y + a.z * r.x - a.x * r.z
  {
    VectorIdentity(a.y, a.z, a.x, a.w, b.y, b.z, b.x, b.w, c.y, c.z, c.x, c.w,
                   p.y, p.z, p.x, p.w, r.y, r.z, r.x, r.w);
  }

  lemma ThirdPart(a: Quat, b: Quat, c: Quat, p: Quat, r: Quat)
    requires IsProduct(p, a, b) && IsProduct(r, b, c)
    ensures p.z * c.w + p.w * c.z + p.x * c.y - p.y * c.x
         == a.z * r.w + a.w * r.z + a.x * r.y - a.y * r.x
  {
    VectorIdentity(a.z, a.x, a.y, a.w, b.z, b.x, b.y, b.w, c.z, c.x, c.y, c.w,
                   p.z, p.x, p.y, p.w, r.z, r.x, r.y, r.w);
  }

  lemma ScalarPart(a: Quat, b: Quat, c: Quat, p: Quat, r: Quat)
    requires IsProduct(p, a, b) && IsProduct(r, b, c)
    ensures p.w * c.w - p.x * c.x - p.y * c.y - p.z * c.z
         == a.w * r.w - a.x * r.x - a.y * r.y - a.z * r.z
  {
    ScalarIdentity(a.x, a.y, a.z, a.w, b.x, b.y, b.z, b.w, c.x, c.y, c.z, c.w,
                   p.x, p.y, p.z, p.w, r.x, r.y, r.z, r.w);
  }

  lemma MultiplyAssociates(a: Quat, b: Quat, c: Quat)
    ensures Multiply(Multiply(a, b), c) == Multiply(a, Multiply(b, c))
  {
    var p, r := Multiply(a, b), Multiply(b, c);
    Parts(a, b);
    Parts(b, c);
    FirstPart(a, b, c, p, r);
    SecondPart(a, b, c, p, r);
    ThirdPart(a, b, c, p, r);
    ScalarPart(a, b, c, p, r);
    Parts(p, c);
    Parts(a, r);
  }

  lemma ReversedFirst(a: Quat, b: Quat, c: Quat, d: Quat)
    requires c == Conjugate(a) && d == Conjugate(b)
    ensures -(a.x * b.w + a.w * b.x + a.y * b.z - a.z * b.y) == d.x * c.w + d.w * c.x + d.y * c.z - d.z * c.y
  {
  }

  lemma ReversedSecond(a: Quat, b: Quat, c: Quat, d: Quat)
    requires c == Conjugate(a) && d == Conjugate(b)
    ensures -(a.y * b.w + a.w * b.y + a.z * b.x - a.x * b.z) == d.y * c.w + d.w * c.y + d.z * c.x - d.x * c.z
  {
  }

  lemma ReversedThird(a: Quat, b: Quat, c: Quat, d: Quat)
    requires c == Conjugate(a) && d == Conjugate(b)
    ensures -(a.z * b.w + a.w * b.z + a.x * b.y - a.y * b.x) == d.z * c.w + d.w * c.z + d.x * c.y - d.y * c.x
  {
  }

  lemma ReversedScalar(a: Quat, b: Quat, c: Quat, d: Quat)
    requires c == Conjugate(a) && d == Conjugate(b)
    ensures a.w * b.w - a.x * b.x - a.y * b.y - a.z * b.z == d.w * c.w - d.x * c.x - d.y * c.y - d.z * c.z
  {
  }

  lemma ConjugateReverses(a: Quat, b: Quat)
    ensures Conjugate(Multiply(a, b)) == Multiply(Conjugate(b), Conjugate(a))
  {
    var c, d := Conjugate(a), Conjugate(b);
    ReversedFirst(a, b, c, d);
    ReversedSecond(a, b, c, d);
    ReversedThird(a, b, c, d);
    ReversedScalar(a, b, c, d);
    Parts(a, b);
    Parts(d, c);
  }

  lemma RotateIsConjugation(q: Quat, v: Vec3)
    ensures Pure(Rotate(q, v)) == Multiply(Multiply(q, Pure(v)), Conjugate(q))
  {
  }

  /** Rotating by a product is rotating twice. */
  lemma RotateComposes(a: Quat, b: Quat, v: Vec3)
    ensures Rotate(Multiply(a, b), v) == Rotate(a, Rotate(b, v))
  {
    calc {
      Pure(Rotate(Multiply(a, b), v));
    ==  { RotateIsConjugation(Multiply(a, b), v); ConjugateReverses(a, b); MultiplyAssociates(a, b, Pure(v)); }
      Multiply(Multiply(a, Multiply(b, Pure(v))), Multiply(Conjugate(b), Conjugate(a)));
    ==  { MultiplyAssociates(Multiply(a, Multiply(b, Pure(v))), Conjugate(b), Conjugate(a)); }
      Multiply(Multiply(Multiply(a, Multiply(b, Pure(v))), Conjugate(b)), Conjugate(a));
    ==  { MultiplyAssociates(a, Multiply(b, Pure(v)), Conjugate(b)); RotateIsConjugation(b, v); }
      Multiply(Multiply(a, Pure(Rotate(b, v))), Conjugate(a));
    ==  { RotateIsConjugation(a, Rotate(b, v)); }
      Pure(Rotate(a, Rotate(b, v)));
    }
  }

  /** The matrix of a unit quaternion rotates as the quaternion does. */
  lemma MatrixAgreesWithQuaternion(q: Quat, d: Vec3, v: Vec3)
    requires Unit(q)
    ensures Transform(FromRotationTranslation(q, d), Point(v)) == Point(Add(Rotate(q, v), d))
  {
  }

  /** A unit quaternion keeps lengths. */
  lemma RotateKeepsLength(q: Quat, v: Vec3)
    requires Unit(q)
    ensures Dot(Rotate(q, v), Rotate(q, v)) == Dot(v, v)
  {
    var r := Rotate(q, v);
    RotateIsConjugation(q, v);
    NormMultiplies(Multiply(q, Pure(v)), Conjugate(q));
    NormMultiplies(q, Pure(v));
    assert Norm2(Pure(r)) == Dot(r, r) && Norm2(Pure(v)) == Dot(v, v);
    assert Norm2(Conjugate(q)) == Norm2(q);
  }

  // ----- vec3.rotationTo ------------------------------------------------------------------------

  const X_UNIT := Vec3(1.0, 0.0, 0.0)
  const Y_UNIT := Vec3(0.0, 1.0, 0.0)
  const Z_UNIT := Vec3(0.0, 0.0, 1.0)
  const TINY := 0.000001

  /** The axis that the half turn for opposite vectors goes round. */
  function TurnAxis(sqrt: real -> real, a: Vec3): Vec3 {
    var c1 := Cross(X_UNIT, a);
    var c2 := if Length(sqrt, c1) < TINY then Cross(Y_UNIT, a) else c1;
    var c3 := if Length(sqrt, c2) < TINY then Cross(Z_UNIT, a) else c2;
    NormalizeVec(sqrt, c3)
  }

  function Clamped(q: Quat): Quat {
    if q.w > 1.0 then q.(w := 1.0) else if q.w < -1.0 then q.(w := -1.0) else q
  }

  /** The quaternion with the vector part `u` and the scalar part `w`. */
  function WithAxis(u: Vec3, w: real): Quat {
    Quat(u.x, u.y, u.z, w)
  }

  /** `vec3.rotationTo`; the sine and cosine of half of pi are 1 and 0. */
  function RotationTo(sqrt: real -> real, a: Vec3, b: Vec3): Quat
    requires IsSqrt(sqrt)
  {
    var d := Dot(a, b);
    if d >= 1.0 then Clamped(Quat(0.0, 0.0, 0.0, 1.0))
    else if d < TINY - 1.0 then
      Clamped(WithAxis(TurnAxis(sqrt, a), 0.0))
    else
      var s := sqrt((1.0 + d) * 2.0);
      RootIsPositive(sqrt, (1.0 + d) * 2.0);
      Clamped(Normalize(sqrt, WithAxis(Scale(Cross(a, b), 1.0 / s), s * 0.5)))
  }

  lemma RootIsPositive(sqrt: real -> real, x: real)
    requires IsSqrt(sqrt) && x > 0.0
    ensures sqrt(x) > 0.0
  {
    assert sqrt(x) * sqrt(x) == x;
  }

  lemma RootOfOne(sqrt: real -> real)
    requires IsSqrt(sqrt)
    ensures sqrt(1.0) == 1.0
  {
    SquareIsMonotone(sqrt(1.0), 1.0);
  }

  /** Among non-negative numbers, squares are ordered as their roots. */
  lemma SquareIsMonotone(a: real, b: real)
    requires a >= 0.0 && b >= 0.0
    ensures a < b <==> a * a < b * b
    ensures a == b <==> a * a == b * b
  {
    if a < b {
      SquareGrows(a, b);
    } else if b < a {
      SquareGrows(b, a);
    }
  }

  lemma SquareGrows(a: real, b: real)
    requires 0.0 <= a < b
    ensures a * a < b * b
  {
    assert (b - a) * b > 0.0 && a * (b - a) >= 0.0;
    assert b * b - a * a == (b - a) * b + a * (b - a);
  }

  /** Rotating by a half turn about a unit axis at right angles turns a vector round. */
  lemma HalfTurnNegates(u: Vec3, a: Vec3)
    requires UnitVec(u) && Dot(u, a) == 0.0
    ensures Unit(WithAxis(u, 0.0)) && Rotate(WithAxis(u, 0.0), a) == Scale(a, -1.0)
  {
  }

  lemma UnitCrossAndDot(a: Vec3, b: Vec3)
    requires UnitVec(a) && UnitVec(b)
    ensures Dot(Cross(a, b), Cross(a, b)) == 1.0 - Dot(a, b) * Dot(a, b)
  {
    LagrangeIdentity(a, b);
  }

  lemma LagrangeIdentity(a: Vec3, b: Vec3)
    ensures Dot(Cross(a, b), Cross(a, b)) == Dot(a, a) * Dot(b, b) - Dot(a, b) * Dot(a, b)
  {
  }

  /** Vectors that are nearly parallel to the first axis are far from the second. */
  lemma TurnAxisIsGood(sqrt: real -> real, a: Vec3)
    requires IsSqrt(sqrt) && UnitVec(a)
    ensures UnitVec(TurnAxis(sqrt, a)) && Dot(TurnAxis(sqrt, a), a) == 0.0
  {
    var c1 := Cross(X_UNIT, a);
    var c2 := if Length(sqrt, c1) < TINY then Cross(Y_UNIT, a) else c1;
    assert Dot(c1, c1) == a.y * a.y + a.z * a.z && Dot(Cross(Y_UNIT, a), Cross(Y_UNIT, a)) == a.x * a.x + a.z * a.z;
    if Length(sqrt, c1) < TINY {
      ShortRoot(sqrt, Dot(c1, c1));
      assert a.x * a.x + a.z * a.z >= TINY * TINY;
    }
    if Length(sqrt, c2) < TINY {
      ShortRoot(sqrt, Dot(c2, c2));
      assert false;
    }
    assert Dot(c2, a) == 0.0;
    NormalizeVecIsUnit(sqrt, c2);
  }

  lemma ShortRoot(sqrt: real -> real, x: real)
    requires IsSqrt(sqrt) && x >= 0.0 && sqrt(x) < TINY
    ensures x < TINY * TINY
  {
    SquareIsMonotone(sqrt(x), TINY);
  }

  lemma NormalizeVecIsUnit(sqrt: real -> real, a: Vec3)
    requires IsSqrt(sqrt) && Length(sqrt, a) > 0.0 && Dot(a, a) >= 0.0
    ensures UnitVec(NormalizeVec(sqrt, a))
    ensures forall b: Vec3 :: Dot(a, b) == 0.0 ==> Dot(NormalizeVec(sqrt, a), b) == 0.0
  {
    var len := Length(sqrt, a);
    if len != 1.0 {
      var k := 1.0 / len;
      assert k * len == 1.0;
      assert Dot(Scale(a, k), Scale(a, k)) == Dot(a, a) * (k * k) == (len * k) * (len * k);
      forall b: Vec3
        ensures Dot(Scale(a, k), b) == k * Dot(a, b)
      {
      }
    }
  }

  lemma ScaledNorm(c: Vec3, k: real)
    ensures Dot(Scale(c, k), Scale(c, k)) == Dot(c, c) * (k * k)
  {
    DotOfScaled(c, k, Scale(c, k));
    DotOfScaled(c, k, c);
    assert Dot(c, Scale(c, k)) == Dot(Scale(c, k), c);
  }

  lemma HalfwayNorm(s: real, k: real, d: real, n: real)
    requires s * s == (1.0 + d) * 2.0 && s * k == 1.0 && n == 1.0 - d * d
    ensures n * (k * k) == (1.0 - d) * 0.5
  {
    var kk := k * k;
    assert s * s * kk == (s * k) * (s * k) == 1.0;
    assert (1.0 + d) * kk == 0.5;
    assert n * kk == (1.0 - d) * ((1.0 + d) * kk);
  }

  /** Quaternion of the general branch: its norm is one, so normalizing changes nothing. */
  lemma HalfwayIsUnit(a: Vec3, b: Vec3, s: real, k: real)
    requires UnitVec(a) && UnitVec(b) && s * s == (1.0 + Dot(a, b)) * 2.0 && s * k == 1.0
    ensures Unit(WithAxis(Scale(Cross(a, b), k), s * 0.5))
    ensures var u, w := Scale(Cross(a, b), k), s * 0.5; w * w - Dot(u, u) == Dot(a, b)
  {
    var c, d, w := Cross(a, b), Dot(a, b), s * 0.5;
    UnitCrossAndDot(a, b);
    ScaledNorm(c, k);
    HalfwayNorm(s, k, d, Dot(c, c));
    NormByParts(Scale(c, k), w);
    assert w * w == s * s * 0.25;
  }

  lemma NormByParts(u: Vec3, w: real)
    ensures Norm2(WithAxis(u, w)) == Dot(u, u) + w * w
  {
  }

  lemma DotOfScaled(c: Vec3, k: real, a: Vec3)
    ensures Dot(Scale(c, k), a) == k * Dot(c, a)
  {
  }

  lemma ScaledDifference(p: real, q: real, k: real, x: real, y: real, pk: real, qk: real, e: real)
    requires pk == p * k && qk == q * k && e == p * x - q * y
    ensures pk * x - qk * y == e * k
  {
  }

  lemma CrossOfScaled(c: Vec3, k: real, a: Vec3)
    ensures Cross(Scale(c, k), a) == Scale(Cross(c, a), k)
  {
    var u, e := Scale(c, k), Cross(c, a);
    ScaledDifference(c.y, c.z, k, a.z, a.y, u.y, u.z, e.x);
    ScaledDifference(c.z, c.x, k, a.x, a.z, u.z, u.x, e.y);
    ScaledDifference(c.x, c.y, k, a.y, a.x, u.x, u.y, e.z);
  }

  /** One component of a rotation, with the vector part and the scalar part of the quaternion apart; the
      other two components are this one with the axes turned round. */
  lemma RotateOnePart(ux: real, uy: real, uz: real, w: real, x: real, y: real, z: real, n: real, g: real)
    requires n == ux * ux + uy * uy + uz * uz && g == ux * x + uy * y + uz * z
    ensures var ix, iy := w * x + uy * z - uz * y, w * y + uz * x - ux * z;
            var iz, iw := w * z + ux * y - uy * x, -ux * x - uy * y - uz * z;
            ix * w + iw * -ux + iy * -uz - iz * -uy
            == x * (w * w - n) + ux * (2.0 * g) + (uy * z - uz * y) * (2.0 * w)
  {
  }

  lemma RotateFirst(u: Vec3, w: real, v: Vec3)
    ensures Rotate(WithAxis(u, w), v).x
         == v.x * (w * w - Dot(u, u)) + u.x * (2.0 * Dot(u, v)) + Cross(u, v).x * (2.0 * w)
  {
    RotateOnePart(u.x, u.y, u.z, w, v.x, v.y, v.z, Dot(u, u), Dot(u, v));
  }

  lemma RotateSecond(u: Vec3, w: real, v: Vec3)
    ensures Rotate(WithAxis(u, w), v).y
         == v.y * (w * w - Dot(u, u)) + u.y * (2.0 * Dot(u, v)) + Cross(u, v).y * (2.0 * w)
  {
    RotateOnePart(u.y, u.z, u.x, w, v.y, v.z, v.x, Dot(u, u), Dot(u, v));
  }

  lemma RotateThird(u: Vec3, w: real, v: Vec3)
    ensures Rotate(WithAxis(u, w), v).z
         == v.z * (w * w - Dot(u, u)) + u.z * (2.0 * Dot(u, v)) + Cross(u, v).z * (2.0 * w)
  {
    RotateOnePart(u.z, u.x, u.y, w, v.z, v.x, v.y, Dot(u, u), Dot(u, v));
  }

  lemma CrossBackPart(ax: real, ay: real, az: real, bx: real, be: real, bz: real,
                      cy: real, cz: real, n: real, d: real)
    requires cy == az * bx - ax * bz && cz == ax * be - ay * bx
    requires n == ax * ax + ay * ay + az * az && d == ax * bx + ay * be + az * bz
    ensures cy * az - cz * ay == bx * n - ax * d
  {
  }

  lemma CrossBackUnit(ax: real, ay: real, az: real, bx: real, be: real, bz: real, cy: real, cz: real, d: real)
    requires cy == az * bx - ax * bz && cz == ax * be - ay * bx
    requires ax * ax + ay * ay + az * az == 1.0 && d == ax * bx + ay * be + az * bz
    ensures cy * az - cz * ay == bx - ax * d
  {
    CrossBackPart(ax, ay, az, bx, be, bz, cy, cz, 1.0, d);
  }

  lemma CrossBackFirst(a: Vec3, b: Vec3, c: Vec3)
    requires UnitVec(a) && c == Cross(a, b)
    ensures Cross(c, a).x == b.x - a.x * Dot(a, b)
  {
    CrossBackUnit(a.x, a.y, a.z, b.x, b.y, b.z, c.y, c.z, Dot(a, b));
  }

  lemma CrossBackSecond(a: Vec3, b: Vec3, c: Vec3)
    requires UnitVec(a) && c == Cross(a, b)
    ensures Cross(c, a).y == b.y - a.y * Dot(a, b)
  {
    CrossBackUnit(a.y, a.z, a.x, b.y, b.z, b.x, c.z, c.x, Dot(a, b));
  }

  lemma CrossBackThird(a: Vec3, b: Vec3, c: Vec3)
    requires UnitVec(a) && c == Cross(a, b)
    ensures Cross(c, a).z == b.z - a.z * Dot(a, b)
  {
    CrossBackUnit(a.z, a.x, a.y, b.z, b.x, b.y, c.x, c.y, Dot(a, b));
  }

  lemma CrossIsAcross(ax: real, ay: real, az: real, bx: real, be: real, bz: real, cx: real, cy: real, cz: real)
    requires cx == ay * bz - az * be && cy == az * bx - ax * bz && cz == ax * be - ay * bx
    ensures cx * ax + cy * ay + cz * az == 0.0
  {
  }

  lemma CrossAcross(a: Vec3, b: Vec3)
    ensures Dot(Cross(a, b), a) == 0.0
  {
    var c := Cross(a, b);
    CrossIsAcross(a.x, a.y, a.z, b.x, b.y, b.z, c.x, c.y, c.z);
  }

  lemma LessMultiple(e: Vec3, b: Vec3, a: Vec3, d: real)
    requires e.x == b.x - a.x * d && e.y == b.y - a.y * d && e.z == b.z - a.z * d
    ensures e == Subtract(b, Scale(a, d))
  {
  }

  /** Turning a vector back out of a cross product. */
  lemma CrossBack(a: Vec3, b: Vec3)
    requires UnitVec(a)
    ensures Cross(Cross(a, b), a) == Subtract(b, Scale(a, Dot(a, b))) && Dot(Cross(a, b), a) == 0.0
  {
    var c := Cross(a, b);
    CrossBackFirst(a, b, c);
    CrossBackSecond(a, b, c);
    CrossBackThird(a, b, c);
    LessMultiple(Cross(c, a), b, a, Dot(a, b));
    CrossAcross(a, b);
  }

  lemma HalfwayPart(a: real, b: real, u: real, d: real, g: real, k: real, m: real, c: real, e: real)
    requires g == 0.0 && k * m == 1.0 && c == e * k && e == b - a * d
    ensures a * d + u * (2.0 * g) + c * m == b
  {
    assert c * m == e * (k * m);
  }

  ghost predicate Halfway(a: Vec3, c: Vec3, u: Vec3, w: real, d: real, k: real) {
    u == Scale(c, k) && w * w - Dot(u, u) == d && Dot(u, a) == 0.0 && k * (2.0 * w) == 1.0
  }

  lemma HalfwayFirst(a: Vec3, b: Vec3, c: Vec3, u: Vec3, w: real, d: real, k: real)
    requires Halfway(a, c, u, w, d, k) && Cross(c, a).x == b.x - a.x * d
    ensures Rotate(WithAxis(u, w), a).x == b.x
  {
    RotateFirst(u, w, a);
    CrossOfScaled(c, k, a);
    HalfwayPart(a.x, b.x, u.x, d, Dot(u, a), k, 2.0 * w, Cross(u, a).x, Cross(c, a).x);
  }

  lemma HalfwaySecond(a: Vec3, b: Vec3, c: Vec3, u: Vec3, w: real, d: real, k: real)
    requires Halfway(a, c, u, w, d, k) && Cross(c, a).y == b.y - a.y * d
    ensures Rotate(WithAxis(u, w), a).y == b.y
  {
    RotateSecond(u, w, a);
    CrossOfScaled(c, k, a);
    HalfwayPart(a.y, b.y, u.y, d, Dot(u, a), k, 2.0 * w, Cross(u, a).y, Cross(c, a).y);
  }

  lemma HalfwayThird(a: Vec3, b: Vec3, c: Vec3, u: Vec3, w: real, d: real, k: real)
    requires Halfway(a, c, u, w, d, k) && Cross(c, a).z == b.z - a.z * d
    ensures Rotate(WithAxis(u, w), a).z == b.z
  {
    RotateThird(u, w, a);
    CrossOfScaled(c, k, a);
    HalfwayPart(a.z, b.z, u.z, d, Dot(u, a), k, 2.0 * w, Cross(u, a).z, Cross(c, a).z);
  }

  /** The general branch carries `a` exactly to `b`. */
  lemma HalfwayCarries(a: Vec3, b: Vec3, s: real, k: real)
    requires UnitVec(a) && UnitVec(b) && s * s == (1.0 + Dot(a, b)) * 2.0 && s * k == 1.0
    ensures Rotate(WithAxis(Scale(Cross(a, b), k), s * 0.5), a) == b
  {
    var c, d, w := Cross(a, b), Dot(a, b), s * 0.5;
    var u := Scale(c, k);
    CrossBack(a, b);
    DotOfScaled(c, k, a);
    HalfwayIsUnit(a, b, s, k);
    HalfwayFirst(a, b, c, u, w, d, k);
    HalfwaySecond(a, b, c, u, w, d, k);
    HalfwayThird(a, b, c, u, w, d, k);
  }

  lemma NormalizeKeepsUnit(sqrt: real -> real, q: Quat)
    requires IsSqrt(sqrt) && Unit(q)
    ensures Normalize(sqrt, q) == q
  {
    RootOfOne(sqrt);
  }

  /** In the general branch neither the last normalizing nor the clamp changes anything. */
  lemma GeneralBranch(sqrt: real -> real, a: Vec3, b: Vec3, s: real)
    requires IsSqrt(sqrt) && UnitVec(a) && UnitVec(b) && TINY - 1.0 <= Dot(a, b) < 1.0
    requires s == sqrt((1.0 + Dot(a, b)) * 2.0) && s > 0.0
    ensures RotationTo(sqrt, a, b) == WithAxis(Scale(Cross(a, b), 1.0 / s), s * 0.5)
  {
    HalfwayIsUnit(a, b, s, 1.0 / s);
    NormalizeKeepsUnit(sqrt, WithAxis(Scale(Cross(a, b), 1.0 / s), s * 0.5));
    SquareIsMonotone(s, 2.0);
  }

  /** `rotationTo` of two unit vectors is a unit quaternion.  It carries the first exactly to the
      second, unless they are within a millionth of being opposite: then it carries the first to its
      opposite, and so to the second exactly if that is the opposite. */
  lemma RotationToCarries(sqrt: real -> real, a: Vec3, b: Vec3)
    requires IsSqrt(sqrt) && UnitVec(a) && UnitVec(b)
    ensures Unit(RotationTo(sqrt, a, b))
    ensures Rotate(RotationTo(sqrt, a, b), a) == if Dot(a, b) < TINY - 1.0 then Scale(a, -1.0) else b
  {
    var d := Dot(a, b);
    if d >= 1.0 {
      SameWhenAligned(a, b);
      IdentityKeeps(a);
    } else if d < TINY - 1.0 {
      TurnAxisIsGood(sqrt, a);
      HalfTurnNegates(TurnAxis(sqrt, a), a);
    } else {
      var s := sqrt((1.0 + d) * 2.0);
      RootIsPositive(sqrt, (1.0 + d) * 2.0);
      GeneralBranch(sqrt, a, b, s);
      HalfwayIsUnit(a, b, s, 1.0 / s);
      HalfwayCarries(a, b, s, 1.0 / s);
    }
  }

  lemma IdentityKeeps(a: Vec3)
    ensures Rotate(Quat(0.0, 0.0, 0.0, 1.0), a) == a
  {
  }

  /** A unit quaternion and its conjugate undo each other. */
  lemma RotateBack(q: Quat, v: Vec3)
    requires Unit(q)
    ensures Rotate(Conjugate(q), Rotate(q, v)) == v && Rotate(q, Rotate(Conjugate(q), v)) == v
  {
    ConjugateCancels(q);
    IdentityKeeps(v);
    RotateComposes(Conjugate(q), q, v);
    RotateComposes(q, Conjugate(q), v);
  }

  lemma ConjugateCancels(q: Quat)
    requires Unit(q)
    ensures Unit(Conjugate(q))
    ensures Multiply(Conjugate(q), q) == Quat(0.0, 0.0, 0.0, 1.0)
    ensures Multiply(q, Conjugate(q)) == Quat(0.0, 0.0, 0.0, 1.0)
  {
  }

  lemma SameWhenAligned(a: Vec3, b: Vec3)
    requires UnitVec(a) && UnitVec(b) && Dot(a, b) >= 1.0
    ensures a == b
  {
    var e := Subtract(a, b);
    assert Dot(e, e) == Dot(a, a) - 2.0 * Dot(a, b) + Dot(b, b);
    SumOfSquares(e.x, e.y, e.z);
  }

  // A product is passed to these as a number of its own: the solver reasons poorly about squares.

  lemma SumOfSquares(x: real, y: real, z: real)
    requires x * x + y * y + z * z <= 0.0
    ensures x == 0.0 && y == 0.0 && z == 0.0
  {
    var xx, yy, zz := x * x, y * y, z * z;
    SquareSign(x, xx);
    SquareSign(y, yy);
    SquareSign(z, zz);
  }

  lemma SquareSign(x: real, xx: real)
    requires xx == x * x
    ensures xx >= 0.0
    ensures xx <= 0.0 ==> x == 0.0
  {
    if x > 0.0 {
      ProductIsPositive(x, x, xx);
    } else if x < 0.0 {
      ProductIsPositive(-x, -x, xx);
    }
  }

  lemma ProductIsPositive(a: real, b: real, p: real)
    requires a > 0.0 && b > 0.0 && p == a * b
    ensures p > 0.0
  {
  }
}
