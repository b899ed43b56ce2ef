/** What the trackball's matrices do to a point: where the camera puts it and where the projection clips it. */
module Camera {
  import opened GlMatrix

  // ----- the bounding box -----------------------------------------------------------------------

  /** The corners of a box, in the order the loops visit them. */
  function Corner(min: Vec3, max: Vec3, i: nat): Vec3 {
    Vec3(if i % 2 == 0 then min.x else max.x,
         if i / 2 % 2 == 0 then min.y else max.y,
         if i / 4 % 2 == 0 then min.z else max.z)
  }

  predicate Between(x: real, a: real, b: real) {
    a <= x <= b || b <= x <= a
  }

  /** The points of the box. */
  predicate InBox(min: Vec3, max: Vec3, v: Vec3) {
    Between(v.x, min.x, max.x) && Between(v.y, min.y, max.y) && Between(v.z, min.z, max.z)
  }

  /** Every choice of ends is a corner that the loops visit. */
  lemma CornerOfEnds(min: Vec3, max: Vec3, v: Vec3) returns (i: nat)
    requires v.x in {min.x, max.x} && v.y in {min.y, max.y} && v.z in {min.z, max.z}
    ensures i < 8 && Corner(min, max, i) == v
  {
    i := (if v.x == min.x then 0 else 1) + (if v.y == min.y then 0 else 2) + (if v.z == min.z then 0 else 4);
  }

  /** The corners are points of the box. */
  lemma CornersInBox(min: Vec3, max: Vec3, i: nat)
    requires i < 8
    ensures InBox(min, max, Corner(min, max, i))
  {
  }

  /** What a row of a matrix makes of a point. */
  function Row(r: Vec4, v: Vec3): real {
    r.x * v.x + r.y * v.y + r.z * v.z + r.w
  }

  /** The end at which a coordinate counts least. */
  function LeastEnd(a: real, lo: real, hi: real): real {
    if a * lo <= a * hi then lo else hi
  }

  lemma LeastAtAnEnd(a: real, lo: real, hi: real, x: real, e: real)
    requires Between(x, lo, hi) && e == LeastEnd(a, lo, hi)
    ensures a * e <= a * x
  {
    if a > 0.0 {
      SignOfProduct(a, x - lo, a * (x - lo));
      SignOfProduct(a, x - hi, a * (x - hi));
    } else if a < 0.0 {
      SignOfProduct(-a, lo - x, -a * (lo - x));
      SignOfProduct(-a, hi - x, -a * (hi - x));
    }
  }

  lemma RowIsLess(r: Vec4, u: Vec3, v: Vec3)
    requires r.x * u.x <= r.x * v.x && r.y * u.y <= r.y * v.y && r.z * u.z <= r.z * v.z
    ensures Row(r, u) <= Row(r, v)
  {
  }

  /** Of all points of the box some corner counts least. */
  lemma LeastCorner(min: Vec3, max: Vec3, r: Vec4, v: Vec3) returns (i: nat)
    requires InBox(min, max, v)
    ensures i < 8 && Row(r, Corner(min, max, i)) <= Row(r, v)
  {
    var x, y, z := LeastEnd(r.x, min.x, max.x), LeastEnd(r.y, min.y, max.y), LeastEnd(r.z, min.z, max.z);
    LeastAtAnEnd(r.x, min.x, max.x, v.x, x);
    LeastAtAnEnd(r.y, min.y, max.y, v.y, y);
    LeastAtAnEnd(r.z, min.z, max.z, v.z, z);
    RowIsLess(r, Vec3(x, y, z), v);
    i := CornerOfEnds(min, max, Vec3(x, y, z));
  }

  function Center(min: Vec3, max: Vec3): Vec3 {
    Vec3(0.5 * (min.x + max.x), 0.5 * (min.y + max.y), 0.5 * (min.z + max.z))
  }

  /** How far back the camera must be for a rotated point to be inside the view. */
  function Reach(t: real, p: Vec3): real {
    p.z + t * Max(Abs(p.x), Abs(p.y))
  }

  function FromCenter(q: Quat, min: Vec3, max: Vec3, i: nat): Vec3 {
    Rotate(q, Subtract(Corner(min, max, i), Center(min, max)))
  }

  lemma RowOpposite(a: real, b: real, c: real, x: real, y: real, z: real, nx: real, ny: real, nz: real)
    requires nx == -x && ny == -y && nz == -z
    ensures a * nx + b * ny + c * nz == -(a * x + b * y + c * z)
  {
  }

  lemma MatrixOpposite(m: Mat4, v: Vec3, n: Vec3)
    requires n == Scale(v, -1.0) && m.m12 == 0.0 && m.m13 == 0.0 && m.m14 == 0.0
    ensures var r, s := Transform(m, Point(v)), Transform(m, Point(n)); s.x == -r.x && s.y == -r.y && s.z == -r.z
  {
    RowOpposite(m.m0, m.m4, m.m8, v.x, v.y, v.z, n.x, n.y, n.z);
    RowOpposite(m.m1, m.m5, m.m9, v.x, v.y, v.z, n.x, n.y, n.z);
    RowOpposite(m.m2, m.m6, m.m10, v.x, v.y, v.z, n.x, n.y, n.z);
  }

  lemma RotateOpposite(q: Quat, v: Vec3)
    requires Unit(q)
    ensures Rotate(q, Scale(v, -1.0)) == Scale(Rotate(q, v), -1.0)
  {
    var zero, n := Vec3(0.0, 0.0, 0.0), Scale(v, -1.0);
    MatrixAgreesWithQuaternion(q, zero, v);
    MatrixAgreesWithQuaternion(q, zero, n);
    MatrixOpposite(FromRotationTranslation(q, zero), v, n);
  }

  /** Opposite corners lie opposite each other as seen from the centre. */
  lemma OppositeCorners(q: Quat, min: Vec3, max: Vec3, i: nat)
    requires Unit(q) && i < 8
    ensures FromCenter(q, min, max, 7 - i) == Scale(FromCenter(q, min, max, i), -1.0)
  {
    var c := Center(min, max);
    var p, r := Subtract(Corner(min, max, i), c), Subtract(Corner(min, max, 7 - i), c);
    assert r == Scale(p, -1.0);
    RotateOpposite(q, p);
  }

  /** So one of the two reaches back at least to the centre. */
  lemma SomeCornerReachesBack(q: Quat, min: Vec3, max: Vec3, t: real)
    requires Unit(q) && t > 0.0
    ensures Reach(t, FromCenter(q, min, max, 0)) >= 0.0 || Reach(t, FromCenter(q, min, max, 7)) >= 0.0
  {
    var p := FromCenter(q, min, max, 0);
    OppositeCorners(q, min, max, 0);
    var m := Max(Abs(p.x), Abs(p.y));
    assert t * m >= 0.0;
  }

  // ----- modelview ------------------------------------------------------------------------------

  function ModelviewOf(q: Quat, coi: Vec3, distance: real): Mat4 {
    Translate(FromRotationTranslation(q, Vec3(0.0, 0.0, -distance)), Vec3(-coi.x, -coi.y, -coi.z))
  }

  lemma RowMoves(a: real, b: real, c: real, d: real, tx: real, ty: real, tz: real, x: real, y: real, z: real,
                 sx: real, sy: real, sz: real)
    requires sx == x + tx && sy == y + ty && sz == z + tz
    ensures a * x + b * y + c * z + (a * tx + b * ty + c * tz + d) == a * sx + b * sy + c * sz + d
  {
  }

  /** Translating a matrix moves the points before the matrix sees them. */
  lemma TranslateMoves(m: Mat4, t: Vec3, v: Vec3)
    ensures Transform(Translate(m, t), Point(v)) == Transform(m, Point(Add(v, t)))
  {
    var s := Add(v, t);
    RowMoves(m.m0, m.m4, m.m8, m.m12, t.x, t.y, t.z, v.x, v.y, v.z, s.x, s.y, s.z);
    RowMoves(m.m1, m.m5, m.m9, m.m13, t.x, t.y, t.z, v.x, v.y, v.z, s.x, s.y, s.z);
    RowMoves(m.m2, m.m6, m.m10, m.m14, t.x, t.y, t.z, v.x, v.y, v.z, s.x, s.y, s.z);
    RowMoves(m.m3, m.m7, m.m11, m.m15, t.x, t.y, t.z, v.x, v.y, v.z, s.x, s.y, s.z);
  }

  /** The modelview matrix turns a point about the centre of interest and sets it back from the camera. */
  lemma ModelviewPlaces(q: Quat, coi: Vec3, distance: real, v: Vec3)
    requires Unit(q)
    ensures Transform(ModelviewOf(q, coi, distance), Point(v))
         == Point(Add(Rotate(q, Subtract(v, coi)), Vec3(0.0, 0.0, -distance)))
  {
    var d, t := Vec3(0.0, 0.0, -distance), Vec3(-coi.x, -coi.y, -coi.z);
    TranslateMoves(FromRotationTranslation(q, d), t, v);
    assert Add(v, t) == Subtract(v, coi);
    MatrixAgreesWithQuaternion(q, d, Subtract(v, coi));
  }

  // ----- projection -----------------------------------------------------------------------------

  const EPSILON := 0.001

  /** The far plane for corners that reach down to `far`. */
  function FarPlane(far: real): real {
    Min(-EPSILON, far - EPSILON)
  }

  function NearPlane(near: real, far: real): real {
    Min(0.01 * FarPlane(far), Max(FarPlane(far), near + EPSILON))
  }

  lemma PlanesInOrder(near: real, far: real)
    requires far <= near
    ensures 0.0 < -NearPlane(near, far) < -FarPlane(far)
  {
  }

  /** How much of the width and of the height there is in view, for each unit of depth. */
  function WidthOfView(tanHalf: real, aspect: real): real {
    if aspect < 1.0 then tanHalf else tanHalf * aspect
  }

  function HeightOfView(tanHalf: real, aspect: real): real
    requires aspect != 0.0
  {
    if aspect < 1.0 then tanHalf / aspect else tanHalf
  }

  /** Half the width, and half the height, of the view at distance `n` from the camera. */
  function HalfWidth(tanHalf: real, aspect: real, n: real): real {
    if aspect < 1.0 then tanHalf * n else tanHalf * n * aspect
  }

  function HalfHeight(tanHalf: real, aspect: real, n: real): real
    requires aspect != 0.0
  {
    if aspect < 1.0 then tanHalf * n / aspect else tanHalf * n
  }

  /** The projection for the planes at `near` and `far`. */
  function ProjectionOf(tanHalf: real, aspect: real, near: real, far: real): Mat4
    requires tanHalf > 0.0 && aspect != 0.0 && 0.0 < -near < -far
  {
    var w2, h2 := HalfWidth(tanHalf, aspect, -near), HalfHeight(tanHalf, aspect, -near);
    HalvesAreNotZero(tanHalf, aspect, -near);
    Frustum(-w2, w2, -h2, h2, -near, -far)
  }

  lemma HalvesAreNotZero(tanHalf: real, aspect: real, n: real)
    requires tanHalf > 0.0 && aspect != 0.0 && n > 0.0
    ensures HalfWidth(tanHalf, aspect, n) != 0.0 && HalfHeight(tanHalf, aspect, n) != 0.0
  {
    var p, r := tanHalf * n, tanHalf * n / aspect;
    ProductIsPositive(tanHalf, n, p);
    assert r * aspect == p;
  }

  /** In view sideways: the first four of the six clipping planes. */
  predicate Framed(c: Vec4) {
    -c.w <= c.x <= c.w && -c.w <= c.y <= c.w
  }

  predicate PastNearPlane(c: Vec4) {
    -c.w <= c.z
  }

  predicate BeforeFarPlane(c: Vec4) {
    c.z <= c.w
  }

  /** The scale of one axis of the frustum undoes the half extent for each unit of depth. */
  lemma AxisScale(n: real, m: real, half: real, k: real, e: real)
    requires n > 0.0 && half == m * n && half != 0.0 && k == (n * 2.0) / (half - -half)
    ensures k * e * m == e
  {
    assert k * (half - -half) == n * 2.0;
    assert k * half == n;
    var km := k * m;
    assert km * n == k * half;
    CancelFactor(km, n);
    assert k * e * m == km * e;
  }

  lemma CancelFactor(a: real, n: real)
    requires n > 0.0 && a * n == n
    ensures a == 1.0
  {
    assert (a - 1.0) * n == 0.0;
  }

  /** Where a symmetric frustum puts a point of the camera's space. */
  lemma FrustumPlaces(w2: real, h2: real, n: real, f: real, e: Vec3)
    requires w2 != 0.0 && h2 != 0.0 && n != f
    ensures var c := Transform(Frustum(-w2, w2, -h2, h2, n, f), Point(e));
            && c.x == (n * 2.0) / (w2 - -w2) * e.x
            && c.y == (n * 2.0) / (h2 - -h2) * e.y
            && c.z == -(f + n) / (f - n) * e.z + -(f * n * 2.0) / (f - n)
            && c.w == -e.z
  {
    var m := Frustum(-w2, w2, -h2, h2, n, f);
    assert m.m8 == 0.0 && m.m9 == 0.0;
  }

  lemma DepthScale(n: real, f: real, z: real, c: real)
    requires n != f && c == -(f + n) / (f - n) * z + -(f * n * 2.0) / (f - n)
    ensures c * (f - n) == -(f + n) * z - f * n * 2.0
  {
    var d, a, b := f - n, -(f + n) / (f - n), -(f * n * 2.0) / (f - n);
    assert a * d == -(f + n) && b * d == -(f * n * 2.0);
    assert c * d == (a * d) * z + b * d;
  }

  lemma FrustumInverts(w2: real, h2: real, n: real, f: real, mx: real, my: real, e: Vec3)
    requires w2 == mx * n && h2 == my * n && w2 != 0.0 && h2 != 0.0 && 0.0 < n < f
    ensures var c := Transform(Frustum(-w2, w2, -h2, h2, n, f), Point(e));
            c.x * mx == e.x && c.y * my == e.y && c.z * (f - n) == -(f + n) * e.z - f * n * 2.0 && c.w == -e.z
  {
    FrustumPlaces(w2, h2, n, f, e);
    AxisScale(n, mx, w2, (n * 2.0) / (w2 - -w2), e.x);
    AxisScale(n, my, h2, (n * 2.0) / (h2 - -h2), e.y);
    DepthScale(n, f, e.z, Transform(Frustum(-w2, w2, -h2, h2, n, f), Point(e)).z);
  }

  /** Where the projection puts a point of the camera's space. */
  lemma Projected(tanHalf: real, aspect: real, near: real, far: real, e: Vec3, mx: real, my: real)
    requires tanHalf > 0.0 && aspect != 0.0 && 0.0 < -near < -far
    requires mx == WidthOfView(tanHalf, aspect) && my == HeightOfView(tanHalf, aspect)
    ensures var c, n, f := Transform(ProjectionOf(tanHalf, aspect, near, far), Point(e)), -near, -far;
            && c.x * mx == e.x
            && c.y * my == e.y
            && c.z * (f - n) == -(f + n) * e.z - f * n * 2.0
            && c.w == -e.z
  {
    var n := -near;
    var w2, h2 := HalfWidth(tanHalf, aspect, n), HalfHeight(tanHalf, aspect, n);
    HalvesAreNotZero(tanHalf, aspect, n);
    HalfExtents(tanHalf, aspect, n, mx, my);
    FrustumInverts(w2, h2, n, -far, mx, my, e);
  }

  lemma HalfExtents(tanHalf: real, aspect: real, n: real, mx: real, my: real)
    requires aspect != 0.0 && mx == WidthOfView(tanHalf, aspect) && my == HeightOfView(tanHalf, aspect)
    ensures HalfWidth(tanHalf, aspect, n) == mx * n && HalfHeight(tanHalf, aspect, n) == my * n
  {
    if aspect < 1.0 {
      var h2 := tanHalf * n / aspect;
      assert my * aspect == tanHalf && h2 * aspect == tanHalf * n;
      assert (h2 - my * n) * aspect == 0.0;
    }
  }

  // ----- what is in view ------------------------------------------------------------------------

  lemma ViewIsPositive(tanHalf: real, aspect: real, mx: real, my: real)
    requires tanHalf > 0.0 && aspect > 0.0
    requires mx == WidthOfView(tanHalf, aspect) && my == HeightOfView(tanHalf, aspect)
    ensures mx >= tanHalf && my >= tanHalf
  {
    if aspect < 1.0 {
      assert my * aspect == tanHalf;
      if my < tanHalf {
        GrowsInBoth(my, tanHalf, aspect, 1.0);
      }
    } else {
      var more := tanHalf * (aspect - 1.0);
      assert more >= 0.0 && mx == tanHalf + more;
    }
  }

  lemma GrowsInBoth(a: real, b: real, c: real, d: real)
    requires a < b && 0.0 < c <= d && b > 0.0
    ensures a * c < b * d
  {
    var p, r := (b - a) * c, b * (d - c);
    assert p > 0.0 && r >= 0.0;
    assert b * d - a * c == p + r;
  }

  lemma ScaledInside(c: real, m: real, x: real, w: real)
    requires m > 0.0 && c * m == x
    ensures Abs(x) <= m * w <==> -w <= c <= w
  {
    var l, r := m * (c + w), m * (w - c);
    assert x + m * w == l && m * w - x == r;
    SignOfProduct(m, c + w, l);
    SignOfProduct(m, w - c, r);
  }

  lemma SignOfProduct(m: real, a: real, p: real)
    requires m > 0.0 && p == m * a
    ensures p >= 0.0 <==> a >= 0.0
    ensures p > 0.0 <==> a > 0.0
  {
  }

  /** Inside the pyramid of the view, in the camera's space. */
  predicate InPyramid(mx: real, my: real, e: Vec3) {
    Abs(e.x) <= mx * -e.z && Abs(e.y) <= my * -e.z
  }

  /** A point is framed just when it lies inside the pyramid of the view. */
  lemma FramedIff(tanHalf: real, aspect: real, near: real, far: real, e: Vec3, mx: real, my: real)
    requires tanHalf > 0.0 && aspect > 0.0 && 0.0 < -near < -far
    requires mx == WidthOfView(tanHalf, aspect) && my == HeightOfView(tanHalf, aspect)
    ensures Framed(Transform(ProjectionOf(tanHalf, aspect, near, far), Point(e)))
       <==> InPyramid(mx, my, e)
  {
    var c := Transform(ProjectionOf(tanHalf, aspect, near, far), Point(e));
    Projected(tanHalf, aspect, near, far, e, mx, my);
    ViewIsPositive(tanHalf, aspect, mx, my);
    ClipInPyramid(c, mx, my, e);
  }

  lemma ClipInPyramid(c: Vec4, mx: real, my: real, e: Vec3)
    requires mx > 0.0 && my > 0.0 && c.x * mx == e.x && c.y * my == e.y && c.w == -e.z
    ensures Framed(c) <==> InPyramid(mx, my, e)
  {
    ScaledInside(c.x, mx, e.x, c.w);
    ScaledInside(c.y, my, e.y, c.w);
  }

  /** A half-space of the scene. */
  predicate OnSide(k: real, a: Vec4, b: Vec4, v: Vec3) {
    k * Row(a, v) + Row(b, v) >= 0.0
  }

  lemma SideIsRow(k: real, a: Vec4, b: Vec4, c: Vec4, v: Vec3)
    requires c == Vec4(k * a.x + b.x, k * a.y + b.y, k * a.z + b.z, k * a.w + b.w)
    ensures OnSide(k, a, b, v) <==> Row(c, v) >= 0.0
  {
  }

  /** One that holds all corners of a box holds the box. */
  lemma SideHoldsBox(k: real, a: Vec4, b: Vec4, min: Vec3, max: Vec3, v: Vec3)
    requires InBox(min, max, v) && forall i: nat :: i < 8 ==> OnSide(k, a, b, Corner(min, max, i))
    ensures OnSide(k, a, b, v)
  {
    var c := Vec4(k * a.x + b.x, k * a.y + b.y, k * a.z + b.z, k * a.w + b.w);
    var i := LeastCorner(min, max, c, v);
    SideIsRow(k, a, b, c, v);
    SideIsRow(k, a, b, c, Corner(min, max, i));
  }

  /** The matrix moves points without dividing them. */
  predicate Affine(m: Mat4) {
    m.m3 == 0.0 && m.m7 == 0.0 && m.m11 == 0.0 && m.m15 == 1.0
  }

  function RowX(m: Mat4): Vec4 {
    Vec4(m.m0, m.m4, m.m8, m.m12)
  }

  function RowY(m: Mat4): Vec4 {
    Vec4(m.m1, m.m5, m.m9, m.m13)
  }

  function RowZ(m: Mat4): Vec4 {
    Vec4(m.m2, m.m6, m.m10, m.m14)
  }

  function Negated(r: Vec4): Vec4 {
    Vec4(-r.x, -r.y, -r.z, -r.w)
  }

  lemma NegatedRow(r: Vec4, v: Vec3)
    ensures Row(Negated(r), v) == -Row(r, v)
  {
  }

  /** The pyramid of the view by four half-spaces of the scene. */
  predicate InsideSides(mx: real, my: real, m: Mat4, v: Vec3) {
    && OnSide(-mx, RowZ(m), RowX(m), v) && OnSide(-mx, RowZ(m), Negated(RowX(m)), v)
    && OnSide(-my, RowZ(m), RowY(m), v) && OnSide(-my, RowZ(m), Negated(RowY(m)), v)
  }

  lemma SidesHoldBox(mx: real, my: real, m: Mat4, min: Vec3, max: Vec3, v: Vec3)
    requires InBox(min, max, v) && forall i: nat :: i < 8 ==> InsideSides(mx, my, m, Corner(min, max, i))
    ensures InsideSides(mx, my, m, v)
  {
    SideHoldsBox(-mx, RowZ(m), RowX(m), min, max, v);
    SideHoldsBox(-mx, RowZ(m), Negated(RowX(m)), min, max, v);
    SideHoldsBox(-my, RowZ(m), RowY(m), min, max, v);
    SideHoldsBox(-my, RowZ(m), Negated(RowY(m)), min, max, v);
  }

  lemma SidesOfAbs(m: real, r: Vec4, b: Vec4, v: Vec3, z: real, x: real)
    requires z == Row(r, v) && x == Row(b, v)
    ensures Abs(x) <= m * -z <==> OnSide(-m, r, b, v) && OnSide(-m, r, Negated(b), v)
  {
    NegatedRow(b, v);
    assert m * -z == -m * z;
  }

  lemma EyeRows(m: Mat4, v: Vec3, e: Vec3)
    requires Affine(m) && Transform(m, Point(v)) == Point(e)
    ensures e.x == Row(RowX(m), v) && e.y == Row(RowY(m), v) && e.z == Row(RowZ(m), v)
  {
  }

  lemma PyramidHasSides(mx: real, my: real, m: Mat4, v: Vec3, e: Vec3)
    requires Affine(m) && Transform(m, Point(v)) == Point(e)
    ensures InPyramid(mx, my, e) <==> InsideSides(mx, my, m, v)
  {
    EyeRows(m, v, e);
    SidesOfAbs(mx, RowZ(m), RowX(m), v, e.z, e.x);
    SidesOfAbs(my, RowZ(m), RowY(m), v, e.z, e.y);
  }

  lemma EyeOf(m: Mat4, v: Vec3) returns (e: Vec3)
    requires Affine(m)
    ensures Transform(m, Point(v)) == Point(e)
  {
    var r := Transform(m, Point(v));
    e := Vec3(r.x, r.y, r.z);
  }

  lemma FramedIfInside(tanHalf: real, aspect: real, near: real, far: real, m: Mat4, v: Vec3, mx: real, my: real)
    requires tanHalf > 0.0 && aspect > 0.0 && 0.0 < -near < -far && Affine(m)
    requires mx == WidthOfView(tanHalf, aspect) && my == HeightOfView(tanHalf, aspect)
    ensures Framed(Transform(ProjectionOf(tanHalf, aspect, near, far), Transform(m, Point(v))))
       <==> InsideSides(mx, my, m, v)
  {
    var e := EyeOf(m, v);
    FramedIff(tanHalf, aspect, near, far, e, mx, my);
    PyramidHasSides(mx, my, m, v, e);
  }

  /** The view is convex: with all corners of a box it frames the whole box. */
  lemma FramesWholeBox(tanHalf: real, aspect: real, near: real, far: real, m: Mat4, min: Vec3, max: Vec3, v: Vec3)
    requires tanHalf > 0.0 && aspect > 0.0 && 0.0 < -near < -far && Affine(m) && InBox(min, max, v)
    requires forall i: nat :: i < 8 ==>
      Framed(Transform(ProjectionOf(tanHalf, aspect, near, far), Transform(m, Point(Corner(min, max, i)))))
    ensures Framed(Transform(ProjectionOf(tanHalf, aspect, near, far), Transform(m, Point(v))))
  {
    var mx, my := WidthOfView(tanHalf, aspect), HeightOfView(tanHalf, aspect);
    forall i: nat | i < 8
      ensures InsideSides(mx, my, m, Corner(min, max, i))
    {
      FramedIfInside(tanHalf, aspect, near, far, m, Corner(min, max, i), mx, my);
    }
    SidesHoldBox(mx, my, m, min, max, v);
    FramedIfInside(tanHalf, aspect, near, far, m, v, mx, my);
  }

  lemma DepthIsRow(m: Mat4, v: Vec3, r: Vec4)
    requires Affine(m) && r == RowZ(m)
    ensures Transform(m, Point(v)).z == Row(r, v)
  {
  }

  /** Of all points of a box some corner is the deepest, and some the nearest. */
  lemma LeastDepth(m: Mat4, min: Vec3, max: Vec3, v: Vec3) returns (i: nat)
    requires InBox(min, max, v) && Affine(m)
    ensures i < 8 && Transform(m, Point(Corner(min, max, i))).z <= Transform(m, Point(v)).z
  {
    var r := RowZ(m);
    i := LeastCorner(min, max, r, v);
    DepthIsRow(m, v, r);
    DepthIsRow(m, Corner(min, max, i), r);
  }

  lemma GreatestDepth(m: Mat4, min: Vec3, max: Vec3, v: Vec3) returns (i: nat)
    requires InBox(min, max, v) && Affine(m)
    ensures i < 8 && Transform(m, Point(v)).z <= Transform(m, Point(Corner(min, max, i))).z
  {
    var r := RowZ(m);
    i := GreatestCorner(min, max, r, v);
    DepthIsRow(m, v, r);
    DepthIsRow(m, Corner(min, max, i), r);
  }

  lemma GreatestCorner(min: Vec3, max: Vec3, r: Vec4, v: Vec3) returns (i: nat)
    requires InBox(min, max, v)
    ensures i < 8 && Row(r, v) <= Row(r, Corner(min, max, i))
  {
    i := LeastCorner(min, max, Negated(r), v);
    NegatedRow(r, v);
    NegatedRow(r, Corner(min, max, i));
  }

  lemma ModelviewIsAffine(q: Quat, coi: Vec3, distance: real)
    ensures Affine(ModelviewOf(q, coi, distance))
  {
  }

  /** The view has the shape of the window, and its shorter side the field of view. */
  lemma ViewHasShapeOfWindow(tanHalf: real, aspect: real)
    requires aspect != 0.0
    ensures WidthOfView(tanHalf, aspect) == aspect * HeightOfView(tanHalf, aspect)
    ensures (if aspect < 1.0 then WidthOfView(tanHalf, aspect) else HeightOfView(tanHalf, aspect)) == tanHalf
  {
  }

  /** A point of the camera's space shows as many pixels to the right for its way to the right as upwards for its
      way upwards. */
  predicate Unstretched(c: Vec4, e: Vec3, width: real, height: real) {
    c.x * width * e.y == c.y * height * e.x
  }

  /** Along the shorter side of the window the field of view fills the window. */
  predicate FillsShorterSide(c: Vec4, e: Vec3, tanHalf: real, aspect: real) {
    if aspect < 1.0 then c.x * tanHalf == e.x else c.y * tanHalf == e.y
  }

  /** So nothing is stretched in a window of that shape. */
  lemma KeepsShape(tanHalf: real, aspect: real, width: real, height: real, near: real, far: real, e: Vec3)
    requires tanHalf > 0.0 && height != 0.0 && aspect == width / height && aspect != 0.0 && 0.0 < -near < -far
    ensures var c := Transform(ProjectionOf(tanHalf, aspect, near, far), Point(e));
            Unstretched(c, e, width, height) && FillsShorterSide(c, e, tanHalf, aspect) && c.w == -e.z
  {
    var c := Transform(ProjectionOf(tanHalf, aspect, near, far), Point(e));
    var mx, my := WidthOfView(tanHalf, aspect), HeightOfView(tanHalf, aspect);
    Projected(tanHalf, aspect, near, far, e, mx, my);
    ViewHasShapeOfWindow(tanHalf, aspect);
    SameScale(c, mx, my, e, aspect, width, height);
    assert (if aspect < 1.0 then mx else my) == tanHalf;
  }

  lemma SameScale(c: Vec4, mx: real, my: real, e: Vec3, aspect: real, width: real, height: real)
    requires height != 0.0 && aspect == width / height && mx == aspect * my && c.x * mx == e.x && c.y * my == e.y
    ensures Unstretched(c, e, width, height)
  {
    assert aspect * height == width;
    var k := c.x * c.y;
    var km := k * my;
    assert c.x * e.y == km && c.y * e.x == km * aspect;
    assert c.x * width * e.y == km * width && c.y * height * e.x == (km * aspect) * height;
    assert (km * aspect) * height == km * (aspect * height);
  }

  /** The depth planes of the projection lie at `near` and `far`. */
  lemma DepthIff(tanHalf: real, aspect: real, near: real, far: real, e: Vec3)
    requires tanHalf > 0.0 && aspect != 0.0 && 0.0 < -near < -far
    ensures var c := Transform(ProjectionOf(tanHalf, aspect, near, far), Point(e));
            (PastNearPlane(c) <==> e.z <= near) && (BeforeFarPlane(c) <==> far <= e.z)
  {
    var c := Transform(ProjectionOf(tanHalf, aspect, near, far), Point(e));
    Projected(tanHalf, aspect, near, far, e, WidthOfView(tanHalf, aspect), HeightOfView(tanHalf, aspect));
    DepthSides(-near, -far, e.z, c.z);
  }

  lemma DepthSides(n: real, f: real, z: real, c: real)
    requires 0.0 < n < f && c * (f - n) == -(f + n) * z - f * n * 2.0
    ensures z <= c <==> z <= -n
    ensures c <= -z <==> -f <= z
  {
    var d := f - n;
    var l, r, p, q := d * (c - z), d * (-z - c), (2.0 * f) * (-n - z), (2.0 * n) * (f + z);
    assert l == p;
    assert r == q;
    SignOfProduct(d, c - z, l);
    SignOfProduct(d, -z - c, r);
    SignOfProduct(2.0 * f, -n - z, p);
    SignOfProduct(2.0 * n, f + z, q);
  }

  /** A camera set back by at least a point's reach has the point in view, whatever the shape of the window. */
  lemma ReachIsEnough(tanHalf: real, aspect: real, near: real, far: real, p: Vec3, distance: real)
    requires tanHalf > 0.0 && aspect > 0.0 && 0.0 < -near < -far && distance >= Reach(1.0 / tanHalf, p)
    ensures Framed(Transform(ProjectionOf(tanHalf, aspect, near, far), Point(Add(p, Vec3(0.0, 0.0, -distance)))))
  {
    var e := Add(p, Vec3(0.0, 0.0, -distance));
    var mx, my := WidthOfView(tanHalf, aspect), HeightOfView(tanHalf, aspect);
    ViewIsPositive(tanHalf, aspect, mx, my);
    ReachInPyramid(1.0 / tanHalf, tanHalf, mx, my, p, e);
    FramedIff(tanHalf, aspect, near, far, e, mx, my);
  }

  lemma ReachInPyramid(t: real, tanHalf: real, mx: real, my: real, p: Vec3, e: Vec3)
    requires t * tanHalf == 1.0 && 0.0 < tanHalf <= mx && tanHalf <= my
    requires e.x == p.x && e.y == p.y && -e.z >= Reach(t, p) - p.z
    ensures InPyramid(mx, my, e)
  {
    var side, depth := Max(Abs(p.x), Abs(p.y)), -e.z;
    InsidePyramid(t, tanHalf, mx, side, depth);
    InsidePyramid(t, tanHalf, my, side, depth);
  }

  lemma InsidePyramid(t: real, tanHalf: real, m: real, side: real, depth: real)
    requires t * tanHalf == 1.0 && 0.0 < tanHalf <= m && side >= 0.0 && depth >= t * side
    ensures side <= m * depth
  {
    var ts, r, more := t * side, tanHalf * (depth - t * side), (m - tanHalf) * depth;
    SignOfProduct(tanHalf, t, t * tanHalf);
    assert ts >= 0.0;
    SignOfProduct(tanHalf, depth - ts, r);
    assert more >= 0.0;
    assert tanHalf * ts == (t * tanHalf) * side;
    assert m * depth == side + r + more;
  }

  /** In a square window the point that sets the distance lies on the border of the view. */
  lemma ReachIsTight(tanHalf: real, near: real, far: real, p: Vec3)
    requires tanHalf > 0.0 && 0.0 < -near < -far
    ensures var d := Reach(1.0 / tanHalf, p);
            var c := Transform(ProjectionOf(tanHalf, 1.0, near, far), Point(Add(p, Vec3(0.0, 0.0, -d))));
            Max(Abs(c.x), Abs(c.y)) == c.w
  {
    var t := 1.0 / tanHalf;
    var e := Add(p, Vec3(0.0, 0.0, -Reach(t, p)));
    ProjectedInSquare(tanHalf, near, far, e);
    InverseIs(tanHalf, t);
    TightSides(t, tanHalf, p, e, Transform(ProjectionOf(tanHalf, 1.0, near, far), Point(e)));
  }

  lemma InverseIs(m: real, t: real)
    requires m > 0.0 && t == 1.0 / m
    ensures t * m == 1.0
  {
  }

  lemma ProjectedInSquare(tanHalf: real, near: real, far: real, e: Vec3)
    requires tanHalf > 0.0 && 0.0 < -near < -far
    ensures var c := Transform(ProjectionOf(tanHalf, 1.0, near, far), Point(e));
            c.x * tanHalf == e.x && c.y * tanHalf == e.y && c.w == -e.z
  {
    Projected(tanHalf, 1.0, near, far, e, tanHalf, tanHalf);
  }

  lemma TightSides(t: real, m: real, p: Vec3, e: Vec3, c: Vec4)
    requires m > 0.0 && t * m == 1.0 && e == Add(p, Vec3(0.0, 0.0, -Reach(t, p)))
    requires c.x * m == e.x && c.y * m == e.y && c.w == -e.z
    ensures Max(Abs(c.x), Abs(c.y)) == c.w
  {
    SizeOfQuotient(c.x, t, m, e.x);
    SizeOfQuotient(c.y, t, m, e.y);
    SignOfProduct(m, t, t * m);
    LargerOfScaled(t, Abs(p.x), Abs(p.y));
  }

  lemma SizeOfQuotient(c: real, t: real, m: real, x: real)
    requires m > 0.0 && t * m == 1.0 && c * m == x
    ensures Abs(c) == t * Abs(x)
  {
    assert t * x == (t * m) * c;
    SignOfProduct(m, c, x);
    SignOfProduct(m, -c, -x);
  }

  lemma LargerOfScaled(t: real, a: real, b: real)
    requires t > 0.0
    ensures Max(t * a, t * b) == t * Max(a, b)
  {
    var p := t * (b - a);
    SignOfProduct(t, b - a, p);
    assert p == t * b - t * a;
  }

  // ----- picking --------------------------------------------------------------------------------

  /** The clip coordinates stand for the point (`nx`, `ny`) of the normalized device coordinates. */
  predicate ShowsAt(c: Vec4, nx: real, ny: real) {
    c.x == nx * c.w && c.y == ny * c.w
  }

  /** Two points have the same depth in the normalized device coordinates. */
  predicate SameDepth(c: Vec4, k: Vec4) {
    c.z * k.w == k.z * c.w
  }

  /** The point of the scene that shows at (`nx`, `ny`), at the depth of the centre of interest. */
  function Unproject(tanHalf: real, aspect: real, q: Quat, coi: Vec3, distance: real, nx: real, ny: real): Vec3
    requires aspect != 0.0
  {
    var mx, my := WidthOfView(tanHalf, aspect), HeightOfView(tanHalf, aspect);
    Add(coi, Rotate(Conjugate(q), Sideways(mx, my, distance, nx, ny)))
  }

  /** The same in the camera's space, as seen from the point straight ahead at that depth. */
  function Sideways(mx: real, my: real, distance: real, nx: real, ny: real): Vec3 {
    Vec3(nx * mx * distance, ny * my * distance, 0.0)
  }

  /** In the camera's space: a point shows at a place, at the depth of the point straight ahead at `distance`. */
  ghost predicate ShowsAhead(tanHalf: real, aspect: real, near: real, far: real, e: Vec3, distance: real,
                             nx: real, ny: real)
    requires tanHalf > 0.0 && aspect != 0.0 && 0.0 < -near < -far
  {
    var p := ProjectionOf(tanHalf, aspect, near, far);
    var c, k := Transform(p, Point(e)), Transform(p, Point(Vec3(0.0, 0.0, -distance)));
    ShowsAt(c, nx, ny) && SameDepth(c, k)
  }

  lemma AxisShows(c: real, m: real, e: real, w: real, n: real)
    requires m != 0.0 && c * m == e
    ensures e == n * m * w <==> c == n * w
  {
    var d := c - n * w;
    assert d * m == e - n * m * w;
  }

  lemma DepthShows(n: real, f: real, z: real, w: real, kz: real, d: real)
    requires 0.0 < n < f && d != 0.0
    requires z * (f - n) == (f + n) * w - f * n * 2.0 && kz * (f - n) == (f + n) * d - f * n * 2.0
    ensures z * d == kz * w <==> w == d
  {
    var s, g := f + n, f * n * 2.0;
    assert g > 0.0;
    assert (z * d - kz * w) * (f - n) == (z * (f - n)) * d - (kz * (f - n)) * w;
    assert (s * w - g) * d - (s * d - g) * w == g * (w - d);
    assert (z * d - kz * w) * (f - n) == g * (w - d);
  }

  lemma ViewIsNotEmpty(tanHalf: real, aspect: real)
    requires tanHalf > 0.0 && aspect != 0.0
    ensures WidthOfView(tanHalf, aspect) != 0.0 && HeightOfView(tanHalf, aspect) != 0.0
  {
    var h := tanHalf / aspect;
    assert h * aspect == tanHalf;
  }

  /** Which point that is. */
  lemma EyeShowsIff(tanHalf: real, aspect: real, near: real, far: real, e: Vec3, distance: real, nx: real, ny: real,
                    mx: real, my: real)
    requires tanHalf > 0.0 && aspect != 0.0 && 0.0 < -near < -far && distance != 0.0
    requires mx == WidthOfView(tanHalf, aspect) && my == HeightOfView(tanHalf, aspect)
    ensures ShowsAhead(tanHalf, aspect, near, far, e, distance, nx, ny) <==>
            e.x == nx * mx * distance && e.y == ny * my * distance && e.z == -distance
  {
    var p := ProjectionOf(tanHalf, aspect, near, far);
    Projected(tanHalf, aspect, near, far, e, mx, my);
    Projected(tanHalf, aspect, near, far, Vec3(0.0, 0.0, -distance), mx, my);
    ViewIsNotEmpty(tanHalf, aspect);
    ClipShowsIff(-near, -far, e, Transform(p, Point(e)), Transform(p, Point(Vec3(0.0, 0.0, -distance))),
                 distance, nx, ny, mx, my);
  }

  lemma ClipShowsIff(n: real, f: real, e: Vec3, c: Vec4, k: Vec4, distance: real, nx: real, ny: real,
                     mx: real, my: real)
    requires 0.0 < n < f && distance != 0.0 && mx != 0.0 && my != 0.0
    requires c.x * mx == e.x && c.y * my == e.y && c.w == -e.z && k.w == distance
    requires c.z * (f - n) == -(f + n) * e.z - f * n * 2.0 && k.z * (f - n) == -(f + n) * -distance - f * n * 2.0
    ensures ShowsAt(c, nx, ny) && SameDepth(c, k) <==>
            e.x == nx * mx * distance && e.y == ny * my * distance && e.z == -distance
  {
    DepthShows(n, f, c.z, -e.z, k.z, distance);
    AxisShows(c.x, mx, e.x, distance, nx);
    AxisShows(c.y, my, e.y, distance, ny);
  }

  /** Only `Unproject` shows at the place and at the depth, so it is what the inverse of the matrices gives. */
  lemma UnprojectIff(tanHalf: real, aspect: real, near: real, far: real, q: Quat, coi: Vec3, distance: real, v: Vec3,
                     nx: real, ny: real)
    requires tanHalf > 0.0 && aspect != 0.0 && 0.0 < -near < -far && distance != 0.0 && Unit(q)
    ensures var p, m := ProjectionOf(tanHalf, aspect, near, far), ModelviewOf(q, coi, distance);
            var c, k := Transform(p, Transform(m, Point(v))), Transform(p, Transform(m, Point(coi)));
            ShowsAt(c, nx, ny) && SameDepth(c, k) <==> v == Unproject(tanHalf, aspect, q, coi, distance, nx, ny)
  {
    ModelviewPlaces(q, coi, distance, v);
    CenterIsAhead(q, coi, distance);
    var mx, my := WidthOfView(tanHalf, aspect), HeightOfView(tanHalf, aspect);
    var r := Rotate(q, Subtract(v, coi));
    var e := Add(r, Vec3(0.0, 0.0, -distance));
    EyeShowsIff(tanHalf, aspect, near, far, e, distance, nx, ny, mx, my);
    SidewaysIff(r, e, distance, nx, ny, mx, my);
    TurnedBackIff(q, v, coi, Sideways(mx, my, distance, nx, ny));
  }

  lemma SidewaysIff(r: Vec3, e: Vec3, distance: real, nx: real, ny: real, mx: real, my: real)
    requires e == Add(r, Vec3(0.0, 0.0, -distance))
    ensures e.x == nx * mx * distance && e.y == ny * my * distance && e.z == -distance <==>
            r == Sideways(mx, my, distance, nx, ny)
  {
    SetBackIff(r, distance, nx * mx * distance, ny * my * distance);
  }

  lemma SetBackIff(r: Vec3, distance: real, a: real, b: real)
    ensures var e := Add(r, Vec3(0.0, 0.0, -distance));
            e.x == a && e.y == b && e.z == -distance <==> r == Vec3(a, b, 0.0)
  {
  }

  lemma CenterIsAhead(q: Quat, coi: Vec3, distance: real)
    requires Unit(q)
    ensures Transform(ModelviewOf(q, coi, distance), Point(coi)) == Point(Vec3(0.0, 0.0, -distance))
  {
    ModelviewPlaces(q, coi, distance, coi);
    assert Subtract(coi, coi) == Vec3(0.0, 0.0, 0.0);
    assert Rotate(q, Vec3(0.0, 0.0, 0.0)) == Vec3(0.0, 0.0, 0.0);
  }

  lemma TurnedBackIff(q: Quat, v: Vec3, coi: Vec3, u: Vec3)
    requires Unit(q)
    ensures Rotate(q, Subtract(v, coi)) == u <==> v == Add(coi, Rotate(Conjugate(q), u))
  {
    RotateBack(q, Subtract(v, coi));
    RotateBack(q, u);
    var r := Rotate(Conjugate(q), u);
    assert Subtract(Add(coi, r), coi) == r;
    assert v == Add(coi, Subtract(v, coi));
  }

  /** A point that lies sideways of the centre of interest shows at that place. */
  lemma SidewaysShows(tanHalf: real, aspect: real, near: real, far: real, q: Quat, coi: Vec3, distance: real, v: Vec3,
                      nx: real, ny: real, mx: real, my: real)
    requires tanHalf > 0.0 && aspect != 0.0 && 0.0 < -near < -far && Unit(q)
    requires mx == WidthOfView(tanHalf, aspect) && my == HeightOfView(tanHalf, aspect)
    requires v == Add(coi, Rotate(Conjugate(q), Sideways(mx, my, distance, nx, ny)))
    ensures var p, m := ProjectionOf(tanHalf, aspect, near, far), ModelviewOf(q, coi, distance);
            var c := Transform(p, Transform(m, Point(v)));
            c.w == distance && ShowsAt(c, nx, ny)
  {
    var u := Sideways(mx, my, distance, nx, ny);
    var e := Add(u, Vec3(0.0, 0.0, -distance));
    TurnedBackIff(q, v, coi, u);
    ModelviewPlaces(q, coi, distance, v);
    Projected(tanHalf, aspect, near, far, e, mx, my);
    ViewIsNotEmpty(tanHalf, aspect);
    var c := Transform(ProjectionOf(tanHalf, aspect, near, far), Point(e));
    AxisShows(c.x, mx, nx * mx * distance, distance, nx);
    AxisShows(c.y, my, ny * my * distance, distance, ny);
  }
}
