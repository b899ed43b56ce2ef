/** The trackball camera: a manipulator whose methods change its fields as the mouse moves. */
module Trackball {
  import opened GlMatrix
  import opened Camera

  datatype DragState = Void | Rotation | Translation | Dolly

  /** What the mouse and the window may do to the camera. */
  datatype Event =
    | Resize(width: real, height: real)
    | Box(min: Vec3, max: Vec3)
    | PressRotate(x: real, y: real)
    | PressTranslate(x: real, y: real)
    | PressDolly(x: real, y: real)
    | Drag(x: real, y: real)
    | Release

  /** What the mouse drags after an event: a press begins a drag, a release ends it. */
  function StateAfter(state: DragState, e: Event): DragState {
    match e
    case PressRotate(_, _) => Rotation
    case PressTranslate(_, _) => Translation
    case PressDolly(_, _) => Dolly
    case Release => Void
    case _ => state
  }

  function StateAfterAll(state: DragState, events: seq<Event>): DragState {
    if events == [] then state
    else StateAfter(StateAfterAll(state, events[..|events| - 1]), events[|events| - 1])
  }

  /** What the inverse of projection and modelview, kept when a translation starts, was made of. */
  datatype View = View(aspect: real, orientation: Quat, coi: Vec3, distance: real)

  // ----- largest and smallest of a list ---------------------------------------------------------

  function Largest(s: seq<real>): real
    requires |s| > 0
  {
    if |s| == 1 then s[0] else Max(Largest(s[..|s| - 1]), s[|s| - 1])
  }

  function Smallest(s: seq<real>): real
    requires |s| > 0
  {
    if |s| == 1 then s[0] else Min(Smallest(s[..|s| - 1]), s[|s| - 1])
  }

  lemma {:induction false} LargestAndSmallest(s: seq<real>)
    requires |s| > 0
    ensures Largest(s) in s && Smallest(s) in s
    ensures forall i :: 0 <= i < |s| ==> Smallest(s) <= s[i] <= Largest(s)
  {
    if |s| > 1 {
      var r := s[..|s| - 1];
      LargestAndSmallest(r);
      forall i | 0 <= i < |s|
        ensures Smallest(s) <= s[i] <= Largest(s)
      {
        if i < |r| {
          assert r[i] == s[i];
        }
      }
    }
  }

  lemma LargestOfNext(s: seq<real>, i: nat)
    requires i < |s|
    ensures Largest(s[..i + 1]) == if i == 0 then s[0] else Max(Largest(s[..i]), s[i])
  {
    assert s[..i + 1][..i] == s[..i];
  }

  /** How deep the corners of a box lie in the camera's space. */
  function Depths(m: Mat4, min: Vec3, max: Vec3): (zs: seq<real>)
    ensures |zs| == 8
  {
    seq(8, i requires 0 <= i < 8 => Transform(m, Point(Corner(min, max, i))).z)
  }

  /** How far back the camera must be for each corner, turning about `c`. */
  function Reaches(q: Quat, t: real, c: Vec3, min: Vec3, max: Vec3): (rs: seq<real>)
    ensures |rs| == 8
  {
    seq(8, i requires 0 <= i < 8 => Reach(t, Rotate(q, Subtract(Corner(min, max, i), c))))
  }

  /** The corner that reaches farthest back reaches at least to the centre, so starting from zero is harmless. */
  lemma FarthestReach(q: Quat, t: real, min: Vec3, max: Vec3)
    requires Unit(q) && t > 0.0
    ensures Largest(Reaches(q, t, Center(min, max), min, max)) >= 0.0
  {
    var rs := Reaches(q, t, Center(min, max), min, max);
    LargestAndSmallest(rs);
    SomeCornerReachesBack(q, min, max, t);
    assert rs[0] <= Largest(rs) && rs[7] <= Largest(rs);
  }

  /** The point of the unit sphere over a place `right` and `up` of its middle, where a window of height `h` is as
      high as the sphere: straight above the place, or the nearest on the rim. */
  predicate OverPixel(p: Vec3, right: real, up: real, h: real) {
    && UnitVec(p) && p.z >= 0.0
    && if right * right + up * up < h * h then p.x * h == right && p.y * h == up
       else p.z == 0.0 && p.x * up == p.y * right && (p.x * right + p.y * up) * h > 0.0
  }

  // ----- the manipulator ------------------------------------------------------------------------

  class TrackBallManipulator {
    /** The square root, and the tangent of half the field of view. */
    const sqrt: real -> real
    const tanHalf: real

    var state: DragState
    var width: real
    var height: real
    var aspect: real
    var factor: real
    var pos: Vec3
    var quat: Quat
    var posPrev: Vec3
    var distance: real
    var distancePrev: real
    var bboxMin: Vec3
    var bboxMax: Vec3
    var coi: Vec3
    var coiPrev: Vec3
    var viewPrev: View
    var orientation: Quat
    var orientationPrev: Quat
    var projection: Mat4
    var modelview: Mat4

    ghost predicate Valid()
      reads this
    {
      && Ready()
      && (state == Rotation ==> Unit(orientationPrev) && UnitVec(posPrev))
      && (state == Translation ==> viewPrev.aspect != 0.0)
    }

    /** What holds of the camera whether or not a drag is under way. */
    ghost predicate Ready()
      reads this
    {
      && IsSqrt(sqrt) && tanHalf > 0.0 && Sized() && aspect != 0.0
      && Unit(orientation)
    }

    predicate Sized()
      reads `width, `height, `aspect
    {
      width != 0.0 && height != 0.0 && aspect == width / height
    }

    /** The matrices are those of the camera's fields: the modelview turns about the centre of interest, and
        the projection has its planes a little outside the deepest and the nearest corner of the box. */
    ghost predicate MatricesFollow()
      reads this
      requires tanHalf > 0.0 && aspect != 0.0
    {
      var zs := Depths(modelview, bboxMin, bboxMax);
      var near, far := Largest(zs), Smallest(zs);
      && modelview == ModelviewOf(orientation, coi, distance)
      && far <= near
      && (PlanesInOrder(near, far);
          projection == ProjectionOf(tanHalf, aspect, NearPlane(near, far), FarPlane(far)))
    }

    /** Where the camera's matrices put a point of the scene. */
    ghost function Seen(v: Vec3): Vec4
      reads this
    {
      Transform(projection, Transform(modelview, Point(v)))
    }

    /** How deep a point of the scene lies in front of the camera, downwards from zero. */
    ghost function Depth(v: Vec3): real
      reads this
    {
      Transform(modelview, Point(v)).z
    }

    /** Every point of the box is inside the four sides of the view. */
    ghost predicate BoxInView()
      reads this
    {
      forall v: Vec3 :: InBox(bboxMin, bboxMax, v) ==> Framed(Seen(v))
    }

    /** Some point of the box is on the border of the view. */
    ghost predicate BoxTouchesView()
      reads this
    {
      exists v: Vec3 :: InBox(bboxMin, bboxMax, v) && Max(Abs(Seen(v).x), Abs(Seen(v).y)) == Seen(v).w
    }

    constructor (sqrt: real -> real, tanHalf: real)
      requires IsSqrt(sqrt) && tanHalf > 0.0
      ensures Valid() && MatricesFollow() && this.sqrt == sqrt && this.tanHalf == tanHalf
      ensures state == Void && aspect == 1.0
      ensures forall v: Vec3 :: Rotate(orientation, v) == v
      ensures bboxMin == Vec3(-1.0, -1.0, -1.0) && bboxMax == Vec3(1.0, 1.0, 1.0)
      ensures BoxInView() && BoxTouchesView()
    {
      this.sqrt, this.tanHalf := sqrt, tanHalf;
      state, width, height, aspect, factor := Void, 1.0, 1.0, 1.0, 1.0;
      distance, distancePrev := 1.0, 1.0;
      bboxMin, bboxMax, coi := Vec3(-1.0, -1.0, -1.0), Vec3(1.0, 1.0, 1.0), Vec3(0.0, 0.0, 0.0);
      var q := TrackBallManipulator.NoTurn();
      orientation := q;
      new;
      ViewAll();
    }

    /** The first orientation, known to the rest only by what it does: as four numbers it would cost the
        solver dear. */
    static method NoTurn() returns (q: Quat)
      ensures Unit(q)
      ensures forall v: Vec3 :: Rotate(q, v) == v
    {
      q := Quat(0.0, 0.0, 0.0, 1.0);
      forall v: Vec3
        ensures Rotate(q, v) == v
      {
        IdentityKeeps(v);
      }
    }

    method SetWindowSize(w: real, h: real) returns (changed: bool)
      requires Valid()
      modifies `width, `height, `aspect, `projection, `modelview
      ensures Valid()
      ensures changed <==> w != 0.0 && h != 0.0 && (old(width) != w || old(height) != h)
      ensures changed ==> width == w && height == h && MatricesFollow()
      ensures !changed ==>
        && width == old(width) && height == old(height) && aspect == old(aspect)
        && projection == old(projection) && modelview == old(modelview)
    {
      if w != 0.0 && h != 0.0 {
        if width != w || height != h {
          width, height := w, h;
          aspect := (w + 0.0) / h;
          QuotientIsNotZero(w, h);
          UpdateMatrices();
          return true;
        }
      }
      return false;
    }

    method SetBoundingBox(min: Vec3, max: Vec3)
      requires Valid()
      modifies `bboxMin, `bboxMax, `factor
      ensures Valid() && bboxMin == min && bboxMax == max
      ensures factor in {max.x - min.x, max.y - min.y, max.z - min.z}
      ensures factor >= max.x - min.x && factor >= max.y - min.y && factor >= max.z - min.z
    {
      bboxMin, bboxMax := min, max;
      factor := Max(Max(max.x - min.x, max.y - min.y), max.z - min.z);
    }

    /** Centres the box and sets the camera back just as far as the corner that needs it most. */
    method ViewAll()
      requires Valid()
      modifies `coi, `distance, `projection, `modelview
      ensures Valid() && MatricesFollow()
      ensures coi == Center(bboxMin, bboxMax)
      ensures distance == Largest(Reaches(orientation, 1.0 / tanHalf, coi, bboxMin, bboxMax))
      ensures aspect > 0.0 ==> BoxInView()
      ensures aspect == 1.0 ==> BoxTouchesView()
    {
      coi := Vec3(0.5 * (bboxMin.x + bboxMax.x), 0.5 * (bboxMin.y + bboxMax.y), 0.5 * (bboxMin.z + bboxMax.z));
      SetBack();
      FarthestReach(orientation, 1.0 / tanHalf, bboxMin, bboxMax);
      UpdateMatrices();
      if aspect > 0.0 {
        ViewAllFrames();
      }
      if aspect == 1.0 {
        ViewAllTouches();
      }
    }

    /** The loop of `viewAll`. */
    method SetBack()
      requires tanHalf > 0.0
      modifies `distance
      ensures distance == Max(0.0, Largest(Reaches(orientation, 1.0 / tanHalf, coi, bboxMin, bboxMax)))
    {
      var t := 1.0 / tanHalf;
      distance := 0.0;
      ghost var rs := Reaches(orientation, t, coi, bboxMin, bboxMax);
      var i := 0;
      while i < 8
        invariant 0 <= i <= 8
        invariant distance == if i == 0 then 0.0 else Max(0.0, Largest(rs[..i]))
      {
        var reach := CornerReach(t, i);
        distance := Max(distance, reach);
        LargestOfNext(rs, i);
        i := i + 1;
      }
      assert rs[..8] == rs;
    }

    /** The body of that loop. */
    method CornerReach(t: real, i: nat) returns (reach: real)
      requires i < 8
      ensures reach == Reaches(orientation, t, coi, bboxMin, bboxMax)[i]
    {
      var p := Corner(bboxMin, bboxMax, i);
      p := Subtract(p, coi);
      p := Rotate(orientation, p);
      reach := Reach(t, p);
    }

    method UpdateMatrices()
      requires Ready()
      modifies `projection, `modelview
      ensures Ready() && MatricesFollow()
    {
      modelview := FromRotationTranslation(orientation, Vec3(0.0, 0.0, -distance));
      modelview := Translate(modelview, Vec3(-coi.x, -coi.y, -coi.z));
      var near, far := DepthRange();
      Project(near, far);
    }

    /** The loop of `updateMatrices`: the depths of the nearest and of the deepest corner. */
    method DepthRange() returns (near: real, far: real)
      requires Ready() && modelview == ModelviewOf(orientation, coi, distance)
      ensures var zs := Depths(modelview, bboxMin, bboxMax); near == Largest(zs) && far == Smallest(zs)
      ensures far <= near
    {
      ghost var zs := Depths(modelview, bboxMin, bboxMax);
      near, far := 0.0, 0.0;
      var i := 0;
      while i < 8
        invariant 0 <= i <= 8
        invariant i > 0 ==> near == Largest(zs[..i]) && far == Smallest(zs[..i])
      {
        var p := Point(Corner(bboxMin, bboxMax, i));
        p := Transform(modelview, p);
        ModelviewPlaces(orientation, coi, distance, Corner(bboxMin, bboxMax, i));
        var z := (1.0 / p.w) * p.z;
        assert zs[..i + 1][..i] == zs[..i] && zs[i] == z;
        if i == 0 {
          near, far := z, z;
        } else {
          near, far := Max(near, z), Min(far, z);
        }
        i := i + 1;
      }
      assert zs[..8] == zs;
      LargestAndSmallest(zs);
    }

    /** The end of `updateMatrices`: the planes and the projection for corners between these depths. */
    method Project(nearest: real, deepest: real)
      requires tanHalf > 0.0 && aspect != 0.0 && deepest <= nearest
      modifies `projection
      ensures 0.0 < -NearPlane(nearest, deepest) < -FarPlane(deepest)
      ensures projection == ProjectionOf(tanHalf, aspect, NearPlane(nearest, deepest), FarPlane(deepest))
    {
      var epsilon := 0.001;
      var far := Min(-epsilon, deepest - epsilon);
      var near := Min(0.01 * far, Max(far, nearest + epsilon));
      PlanesInOrder(nearest, deepest);
      var w2, h2;
      if aspect < 1.0 {
        w2 := tanHalf * -near;
        h2 := w2 / aspect;
      } else {
        h2 := tanHalf * -near;
        w2 := h2 * aspect;
      }
      HalvesAreNotZero(tanHalf, aspect, -near);
      assert w2 == HalfWidth(tanHalf, aspect, -near) && h2 == HalfHeight(tanHalf, aspect, -near);
      projection := Frustum(-w2, w2, -h2, h2, -near, -far);
    }

    /** Where a corner ends up: turned about the centre of interest, set back, projected. */
    lemma ClipOf(i: nat)
      requires Valid() && MatricesFollow() && i < 8
      ensures var r := Rotate(orientation, Subtract(Corner(bboxMin, bboxMax, i), coi));
              Seen(Corner(bboxMin, bboxMax, i)) == Transform(projection, Point(Add(r, Vec3(0.0, 0.0, -distance))))
    {
      ModelviewPlaces(orientation, coi, distance, Corner(bboxMin, bboxMax, i));
    }

    lemma ViewAllFramesCorner(i: nat)
      requires Valid() && MatricesFollow() && coi == Center(bboxMin, bboxMax) && aspect > 0.0 && i < 8
      requires distance == Largest(Reaches(orientation, 1.0 / tanHalf, coi, bboxMin, bboxMax))
      ensures Framed(Seen(Corner(bboxMin, bboxMax, i)))
    {
      var zs, rs := Depths(modelview, bboxMin, bboxMax), Reaches(orientation, 1.0 / tanHalf, coi, bboxMin, bboxMax);
      var near, far := NearPlane(Largest(zs), Smallest(zs)), FarPlane(Smallest(zs));
      LargestAndSmallest(rs);
      PlanesInOrder(Largest(zs), Smallest(zs));
      ClipOf(i);
      assert rs[i] <= distance;
      ReachIsEnough(tanHalf, aspect, near, far, FromCenter(orientation, bboxMin, bboxMax, i), distance);
    }

    lemma ViewAllFrames()
      requires Valid() && MatricesFollow() && coi == Center(bboxMin, bboxMax) && aspect > 0.0
      requires distance == Largest(Reaches(orientation, 1.0 / tanHalf, coi, bboxMin, bboxMax))
      ensures BoxInView()
    {
      var zs := Depths(modelview, bboxMin, bboxMax);
      var near, far := Largest(zs), Smallest(zs);
      PlanesInOrder(near, far);
      ModelviewIsAffine(orientation, coi, distance);
      forall i: nat | i < 8
        ensures Framed(Seen(Corner(bboxMin, bboxMax, i)))
      {
        ViewAllFramesCorner(i);
      }
      forall v: Vec3 | InBox(bboxMin, bboxMax, v)
        ensures Framed(Seen(v))
      {
        FramesWholeBox(tanHalf, aspect, NearPlane(near, far), FarPlane(far), modelview, bboxMin, bboxMax, v);
      }
    }

    lemma ViewAllTouches()
      requires Valid() && MatricesFollow() && coi == Center(bboxMin, bboxMax) && aspect == 1.0
      requires distance == Largest(Reaches(orientation, 1.0 / tanHalf, coi, bboxMin, bboxMax))
      ensures BoxTouchesView()
    {
      var zs, rs := Depths(modelview, bboxMin, bboxMax), Reaches(orientation, 1.0 / tanHalf, coi, bboxMin, bboxMax);
      var near, far := NearPlane(Largest(zs), Smallest(zs)), FarPlane(Smallest(zs));
      LargestAndSmallest(rs);
      PlanesInOrder(Largest(zs), Smallest(zs));
      var i: nat :| i < 8 && rs[i] == Largest(rs);
      ClipOf(i);
      ReachIsTight(tanHalf, near, far, FromCenter(orientation, bboxMin, bboxMax, i));
      CornersInBox(bboxMin, bboxMax, i);
    }

    /** Between which depths the box lies: some point of it is as near, and some as deep, as the loop finds. */
    lemma DepthsOfBox(v: Vec3)
      requires Valid() && MatricesFollow() && InBox(bboxMin, bboxMax, v)
      ensures var zs := Depths(modelview, bboxMin, bboxMax); Smallest(zs) <= Depth(v) <= Largest(zs)
    {
      var zs := Depths(modelview, bboxMin, bboxMax);
      LargestAndSmallest(zs);
      ModelviewIsAffine(orientation, coi, distance);
      var i := LeastDepth(modelview, bboxMin, bboxMax, v);
      var j := GreatestDepth(modelview, bboxMin, bboxMax, v);
      assert zs[i] <= Depth(v) <= zs[j];
    }

    lemma ExtremesInBox() returns (n: Vec3, f: Vec3)
      ensures InBox(bboxMin, bboxMax, n) && InBox(bboxMin, bboxMax, f)
      ensures var zs := Depths(modelview, bboxMin, bboxMax); Depth(n) == Largest(zs) && Depth(f) == Smallest(zs)
    {
      var zs := Depths(modelview, bboxMin, bboxMax);
      LargestAndSmallest(zs);
      var i: nat :| i < 8 && zs[i] == Largest(zs);
      var j: nat :| j < 8 && zs[j] == Smallest(zs);
      n, f := Corner(bboxMin, bboxMax, i), Corner(bboxMin, bboxMax, j);
      CornersInBox(bboxMin, bboxMax, i);
      CornersInBox(bboxMin, bboxMax, j);
    }

    /** Where the planes lie, for any point of the scene and any nearest and deepest point of the box: a thousandth
        beyond the deepest point, but in front of the camera, and a thousandth before the nearest, but no nearer
        than a hundredth of the far plane. */
    lemma PlanesIff(v: Vec3, n: Vec3, f: Vec3)
      requires Valid() && MatricesFollow() && InBox(bboxMin, bboxMax, n) && InBox(bboxMin, bboxMax, f)
      requires forall u: Vec3 :: InBox(bboxMin, bboxMax, u) ==> Depth(f) <= Depth(u) <= Depth(n)
      ensures var deepest := Min(-0.001, Depth(f) - 0.001);
              && (BeforeFarPlane(Seen(v)) <==> deepest <= Depth(v))
              && (PastNearPlane(Seen(v)) <==> Depth(v) <= Min(0.01 * deepest, Depth(n) + 0.001))
    {
      var zs := Depths(modelview, bboxMin, bboxMax);
      DepthsOfBox(n);
      DepthsOfBox(f);
      var a, b := ExtremesInBox();
      assert Depth(n) == Largest(zs) && Depth(f) == Smallest(zs);
      DepthPlanes(v);
    }

    lemma DepthPlanes(v: Vec3)
      requires Valid() && MatricesFollow()
      ensures var zs := Depths(modelview, bboxMin, bboxMax);
              && (BeforeFarPlane(Seen(v)) <==> FarPlane(Smallest(zs)) <= Depth(v))
              && (PastNearPlane(Seen(v)) <==> Depth(v) <= NearPlane(Largest(zs), Smallest(zs)))
    {
      var zs := Depths(modelview, bboxMin, bboxMax);
      var near, far := Largest(zs), Smallest(zs);
      PlanesInOrder(near, far);
      ModelviewPlaces(orientation, coi, distance, v);
      var e := Add(Rotate(orientation, Subtract(v, coi)), Vec3(0.0, 0.0, -distance));
      DepthIff(tanHalf, aspect, NearPlane(near, far), FarPlane(far), e);
    }

    /** So the far plane never clips the box, and the near plane clips exactly the points of it that are nearer than
        a hundredth of the far plane. */
    lemma DepthOfView(v: Vec3, f: Vec3)
      requires Valid() && MatricesFollow() && InBox(bboxMin, bboxMax, v) && InBox(bboxMin, bboxMax, f)
      requires forall u: Vec3 :: InBox(bboxMin, bboxMax, u) ==> Depth(f) <= Depth(u)
      ensures BeforeFarPlane(Seen(v))
      ensures PastNearPlane(Seen(v)) <==> Depth(v) <= 0.01 * Min(-0.001, Depth(f) - 0.001)
    {
      var n, b := ExtremesInBox();
      forall u: Vec3 | InBox(bboxMin, bboxMax, u)
        ensures Depth(u) <= Depth(n)
      {
        DepthsOfBox(u);
      }
      PlanesIff(v, n, f);
    }

    /** The picture has the shape of the scene: what lies as far to the right as upwards, as the camera sees it,
        shows as many pixels to the right as upwards; and the shorter side of the window spans the field of view. */
    lemma NothingIsStretched(v: Vec3)
      requires Valid() && MatricesFollow()
      ensures var r := Transform(modelview, Point(v));
              var e := Vec3(r.x, r.y, r.z);
              && Unstretched(Seen(v), e, width, height) && FillsShorterSide(Seen(v), e, tanHalf, aspect)
              && Seen(v).w == -e.z
    {
      var zs := Depths(modelview, bboxMin, bboxMax);
      var near, far := Largest(zs), Smallest(zs);
      PlanesInOrder(near, far);
      ModelviewPlaces(orientation, coi, distance, v);
      var e := Add(Rotate(orientation, Subtract(v, coi)), Vec3(0.0, 0.0, -distance));
      KeepsShape(tanHalf, aspect, width, height, NearPlane(near, far), FarPlane(far), e);
    }

    /** The bounding box is a rod that points at the camera, `w` wide and `l` long to each side, seen straight on,
        and the camera is set back as `viewAll` does. */
    ghost predicate SeesRod(w: real, l: real)
      reads this
      requires tanHalf != 0.0
    {
      && w > 0.0 && l > 0.0 && (forall v: Vec3 :: Rotate(orientation, v) == v)
      && bboxMin == Vec3(-w, -w, -l) && bboxMax == Vec3(w, w, l) && coi == Vec3(0.0, 0.0, 0.0)
      && distance == Largest(Reaches(orientation, 1.0 / tanHalf, coi, bboxMin, bboxMax))
    }

    lemma RodDistance(w: real, l: real)
      requires tanHalf == 1.0 && SeesRod(w, l)
      ensures distance == l + w
    {
      var rs := Reaches(orientation, 1.0 / tanHalf, coi, bboxMin, bboxMax);
      LargestAndSmallest(rs);
      forall i: nat | i < 8
        ensures rs[i] == Corner(bboxMin, bboxMax, i).z + w
      {
        RodReach(w, l, i, Corner(bboxMin, bboxMax, i));
      }
      assert rs[7] == l + w;
    }

    lemma RodDepths(w: real, l: real)
      requires Valid() && MatricesFollow() && tanHalf == 1.0 && SeesRod(w, l) && distance == l + w
      ensures var zs := Depths(modelview, bboxMin, bboxMax); zs[7] == -w && Smallest(zs) == -(2.0 * l + w)
    {
      var zs := Depths(modelview, bboxMin, bboxMax);
      LargestAndSmallest(zs);
      forall i: nat | i < 8
        ensures zs[i] == Corner(bboxMin, bboxMax, i).z - distance
      {
        RodReach(w, l, i, Corner(bboxMin, bboxMax, i));
        ModelviewPlaces(orientation, coi, distance, Corner(bboxMin, bboxMax, i));
      }
      assert zs[0] == -l - distance;
    }

    lemma RodIsCut(w: real, l: real)
      requires Valid() && MatricesFollow() && tanHalf == 1.0 && SeesRod(w, l)
      ensures PastNearPlane(Seen(Vec3(w, w, l))) <==> w >= 0.01 * (2.0 * l + w + 0.001)
    {
      RodDistance(w, l);
      RodDepths(w, l);
      DepthPlanes(Vec3(w, w, l));
      LargestAndSmallest(Depths(modelview, bboxMin, bboxMax));
      assert Corner(bboxMin, bboxMax, 7) == Vec3(w, w, l);
    }

    /** A point of the window in units of half its height, from its middle to the right and upwards. */
    function WindowX(x: real): (r: real)
      requires Sized()
      reads `width, `height, `aspect
      ensures r * height == 2.0 * x - width
    {
      PlaceAcross(x, width, height, aspect);
      ((2.0 * x) / width - 1.0) * aspect
    }

    function WindowY(y: real): (r: real)
      requires Sized()
      reads `width, `height, `aspect
      ensures r * height == height - 2.0 * y
    {
      PlaceUp(y, height);
      -((2.0 * y) / height - 1.0)
    }

    method NormalizedPos(x: real, y: real) returns (p: Vec3)
      requires Ready()
      ensures p == Vec3(WindowX(x), WindowY(y), 1.0)
      ensures p.x * height == 2.0 * x - width && p.y * height == height - 2.0 * y
    {
      p := Vec3(WindowX(x), WindowY(y), 1.0);
    }

    /** The point of the unit sphere over a point of the window, the sphere being as high as the window and in its
        middle: straight above it, or the nearest on the rim. */
    ghost predicate UnderMouse(p: Vec3, x: real, y: real)
      reads `width, `height
    {
      OverPixel(p, 2.0 * x - width, height - 2.0 * y, height)
    }

    /** A point above the middle of the window is turned upwards, and one to the right of it to the right. */
    lemma UnderMouseSides(p: Vec3, x: real, y: real)
      requires height > 0.0 && UnderMouse(p, x, y)
      ensures p.y > 0.0 <==> 2.0 * y < height
      ensures p.x > 0.0 <==> 2.0 * x > width
    {
      SidesOfSphere(p, 2.0 * x - width, height - 2.0 * y, height);
    }

    method PointOnRim(nx: real, ny: real, r2: real) returns (p: Vec3)
      requires IsSqrt(sqrt) && r2 == nx * nx + ny * ny && r2 >= 1.0
      ensures OverPixel(p, nx, ny, 1.0)
    {
      RootIsPositive(sqrt, r2);
      var r := 1.0 / sqrt(r2);
      p := Vec3(r * nx, r * ny, 0.0);
      RimIsUnit(nx, ny, sqrt(r2), r, r2, p);
    }

    method PointOnUnitSphere(x: real, y: real) returns (p: Vec3)
      requires Ready()
      ensures UnderMouse(p, x, y)
    {
      var nx, ny := WindowX(x), WindowY(y);
      p := PointOverPlace(nx, ny);
      InPixels(p, nx, ny, 2.0 * x - width, height - 2.0 * y, height);
    }

    method PointOverPlace(nx: real, ny: real) returns (p: Vec3)
      requires IsSqrt(sqrt)
      ensures OverPixel(p, nx, ny, 1.0)
    {
      var r2 := nx * nx + ny * ny;
      if r2 < 1.0 {
        p := Vec3(nx, ny, sqrt(1.0 - r2));
        LiftedIsUnit(nx, ny, p.z, r2);
      } else {
        p := PointOnRim(nx, ny, r2);
      }
    }

    method SetStateRotation(x: real, y: real)
      requires Valid()
      modifies `state, `posPrev, `orientationPrev
      ensures Valid() && state == Rotation && orientationPrev == orientation && UnderMouse(posPrev, x, y)
    {
      state := Rotation;
      posPrev := PointOnUnitSphere(x, y);
      orientationPrev := orientation;
    }

    /** What the inverse of the matrices of a view makes of a place in the window, at the depth of the centre of
        interest (`UnprojectIff`). */
    function Picked(view: View, nx: real, ny: real): Vec3
      requires view.aspect != 0.0
    {
      Unproject(tanHalf, view.aspect, view.orientation, view.coi, view.distance, nx, ny)
    }

    /** The press: the point of the scene that shows at the place of the mouse, as `_normalizedPos` has it. */
    method SetStateTranslation(x: real, y: real)
      requires Valid()
      modifies `state, `posPrev, `coiPrev, `viewPrev
      ensures Valid() && Undisturbed() && coiPrev == coi
      ensures posPrev == Picked(viewPrev, WindowX(x), WindowY(y))
      ensures old(MatricesFollow()) && distance != 0.0 ==>
        ShowsAtPlace(Seen(posPrev), x, y) && SameDepth(Seen(posPrev), Seen(coi))
    {
      if MatricesFollow() && distance != 0.0 {
        PickShows(x, y);
      }
      state := Translation;
      coiPrev := coi;
      viewPrev := View(aspect, orientation, coi, distance);
      posPrev := Picked(viewPrev, WindowX(x), WindowY(y));
    }

    /** A point of the scene shows where the mouse is: of the way from the middle of the window to its edges the
        clip coordinates make the same as the mouse does. */
    predicate ShowsUnderMouse(c: Vec4, x: real, y: real)
      reads `width, `height
    {
      c.x * width == (2.0 * x - width) * c.w && c.y * height == (height - 2.0 * y) * c.w
    }

    /** It shows where `_normalizedPos` has the mouse: the horizontal way is measured in half heights too. */
    predicate ShowsAtPlace(c: Vec4, x: real, y: real)
      reads `width, `height
    {
      c.x * height == (2.0 * x - width) * c.w && c.y * height == (height - 2.0 * y) * c.w
    }

    lemma PlaceIff(c: Vec4, x: real, y: real)
      requires Ready()
      ensures ShowsAt(c, WindowX(x), WindowY(y)) <==> ShowsAtPlace(c, x, y)
    {
      ScaledCoordinate(c.x, WindowX(x), c.w, height, 2.0 * x - width);
      ScaledCoordinate(c.y, WindowY(y), c.w, height, height - 2.0 * y);
    }

    lemma PickShows(x: real, y: real)
      requires Valid() && MatricesFollow() && distance != 0.0
      ensures var p := Picked(View(aspect, orientation, coi, distance), WindowX(x), WindowY(y));
              ShowsAtPlace(Seen(p), x, y) && SameDepth(Seen(p), Seen(coi))
    {
      var p := Picked(View(aspect, orientation, coi, distance), WindowX(x), WindowY(y));
      PickedIff(p, WindowX(x), WindowY(y));
      PlaceIff(Seen(p), x, y);
    }

    /** Since the press of a translation the camera has only been translated. */
    ghost predicate Undisturbed()
      reads this
    {
      state == Translation && viewPrev == View(aspect, orientation, coiPrev, distance)
    }

    /** Of all points at the depth of the centre of interest just the picked one shows at that place. */
    lemma PickedIff(v: Vec3, nx: real, ny: real)
      requires Valid() && MatricesFollow() && distance != 0.0
      ensures ShowsAt(Seen(v), nx, ny) && SameDepth(Seen(v), Seen(coi)) <==>
              v == Picked(View(aspect, orientation, coi, distance), nx, ny)
    {
      var zs := Depths(modelview, bboxMin, bboxMax);
      var near, far := Largest(zs), Smallest(zs);
      PlanesInOrder(near, far);
      UnprojectIff(tanHalf, aspect, NearPlane(near, far), FarPlane(far), orientation, coi, distance, v, nx, ny);
    }

    method SetStateDolly(x: real, y: real)
      requires Valid()
      modifies `state, `posPrev, `distancePrev
      ensures Valid() && state == Dolly && distancePrev == distance
      ensures PressedAt() == y
    {
      state := Dolly;
      posPrev := NormalizedPos(x, y);
      distancePrev := distance;
    }

    method SetStateNone()
      requires Valid()
      modifies `state
      ensures Valid() && state == Void
    {
      state := Void;
    }

    /** Every point that lay under the mouse when the drag began lies under it now. */
    ghost predicate Follows()
      reads this
    {
      forall v: Vec3 :: Rotate(orientationPrev, v) == posPrev ==> Rotate(orientation, v) == pos
    }

    /** The branch of `mouseDrag` for a rotation. */
    method RotationDrag(x: real, y: real) returns (moved: bool)
      requires Valid() && state == Rotation
      modifies `pos, `quat, `orientation, `projection, `modelview
      ensures Valid() && UnderMouse(pos, x, y)
      ensures moved <==> Abs(Dot(posPrev, pos)) < 0.999999
      ensures !moved ==> orientation == old(orientation) && projection == old(projection) && modelview == old(modelview)
      ensures moved ==> MatricesFollow() && Follows()
      ensures moved ==> Unit(quat) && Rotate(quat, posPrev) == pos && orientation == Multiply(quat, orientationPrev)
    {
      pos := PointOnUnitSphere(x, y);
      if Abs(Dot(posPrev, pos)) < 0.999999 {
        quat := RotationTo(sqrt, posPrev, pos);
        Turns(sqrt, posPrev, pos, orientationPrev);
        orientation := Multiply(quat, orientationPrev);
        UpdateMatrices();
        return true;
      }
      return false;
    }

    /** The branch of `mouseDrag` for a translation: the centre of interest moves against the mouse, so that the
        point that was picked shows where `_normalizedPos` has the mouse.  That is where the mouse is just if the
        window is square or the mouse in its middle. */
    method TranslationDrag(x: real, y: real)
      requires Valid() && state == Translation
      modifies `pos, `coi, `projection, `modelview
      ensures Valid() && MatricesFollow()
      ensures Add(coi, Picked(viewPrev, WindowX(x), WindowY(y))) == Add(coiPrev, posPrev)
      ensures Undisturbed() ==> Seen(posPrev).w == distance && ShowsAtPlace(Seen(posPrev), x, y)
      ensures Undisturbed() && distance != 0.0 ==>
        (ShowsUnderMouse(Seen(posPrev), x, y) <==> aspect == 1.0 || 2.0 * x == width)
    {
      pos := NormalizedPos(x, y);
      var p := Picked(viewPrev, pos.x, pos.y);
      coi := Vec3(coiPrev.x - p.x + posPrev.x, coiPrev.y - p.y + posPrev.y, coiPrev.z - p.z + posPrev.z);
      UpdateMatrices();
      if Undisturbed() {
        DraggedFollows(x, y);
      }
    }

    lemma DraggedFollows(x: real, y: real)
      requires Valid() && MatricesFollow() && Undisturbed()
      requires Add(coi, Picked(viewPrev, WindowX(x), WindowY(y))) == Add(coiPrev, posPrev)
      ensures Seen(posPrev).w == distance && ShowsAtPlace(Seen(posPrev), x, y)
      ensures distance != 0.0 ==> (ShowsUnderMouse(Seen(posPrev), x, y) <==> aspect == 1.0 || 2.0 * x == width)
    {
      DraggedShows(WindowX(x), WindowY(y));
      PlaceIff(Seen(posPrev), x, y);
      if distance != 0.0 {
        FollowsMouseIff(Seen(posPrev), x, y);
      }
    }

    lemma DraggedShows(nx: real, ny: real)
      requires Valid() && MatricesFollow() && Undisturbed()
      requires Add(coi, Picked(viewPrev, nx, ny)) == Add(coiPrev, posPrev)
      ensures Seen(posPrev).w == distance && ShowsAt(Seen(posPrev), nx, ny)
    {
      var zs := Depths(modelview, bboxMin, bboxMax);
      var near, far := Largest(zs), Smallest(zs);
      PlanesInOrder(near, far);
      var mx, my := WidthOfView(tanHalf, aspect), HeightOfView(tanHalf, aspect);
      MovedAgainst(coi, coiPrev, posPrev, Rotate(Conjugate(orientation), Sideways(mx, my, distance, nx, ny)));
      SidewaysShows(tanHalf, aspect, NearPlane(near, far), FarPlane(far), orientation, coi, distance, posPrev,
                    nx, ny, mx, my);
    }

    lemma FollowsMouseIff(c: Vec4, x: real, y: real)
      requires Ready() && c.w == distance && ShowsAtPlace(c, x, y) && distance != 0.0
      ensures ShowsUnderMouse(c, x, y) <==> aspect == 1.0 || 2.0 * x == width
    {
      ScaledPlace(c.x, 2.0 * x - width, c.w, width, height, aspect);
    }

    /** In a window that is wider than high the point that is dragged to the right edge has left the view. */
    lemma PickedLeavesView(y: real)
      requires Ready() && Undisturbed() && aspect > 1.0 && distance > 0.0
      requires Seen(posPrev).w == distance && ShowsAtPlace(Seen(posPrev), width, y)
      ensures !Framed(Seen(posPrev))
    {
      OutsideOnTheRight(Seen(posPrev), aspect, width, height);
    }

    /** The height in the window at which a dolly drag was begun. */
    ghost function PressedAt(): real
      reads `height, `posPrev
    {
      0.5 * (height - posPrev.y * height)
    }

    /** The distance after a way `up` in units of half the height. */
    function DollyTo(up: real): real
      reads `factor, `distancePrev
    {
      Max(0.001 * factor, distancePrev + factor * up)
    }

    /** How far back a dolly drag to the height `y` of the window sets the camera: the whole box further if the mouse
        has gone up by half the window, but never closer than a thousandth of the box. */
    ghost function DollyDistance(y: real): real
      reads `factor, `distancePrev, `height, `posPrev
      requires height != 0.0
    {
      DollyTo((PressedAt() - y) / (0.5 * height))
    }

    /** So upwards is away from the box, and back to where it was pressed is back to the distance before. */
    lemma UpIsAway(y: real, z: real)
      requires height > 0.0 && factor >= 0.0
      ensures y <= z ==> DollyDistance(y) >= DollyDistance(z)
      ensures y == PressedAt() ==> DollyDistance(y) == Max(0.001 * factor, distancePrev)
    {
      DollyGrows(factor, PressedAt() - y, PressedAt() - z, 0.5 * height);
    }

    /** The branch of `mouseDrag` for a dolly. */
    method DollyDrag(x: real, y: real)
      requires Valid()
      modifies `pos, `distance, `projection, `modelview
      ensures Valid() && MatricesFollow() && distance == DollyDistance(y)
    {
      pos := NormalizedPos(x, y);
      distance := DollyTo(pos.y - posPrev.y);
      DollyInPixels(pos.y, y);
      UpdateMatrices();
    }

    lemma DollyInPixels(ny: real, y: real)
      requires height != 0.0 && ny * height == height - 2.0 * y
      ensures DollyTo(ny - posPrev.y) == DollyDistance(y)
    {
      WayInPixels(ny, posPrev.y, height, y, ny - posPrev.y);
    }

    /** A drag.  In a rotation the quaternion carries the point that was pressed exactly to the point under
        the mouse now, so whatever was under the mouse follows it; a drag that would turn by next to nothing,
        or by next to half a turn, is ignored.  In a translation the picked point moves as `TranslationDrag` says. */
    method MouseDrag(x: real, y: real) returns (moved: bool)
      requires Valid()
      modifies `pos, `quat, `orientation, `coi, `distance, `projection, `modelview
      ensures Valid()
      ensures moved ==> MatricesFollow()
      ensures !moved ==>
        && orientation == old(orientation) && coi == old(coi) && distance == old(distance)
        && projection == old(projection) && modelview == old(modelview)
      ensures state == Rotation ==> UnderMouse(pos, x, y) && (moved <==> Abs(Dot(posPrev, pos)) < 0.999999)
      ensures state == Rotation && moved ==>
        && Unit(quat) && Rotate(quat, posPrev) == pos
        && orientation == Multiply(quat, orientationPrev)
        && Follows() && coi == old(coi) && distance == old(distance)
      ensures state == Translation ==>
        && moved && Add(coi, Picked(viewPrev, WindowX(x), WindowY(y))) == Add(coiPrev, posPrev)
        && orientation == old(orientation) && distance == old(distance)
      ensures Undisturbed() ==> Seen(posPrev).w == distance && ShowsAtPlace(Seen(posPrev), x, y)
      ensures Undisturbed() && distance != 0.0 ==>
        (ShowsUnderMouse(Seen(posPrev), x, y) <==> aspect == 1.0 || 2.0 * x == width)
      ensures state == Dolly ==>
        && moved && orientation == old(orientation) && coi == old(coi)
        && distance == DollyDistance(y)
      ensures state == Void ==> !moved
    {
      if state == Rotation {
        moved := RotationDrag(x, y);
        return;
      } else if state == Translation {
        TranslationDrag(x, y);
        return true;
      } else if state == Dolly {
        DollyDrag(x, y);
        return true;
      }
      return false;
    }

    /** A press of a mouse button, or its release. */
    method HandleButton(e: Event)
      requires Valid() && MatricesFollow() && (e.PressRotate? || e.PressTranslate? || e.PressDolly? || e.Release?)
      modifies `state, `posPrev, `orientationPrev, `coiPrev, `viewPrev, `distancePrev
      ensures Valid() && MatricesFollow() && state == StateAfter(old(state), e)
      ensures e.PressRotate? ==> orientationPrev == orientation && UnderMouse(posPrev, e.x, e.y)
      ensures e.PressTranslate? ==> Undisturbed() && coiPrev == coi
      ensures e.PressTranslate? && distance != 0.0 ==>
        ShowsAtPlace(Seen(posPrev), e.x, e.y) && SameDepth(Seen(posPrev), Seen(coi))
      ensures e.PressDolly? ==> distancePrev == distance && PressedAt() == e.y
    {
      match e
      case PressRotate(x, y) =>
        SetStateRotation(x, y);
      case PressTranslate(x, y) =>
        SetStateTranslation(x, y);
      case PressDolly(x, y) =>
        SetStateDolly(x, y);
      case Release =>
        SetStateNone();
    }

    method HandleDrag(x: real, y: real)
      requires Valid() && MatricesFollow()
      modifies `pos, `quat, `orientation, `coi, `distance, `projection, `modelview
      ensures Valid() && MatricesFollow()
    {
      var moved := MouseDrag(x, y);
    }

    method HandleResize(w: real, h: real)
      requires Valid() && MatricesFollow()
      modifies `width, `height, `aspect, `projection, `modelview
      ensures Valid() && MatricesFollow()
      ensures if w != 0.0 && h != 0.0 then width == w && height == h else width == old(width) && height == old(height)
    {
      var changed := SetWindowSize(w, h);
    }

    method HandleBox(min: Vec3, max: Vec3)
      requires Valid() && MatricesFollow()
      modifies `bboxMin, `bboxMax, `factor, `coi, `distance, `projection, `modelview
      ensures Valid() && MatricesFollow() && bboxMin == min && bboxMax == max && coi == Center(min, max)
      ensures aspect > 0.0 ==> BoxInView()
    {
      SetBoundingBox(min, max);
      ViewAll();
    }

    method HandleEvent(e: Event)
      requires Valid() && MatricesFollow()
      modifies this
      ensures Valid() && MatricesFollow() && state == StateAfter(old(state), e)
    {
      match e
      case Resize(w, h) =>
        HandleResize(w, h);
      case Box(min, max) =>
        HandleBox(min, max);
      case Drag(x, y) =>
        HandleDrag(x, y);
      case _ =>
        HandleButton(e);
    }

    /** Any sequence of window and mouse events: the orientation stays a unit quaternion, the matrices those of
        the camera, and the mouse drags what the last press or release says. */
    method Handle(events: seq<Event>)
      requires Valid() && MatricesFollow()
      modifies this
      ensures Valid() && MatricesFollow() && Unit(orientation)
      ensures state == StateAfterAll(old(state), events)
    {
      for i := 0 to |events|
        invariant Valid() && MatricesFollow() && state == StateAfterAll(old(state), events[..i])
      {
        assert events[..i + 1][..i] == events[..i];
        HandleEvent(events[i]);
      }
      assert events[..|events|] == events;
    }
  }

  // ----- helpers --------------------------------------------------------------------------------

  lemma QuotientIsNotZero(a: real, b: real)
    requires a != 0.0 && b != 0.0
    ensures a / b != 0.0
  {
    assert a / b * b == a;
  }

  lemma MovedAgainst(coi: Vec3, coiPrev: Vec3, pick: Vec3, r: Vec3)
    requires Add(coi, Add(coiPrev, r)) == Add(coiPrev, pick)
    ensures pick == Add(coi, r)
  {
  }

  lemma OutsideOnTheRight(c: Vec4, aspect: real, width: real, height: real)
    requires height != 0.0 && aspect == width / height && aspect > 1.0
    requires c.w > 0.0 && c.x * height == (2.0 * width - width) * c.w
    ensures !Framed(c)
  {
    assert aspect * height == width;
    assert (c.x - aspect * c.w) * height == 0.0;
    GrowsInBoth(1.0, aspect, c.w, c.w);
  }

  lemma ScaledPlace(cx: real, k: real, w: real, width: real, height: real, aspect: real)
    requires width != 0.0 && height != 0.0 && aspect == width / height && w != 0.0 && cx * height == k * w
    ensures cx * width == k * w <==> aspect == 1.0 || k == 0.0
  {
    assert aspect * height == width;
    var kw := k * w;
    assert cx * width == kw * aspect;
    ProductIsZero(kw, aspect - 1.0);
    ProductIsZero(k, w);
  }

  lemma ProductIsZero(a: real, b: real)
    ensures a * b == 0.0 <==> a == 0.0 || b == 0.0
  {
  }

  lemma WayInPixels(ny: real, py: real, h: real, y: real, up: real)
    requires h != 0.0 && ny * h == h - 2.0 * y && up == ny - py
    ensures up == (0.5 * (h - py * h) - y) / (0.5 * h)
  {
    QuotientIs(0.5 * (h - py * h) - y, 0.5 * h, up);
  }

  lemma QuotientIs(a: real, b: real, q: real)
    requires b != 0.0 && a == q * b
    ensures a / b == q
  {
    var r := a / b;
    assert (r - q) * b == 0.0;
  }

  lemma DollyGrows(factor: real, a: real, b: real, h: real)
    requires factor >= 0.0 && h > 0.0
    ensures a >= b ==> factor * (a / h) >= factor * (b / h)
    ensures factor * (0.0 / h) == 0.0
  {
    var p, q := a / h, b / h;
    assert p * h == a && q * h == b;
    SignOfProduct(h, p - q, h * (p - q));
    if a >= b {
      assert factor * (p - q) >= 0.0;
    }
    QuotientIs(0.0, h, 0.0);
  }

  lemma ScaledCoordinate(c: real, n: real, w: real, h: real, k: real)
    requires h != 0.0 && n * h == k
    ensures c == n * w <==> c * h == k * w
  {
    var d := c - n * w;
    assert d * h == c * h - k * w;
  }

  lemma PlaceAcross(x: real, width: real, height: real, aspect: real)
    requires width != 0.0 && height != 0.0 && aspect == width / height
    ensures (((2.0 * x) / width - 1.0) * aspect) * height == 2.0 * x - width
  {
    var q := (2.0 * x) / width;
    assert q * width == 2.0 * x && aspect * height == width;
    assert ((q - 1.0) * aspect) * height == (q - 1.0) * (aspect * height);
  }

  lemma PlaceUp(y: real, height: real)
    requires height != 0.0
    ensures -((2.0 * y) / height - 1.0) * height == height - 2.0 * y
  {
    var q := (2.0 * y) / height;
    assert q * height == 2.0 * y;
  }

  /** A place in units of half the height, in pixels. */
  lemma InPixels(p: Vec3, nx: real, ny: real, right: real, up: real, h: real)
    requires OverPixel(p, nx, ny, 1.0) && h != 0.0 && nx * h == right && ny * h == up
    ensures OverPixel(p, right, up, h)
  {
    var h2 := h * h;
    SquareSign(h, h2);
    PlaceInside(nx, ny, right, up, h, h2);
    PlaceOutside(p.x, p.y, nx, ny, right, up, h, h2);
  }

  lemma PlaceInside(nx: real, ny: real, right: real, up: real, h: real, h2: real)
    requires nx * h == right && ny * h == up && h2 == h * h && h2 > 0.0
    ensures nx * nx + ny * ny < 1.0 <==> right * right + up * up < h2
  {
    var r2 := nx * nx + ny * ny;
    assert right * right + up * up == r2 * h2;
    SignOfProduct(h2, 1.0 - r2, h2 * (1.0 - r2));
  }

  lemma PlaceOutside(x: real, y: real, nx: real, ny: real, right: real, up: real, h: real, h2: real)
    requires nx * h == right && ny * h == up && h2 == h * h && h2 > 0.0
    ensures x * ny == y * nx ==> x * up == y * right
    ensures x * nx + y * ny > 0.0 ==> (x * right + y * up) * h > 0.0
  {
    var k := x * nx + y * ny;
    assert x * up == (x * ny) * h && y * right == (y * nx) * h;
    assert x * right + y * up == k * h;
    assert (k * h) * h == h2 * k;
    SignOfProduct(h2, k, h2 * k);
  }

  lemma SidesOfSphere(p: Vec3, right: real, up: real, h: real)
    requires h > 0.0 && OverPixel(p, right, up, h)
    ensures p.y > 0.0 <==> up > 0.0
    ensures p.x > 0.0 <==> right > 0.0
  {
    var d := right * right + up * up;
    if d < h * h {
      SignOfProduct(h, p.x, h * p.x);
      SignOfProduct(h, p.y, h * p.y);
    } else {
      SquareSign(h, h * h);
      SidesOfRim(p.x, p.y, right, up, h, d);
    }
  }

  lemma SidesOfRim(x: real, y: real, right: real, up: real, h: real, d: real)
    requires h > 0.0 && d == right * right + up * up && d > 0.0
    requires x * up == y * right && (x * right + y * up) * h > 0.0
    ensures y > 0.0 <==> up > 0.0
    ensures x > 0.0 <==> right > 0.0
  {
    var k := x * right + y * up;
    SignOfProduct(h, k, h * k);
    assert d * y == k * up;
    assert d * x == k * right;
    SignOfProduct(d, x, d * x);
    SignOfProduct(d, y, d * y);
    SignOfProduct(k, up, k * up);
    SignOfProduct(k, right, k * right);
  }

  lemma LiftedIsUnit(nx: real, ny: real, z: real, r2: real)
    requires r2 == nx * nx + ny * ny && z * z == 1.0 - r2 && r2 < 1.0 && z >= 0.0
    ensures OverPixel(Vec3(nx, ny, z), nx, ny, 1.0)
  {
  }

  lemma RimIsUnit(nx: real, ny: real, s: real, r: real, r2: real, p: Vec3)
    requires r2 == nx * nx + ny * ny && r2 >= 1.0 && s * s == r2 && r * s == 1.0 && s > 0.0
    requires p == Vec3(r * nx, r * ny, 0.0)
    ensures OverPixel(p, nx, ny, 1.0)
  {
    var xx, yy := nx * nx, ny * ny;
    assert p.x * p.x == (r * r) * xx && p.y * p.y == (r * r) * yy;
    assert (r * r) * r2 == (r * s) * (r * s) == 1.0;
    assert p.x * nx == r * xx && p.y * ny == r * yy;
    assert r * r2 == (r * s) * s == s;
  }

  /** Turning one point of the sphere to another takes whatever lay under the one to the other. */
  lemma Turns(sqrt: real -> real, a: Vec3, b: Vec3, before: Quat)
    requires IsSqrt(sqrt) && UnitVec(a) && UnitVec(b) && Unit(before) && Abs(Dot(a, b)) < 0.999999
    ensures var q := RotationTo(sqrt, a, b);
            && Unit(q) && Rotate(q, a) == b && Unit(Multiply(q, before))
            && forall v: Vec3 :: Rotate(before, v) == a ==> Rotate(Multiply(q, before), v) == b
  {
    var q := RotationTo(sqrt, a, b);
    RotationToCarries(sqrt, a, b);
    NormMultiplies(q, before);
    forall v: Vec3 | Rotate(before, v) == a
      ensures Rotate(Multiply(q, before), v) == b
    {
      RotateComposes(q, before, v);
    }
  }

  lemma RodReach(w: real, l: real, i: nat, p: Vec3)
    requires w > 0.0 && l > 0.0 && i < 8 && p == Corner(Vec3(-w, -w, -l), Vec3(w, w, l), i)
    ensures p.z == l || p.z == -l
    ensures Subtract(p, Vec3(0.0, 0.0, 0.0)) == p && Reach(1.0, p) == p.z + w
  {
  }

  /** The near plane does cut: of a rod that points at the camera, `viewAll` has all corners inside the sides of
      the view, but its near end is in front of the near plane exactly if the rod is thin for its length. */
  method ViewRod(m: TrackBallManipulator, w: real, l: real)
    requires m.Valid() && m.tanHalf == 1.0 && m.aspect > 0.0 && w > 0.0 && l > 0.0
    requires forall v: Vec3 :: Rotate(m.orientation, v) == v
    modifies m
    ensures m.Valid() && m.BoxInView()
    ensures PastNearPlane(m.Seen(Vec3(w, w, l))) <==> w >= 0.01 * (2.0 * l + w + 0.001)
  {
    m.SetBoundingBox(Vec3(-w, -w, -l), Vec3(w, w, l));
    m.ViewAll();
    m.RodIsCut(w, l);
  }
}
