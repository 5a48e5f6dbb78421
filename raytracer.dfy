/**
 * The sphere of TinyRaytracer (cpps/TinyRaytracer/include/shape.h and
 * src/shape.cpp): a material, a radius and a centre, the validating
 * constructors, the surface normal, and the ray-segment hit test
 * GetIsIntersecting with its six ordered cases. Coordinates are reals and
 * the lengths go through the sqrt of a MathLib; the tolerance kEpsilon,
 * which the source does not define in the files shown, is a parameter.
 */
module Raytracer {
  import opened Wrappers
  import opened RealMath
  import opened LinAlg
  import Images
  import opened GeometryVec

  /** std::variant<SolidMaterial, ReflectiveMaterial> of material.h. */
  datatype Material =
    | Solid(color: Images.RgbaColor)
    | Reflective(maxReflection: int)

  /** SolidMaterial(): opaque white. */
  const DefaultSolid := Solid(Images.RgbaColor(255, 255, 255, 255))

  datatype Sphere = Sphere(material: Material, radius: real, center: Vector)

  const NegativeRadius := OutOfRange("The radius must be positive.")
  const NotUnitDirection := OutOfRange("The length of the direction vector must be 1.")

  /** Sphere() and Sphere(material): radius 1 at the origin. */
  function DefaultSphere(material: Material): (s: Sphere)
    ensures s.material == material && s.radius == 1.0 && s.center == Zeros(3)
  {
    Sphere(material, 1.0, Zeros(3))
  }

  /** Sphere(material, radius[, center]): throws for a negative radius; the centre defaults to the origin. */
  function NewSphere(material: Material, radius: real, center: Vector): (r: Result<Sphere>)
    requires |center| == 3
    ensures r.Err? <==> radius < 0.0
    ensures r.Err? ==> r.error == NegativeRadius
    ensures r.Ok? ==> r.value.material == material && r.value.radius == radius && r.value.center == center
  {
    if radius < 0.0 then Err(NegativeRadius) else Ok(Sphere(material, radius, center))
  }

  /** A sphere every constructor can build: a 3-D centre and a radius that is not negative. */
  predicate ValidSphere(s: Sphere)
  {
    |s.center| == 3 && 0.0 <= s.radius
  }

  lemma NewSphereValid(material: Material, radius: real, center: Vector)
    requires |center| == 3
    ensures NewSphere(material, radius, center).Ok? ==> ValidSphere(NewSphere(material, radius, center).value)
    ensures ValidSphere(DefaultSphere(material))
  {
  }

  /** GetNormal(p): (p - centre) normalized; the Normalize throws when p is the centre. */
  function GetNormal(lib: MathLib, s: Sphere, p: Vector): (r: Result<Vector>)
    requires |s.center| == 3 && |p| == 3
    ensures r.Ok? ==> |r.value| == 3
    ensures r.Err? ==> r == Err(DivisionByZero)
  {
    Normalized(lib, Sub(p, s.center))
  }

  /** The normal exists at every point but the centre. */
  lemma NormalFailsOnlyAtCentre(lib: MathLib, s: Sphere, p: Vector)
    requires ValidLib(lib) && |s.center| == 3 && |p| == 3
    ensures GetNormal(lib, s, p).Err? <==> p == s.center
  {
    var u := Sub(p, s.center);
    SqLengthNonNegative(u);
    SqrtIsZero(lib, SqLength(u));
    SqLengthZero(u);
    if u == Zeros(3) {
      assert p == s.center by {
        forall i | 0 <= i < 3
          ensures p[i] == s.center[i]
        {
          assert u[i] == 0.0;
        }
      }
    }
  }

  /** A 3-vector has squared length 0 exactly when it is the zero vector. */
  lemma SqLengthZero(u: Vector)
    requires |u| == 3
    ensures SqLength(u) == 0.0 <==> u == Zeros(3)
  {
    Dot3(u, u);
    SquareMonotone(0.0, if u[0] < 0.0 then -u[0] else u[0]);
    SquareMonotone(0.0, if u[1] < 0.0 then -u[1] else u[1]);
    SquareMonotone(0.0, if u[2] < 0.0 then -u[2] else u[2]);
    if SqLength(u) == 0.0 {
      assert u == [0.0, 0.0, 0.0];
    }
  }

  function Abs(x: real): real { if x < 0.0 then -x else x }

  /** origin + direction * t. */
  function PointAlong(origin: Vector, direction: Vector, t: real): (q: Vector)
    requires |origin| == 3 && |direction| == 3
    ensures |q| == 3
  {
    Add(origin, Scale(direction, t))
  }

  /**
   * Sphere::GetIsIntersecting: does the segment of the given length from
   * origin along direction reach the sphere? The direction must be a unit
   * vector up to epsilon, or the call throws.
   */
  function IsIntersecting(lib: MathLib, epsilon: real, s: Sphere, origin: Vector, direction: Vector, length: real): (r: Result<bool>)
    requires ValidSphere(s) && |origin| == 3 && |direction| == 3
    ensures r.Err? <==> Abs(lib.sqrt(SqLength(direction)) - 1.0) > epsilon
    ensures r.Err? ==> r.error == NotUnitDirection
  {
    if Abs(lib.sqrt(SqLength(direction)) - 1.0) > epsilon then Err(NotUnitDirection)
    // 1. the origin is inside the sphere
    else if lib.sqrt(SqLength(Sub(origin, s.center))) < s.radius then Ok(true)
    else
      var originToCenter := Sub(s.center, origin);
      // 2. the ray points away from the centre
      if Dot(originToCenter, direction) <= 0.0 then Ok(false)
      else
        var toNearest := Dot(originToCenter, direction);
        var nearest := PointAlong(origin, direction, toNearest);
        // 3-4. the line passes farther than the radius from the centre
        if lib.sqrt(SqLength(Sub(nearest, s.center))) > s.radius then Ok(false)
        // 5. the segment ends before the closest approach: test its end point
        else if length < toNearest then
          Ok(lib.sqrt(SqLength(Sub(PointAlong(origin, direction, length), s.center))) <= s.radius)
        // 6. the segment reaches the closest approach, which is inside
        else Ok(true)
  }

  /** Some point at a parameter t in [0, length] along the ray is in the closed ball. */
  ghost predicate SegmentHits(s: Sphere, origin: Vector, direction: Vector, length: real)
    requires |s.center| == 3 && |origin| == 3 && |direction| == 3
  {
    exists t :: 0.0 <= t <= length && SqLength(Sub(PointAlong(origin, direction, t), s.center)) <= s.radius * s.radius
  }

  /** An exact unit direction always passes the length check. */
  lemma UnitDirectionAccepted(lib: MathLib, epsilon: real, s: Sphere, origin: Vector, direction: Vector, length: real)
    requires ValidLib(lib) && 0.0 <= epsilon && ValidSphere(s) && |origin| == 3 && |direction| == 3
    requires SqLength(direction) == 1.0
    ensures IsIntersecting(lib, epsilon, s, origin, direction, length).Ok?
  {
    var root := lib.sqrt(1.0);
    assert 0.0 <= root && root * root == 1.0;
    SquareMonotone(root, 1.0);
    SquareMonotone(1.0, root);
  }

  /**
   * Over reals, for an exact unit direction and a segment that is not
   * reversed, the six cases decide the segment-ball intersection, except
   * for an origin exactly on the sphere (see SurfaceOriginPointingAway).
   */
  lemma IsIntersectingDecidesSegment(lib: MathLib, epsilon: real, s: Sphere, origin: Vector, direction: Vector, length: real)
    requires ValidLib(lib) && 0.0 <= epsilon && ValidSphere(s) && |origin| == 3 && |direction| == 3
    requires SqLength(direction) == 1.0 && 0.0 <= length
    requires SqLength(Sub(origin, s.center)) != s.radius * s.radius
    ensures IsIntersecting(lib, epsilon, s, origin, direction, length) == Ok(SegmentHits(s, origin, direction, length))
  {
    CaseResults(lib, epsilon, s, origin, direction, length);
    CaseAnswerDecides(s, origin, direction, length);
  }

  /** The six cases with every length compared through its square. */
  function CaseAnswer(s: Sphere, origin: Vector, direction: Vector, length: real): bool
    requires ValidSphere(s) && |origin| == 3 && |direction| == 3
  {
    var c, r := s.center, s.radius;
    var p := Dot(Sub(c, origin), direction);
    if SqLength(Sub(origin, c)) < r * r then true
    else if p <= 0.0 then false
    else if SqLength(Sub(PointAlong(origin, direction, p), c)) > r * r then false
    else if length < p then SqLength(Sub(PointAlong(origin, direction, length), c)) <= r * r
    else true
  }

  /** With an exact square root, comparing lengths and comparing their squares agree. */
  lemma CaseResults(lib: MathLib, epsilon: real, s: Sphere, origin: Vector, direction: Vector, length: real)
    requires ValidLib(lib) && 0.0 <= epsilon && ValidSphere(s) && |origin| == 3 && |direction| == 3
    requires SqLength(direction) == 1.0
    ensures IsIntersecting(lib, epsilon, s, origin, direction, length) == Ok(CaseAnswer(s, origin, direction, length))
  {
    UnitDirectionAccepted(lib, epsilon, s, origin, direction, length);
    var c, r := s.center, s.radius;
    var p := Dot(Sub(c, origin), direction);
    SqLengthNonNegative(Sub(origin, c));
    SqrtLess(lib, SqLength(Sub(origin, c)), r);
    SqLengthNonNegative(Sub(PointAlong(origin, direction, p), c));
    SqrtAtMost(lib, SqLength(Sub(PointAlong(origin, direction, p), c)), r);
    SqLengthNonNegative(Sub(PointAlong(origin, direction, length), c));
    SqrtAtMost(lib, SqLength(Sub(PointAlong(origin, direction, length), c)), r);
  }

  /** The squared-distance cases are exactly the segment-ball intersection. */
  lemma CaseAnswerDecides(s: Sphere, origin: Vector, direction: Vector, length: real)
    requires ValidSphere(s) && |origin| == 3 && |direction| == 3
    requires SqLength(direction) == 1.0 && 0.0 <= length
    requires SqLength(Sub(origin, s.center)) != s.radius * s.radius
    ensures CaseAnswer(s, origin, direction, length) == SegmentHits(s, origin, direction, length)
  {
    var c, r := s.center, s.radius;
    var p := Dot(Sub(c, origin), direction);
    if SqLength(Sub(origin, c)) < r * r {
      InsideDecides(s, origin, direction, length);
    } else if p <= 0.0 {
      AwayDecides(s, origin, direction, length);
    } else if SqLength(Sub(PointAlong(origin, direction, p), c)) > r * r {
      FarDecides(s, origin, direction, length);
    } else if length < p {
      EndPointDecides(s, origin, direction, length);
    } else {
      NearestDecides(s, origin, direction, length);
    }
  }

  lemma InsideDecides(s: Sphere, origin: Vector, direction: Vector, length: real)
    requires ValidSphere(s) && |origin| == 3 && |direction| == 3 && 0.0 <= length
    requires SqLength(Sub(origin, s.center)) < s.radius * s.radius
    ensures CaseAnswer(s, origin, direction, length) && SegmentHits(s, origin, direction, length)
  {
    StartsAtOrigin(origin, direction);
    HitAt(s, origin, direction, length, 0.0);
  }

  lemma AwayDecides(s: Sphere, origin: Vector, direction: Vector, length: real)
    requires ValidSphere(s) && |origin| == 3 && |direction| == 3 && SqLength(direction) == 1.0
    requires SqLength(Sub(origin, s.center)) > s.radius * s.radius
    requires Dot(Sub(s.center, origin), direction) <= 0.0
    ensures !CaseAnswer(s, origin, direction, length) && !SegmentHits(s, origin, direction, length)
  {
    MissWhenAway(s, origin, direction, length);
  }

  lemma FarDecides(s: Sphere, origin: Vector, direction: Vector, length: real)
    requires ValidSphere(s) && |origin| == 3 && |direction| == 3 && SqLength(direction) == 1.0
    requires SqLength(Sub(origin, s.center)) > s.radius * s.radius
    requires
      var p := Dot(Sub(s.center, origin), direction);
      0.0 < p && SqLength(Sub(PointAlong(origin, direction, p), s.center)) > s.radius * s.radius
    ensures !CaseAnswer(s, origin, direction, length) && !SegmentHits(s, origin, direction, length)
  {
    MissWhenFar(s, origin, direction, length);
  }

  lemma EndPointDecides(s: Sphere, origin: Vector, direction: Vector, length: real)
    requires ValidSphere(s) && |origin| == 3 && |direction| == 3 && SqLength(direction) == 1.0 && 0.0 <= length
    requires SqLength(Sub(origin, s.center)) > s.radius * s.radius
    requires
      var p := Dot(Sub(s.center, origin), direction);
      0.0 < p && SqLength(Sub(PointAlong(origin, direction, p), s.center)) <= s.radius * s.radius && length < p
    ensures CaseAnswer(s, origin, direction, length) == SegmentHits(s, origin, direction, length)
  {
    if SqLength(Sub(PointAlong(origin, direction, length), s.center)) <= s.radius * s.radius {
      HitAt(s, origin, direction, length, length);
    } else {
      MissBeforeNearest(s, origin, direction, length);
    }
  }

  lemma NearestDecides(s: Sphere, origin: Vector, direction: Vector, length: real)
    requires ValidSphere(s) && |origin| == 3 && |direction| == 3
    requires SqLength(Sub(origin, s.center)) > s.radius * s.radius
    requires
      var p := Dot(Sub(s.center, origin), direction);
      0.0 < p <= length && SqLength(Sub(PointAlong(origin, direction, p), s.center)) <= s.radius * s.radius
    ensures CaseAnswer(s, origin, direction, length) && SegmentHits(s, origin, direction, length)
  {
    HitAt(s, origin, direction, length, Dot(Sub(s.center, origin), direction));
  }

  lemma StartsAtOrigin(origin: Vector, direction: Vector)
    requires |origin| == 3 && |direction| == 3
    ensures PointAlong(origin, direction, 0.0) == origin
  {
  }

  lemma HitAt(s: Sphere, origin: Vector, direction: Vector, length: real, t: real)
    requires ValidSphere(s) && |origin| == 3 && |direction| == 3
    requires 0.0 <= t <= length && SqLength(Sub(PointAlong(origin, direction, t), s.center)) <= s.radius * s.radius
    ensures SegmentHits(s, origin, direction, length)
  {
  }

  /** From outside the sphere, a ray pointing away from the centre never gets closer. */
  lemma MissWhenAway(s: Sphere, origin: Vector, direction: Vector, length: real)
    requires ValidSphere(s) && |origin| == 3 && |direction| == 3 && SqLength(direction) == 1.0
    requires SqLength(Sub(origin, s.center)) > s.radius * s.radius
    requires Dot(Sub(s.center, origin), direction) <= 0.0
    ensures !SegmentHits(s, origin, direction, length)
  {
    var p := Dot(Sub(s.center, origin), direction);
    forall t | 0.0 <= t <= length
      ensures SqLength(Sub(PointAlong(origin, direction, t), s.center)) > s.radius * s.radius
    {
      AlongExpansion(origin, direction, s.center, t);
      MulNonNegative(t, -p);
      MulNonNegative(t, t);
    }
  }

  /** A line whose closest approach is outside the sphere misses it everywhere. */
  lemma MissWhenFar(s: Sphere, origin: Vector, direction: Vector, length: real)
    requires ValidSphere(s) && |origin| == 3 && |direction| == 3 && SqLength(direction) == 1.0
    requires
      var p := Dot(Sub(s.center, origin), direction);
      SqLength(Sub(PointAlong(origin, direction, p), s.center)) > s.radius * s.radius
    ensures !SegmentHits(s, origin, direction, length)
  {
    var p := Dot(Sub(s.center, origin), direction);
    forall t | 0.0 <= t <= length
      ensures SqLength(Sub(PointAlong(origin, direction, t), s.center)) > s.radius * s.radius
    {
      AroundNearest(origin, direction, s.center, p, t);
      MulNonNegative(if t < p then p - t else t - p, if t < p then p - t else t - p);
    }
  }

  /** Before the closest approach the distance falls, so the end point is the nearest point of the segment. */
  lemma MissBeforeNearest(s: Sphere, origin: Vector, direction: Vector, length: real)
    requires ValidSphere(s) && |origin| == 3 && |direction| == 3 && SqLength(direction) == 1.0
    requires length < Dot(Sub(s.center, origin), direction)
    requires SqLength(Sub(PointAlong(origin, direction, length), s.center)) > s.radius * s.radius
    ensures !SegmentHits(s, origin, direction, length)
  {
    var p := Dot(Sub(s.center, origin), direction);
    forall t | 0.0 <= t <= length
      ensures SqLength(Sub(PointAlong(origin, direction, t), s.center)) > s.radius * s.radius
    {
      AroundNearest(origin, direction, s.center, p, t);
      AroundNearest(origin, direction, s.center, p, length);
      SquareMonotone(p - length, p - t);
    }
  }

  /**
   * The boundary case the hit test leaves out: an origin exactly on the
   * sphere that points away from it (or along its tangent) is reported as
   * missing, though the origin itself lies on the sphere.
   */
  lemma SurfaceOriginPointingAway(lib: MathLib, epsilon: real, s: Sphere, origin: Vector, direction: Vector, length: real)
    requires ValidLib(lib) && 0.0 <= epsilon && ValidSphere(s) && |origin| == 3 && |direction| == 3
    requires SqLength(direction) == 1.0 && 0.0 <= length
    requires SqLength(Sub(origin, s.center)) == s.radius * s.radius
    requires Dot(Sub(s.center, origin), direction) <= 0.0
    ensures IsIntersecting(lib, epsilon, s, origin, direction, length) == Ok(false)
    ensures SegmentHits(s, origin, direction, length)
  {
    UnitDirectionAccepted(lib, epsilon, s, origin, direction, length);
    SqLengthNonNegative(Sub(origin, s.center));
    SqrtLess(lib, SqLength(Sub(origin, s.center)), s.radius);
    StartsAtOrigin(origin, direction);
    HitAt(s, origin, direction, length, 0.0);
  }

  lemma MulNonNegative(a: real, b: real)
    requires 0.0 <= a && 0.0 <= b
    ensures 0.0 <= a * b
  {
  }

  /**
   * For a unit direction, the squared distance from the centre at t is
   * |origin - centre|^2 - 2 t p + t^2, with p the projection of
   * centre - origin on the direction.
   */
  lemma AlongExpansion(origin: Vector, direction: Vector, c: Vector, t: real)
    requires |origin| == 3 && |direction| == 3 && |c| == 3
    requires SqLength(direction) == 1.0
    ensures SqLength(Sub(PointAlong(origin, direction, t), c)) ==
            SqLength(Sub(origin, c)) - 2.0 * t * Dot(Sub(c, origin), direction) + t * t
  {
    var e, q, m := Sub(origin, c), Sub(PointAlong(origin, direction, t), c), Sub(c, origin);
    AlongComponents(origin, direction, c, t);
    Dot3(q, q);
    Dot3(e, e);
    Dot3(direction, direction);
    Dot3(m, direction);
    Expand3(q[0], q[1], q[2], e[0], e[1], e[2], m[0], m[1], m[2], direction[0], direction[1], direction[2], t);
  }

  /** The components of the offsets AlongExpansion relates. */
  lemma AlongComponents(origin: Vector, direction: Vector, c: Vector, t: real)
    requires |origin| == 3 && |direction| == 3 && |c| == 3
    ensures var e, q, m := Sub(origin, c), Sub(PointAlong(origin, direction, t), c), Sub(c, origin);
      q[0] == e[0] + t * direction[0] && q[1] == e[1] + t * direction[1] && q[2] == e[2] + t * direction[2] &&
      m[0] == -e[0] && m[1] == -e[1] && m[2] == -e[2]
  {
  }

  lemma Expand3(q0: real, q1: real, q2: real, e0: real, e1: real, e2: real, m0: real, m1: real, m2: real,
                d0: real, d1: real, d2: real, t: real)
    requires q0 == e0 + t * d0 && q1 == e1 + t * d1 && q2 == e2 + t * d2
    requires m0 == -e0 && m1 == -e1 && m2 == -e2
    requires d0 * d0 + d1 * d1 + d2 * d2 == 1.0
    ensures q0 * q0 + q1 * q1 + q2 * q2 == (e0 * e0 + e1 * e1 + e2 * e2) - 2.0 * t * (m0 * d0 + m1 * d1 + m2 * d2) + t * t
  {
    calc {
      q0 * q0 + q1 * q1 + q2 * q2;
      (e0 + t * d0) * (e0 + t * d0) + (e1 + t * d1) * (e1 + t * d1) + (e2 + t * d2) * (e2 + t * d2);
      (e0 * e0 + e1 * e1 + e2 * e2) + 2.0 * t * (e0 * d0 + e1 * d1 + e2 * d2) + t * t * (d0 * d0 + d1 * d1 + d2 * d2);
    }
  }

  /** The squared distance at t is the one at the closest approach p plus (t - p)^2. */
  lemma AroundNearest(origin: Vector, direction: Vector, c: Vector, p: real, t: real)
    requires |origin| == 3 && |direction| == 3 && |c| == 3
    requires SqLength(direction) == 1.0 && p == Dot(Sub(c, origin), direction)
    ensures SqLength(Sub(PointAlong(origin, direction, t), c)) ==
            SqLength(Sub(PointAlong(origin, direction, p), c)) + (t - p) * (t - p)
  {
    AlongExpansion(origin, direction, c, t);
    AlongExpansion(origin, direction, c, p);
  }
}
