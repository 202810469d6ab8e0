/** The direction of the occlusion ray. The source casts it from the point
    away from the sun and lowers the height along it, although the sun vector
    points toward the sun. This module shows the effect on a concrete scene
    and proves that the sun-ward engine keeps a property the away-from-sun
    engine breaks: a higher point is never more shaded than a lower one. */
module ShadingDirection {
  import opened Wrappers
  import opened Shapes
  import opened Geometry
  import Scene

  /** The shading test with the ray cast toward the sun and the height
      rising along it. */
  method IsPointShadedTowardSun(x: real, y: real, z: real, sun: Vec3, g: InternalGeometry)
    returns (shaded: bool)
    ensures shaded <==> Shaded(x, y, z, sun, g, TowardSun)
    ensures sun.dz <= 0.0 ==> shaded
    ensures sun.dz > 0.0 && g.objects == [] ==> !shaded
  {
    shaded := ScanOccluders(x, y, z, sun, g, TowardSun);
  }

  lemma ProductNonNegative(a: real, b: real)
    requires a >= 0.0 && b >= 0.0
    ensures a * b >= 0.0
  {
  }

  /** One occluder, under the sun-ward ray, that blocks a point at height
      `z2` also blocks it at any lower height above the ground. */
  lemma OccludesLower(obj: Scene.SceneObject, p: Point, z1: real, z2: real, sun: Vec3)
    requires 0.0 <= z1 <= z2 && sun.dz > 0.0
    requires Occludes(obj, p, z2, sun, TowardSun)
    ensures Occludes(obj, p, z1, sun, TowardSun)
  {
    var s := RayDistance(obj.footprint, p, RayDirection(sun, TowardSun));
    if !(obj.footprint.contains(p) && obj.heightFt >= z1) {
      assert s.Some? && HeightAt(z2, s.value, sun, TowardSun) <= obj.heightFt;
      ProductNonNegative(s.value, sun.dz);
      assert 0.0 <= HeightAt(z1, s.value, sun, TowardSun) <= HeightAt(z2, s.value, sun, TowardSun);
    }
  }

  /** With the sun-ward ray, lowering the evaluation point (down to the
      ground) never takes it out of the shade. */
  lemma TowardSunMonotoneInHeight(x: real, y: real, z1: real, z2: real, sun: Vec3, g: InternalGeometry)
    requires 0.0 <= z1 <= z2
    requires Shaded(x, y, z2, sun, g, TowardSun)
    ensures Shaded(x, y, z1, sun, g, TowardSun)
  {
    if sun.dz > 0.0 {
      var i :| 0 <= i < |g.objects| && Occludes(g.objects[i], Point(x, y), z2, sun, TowardSun);
      OccludesLower(g.objects[i], Point(x, y), z1, z2, sun);
    }
  }

  // ---------------------------------------------------------------------
  // A concrete scene
  // ---------------------------------------------------------------------

  /** The boundary of the square [a, b] x [c, d] cut by a horizontal segment
      strictly between its lower and upper edges: the crossings with the
      left and right edges. Every other segment gets `Empty`; the scenes
      below query no other. */
  function SquareCut(a: real, b: real, c: real, d: real, seg: Segment): Geom
  {
    var y := seg.start.y;
    if seg.end.y != y || !(c < y < d) then Empty
    else
      var lo := if seg.start.x <= seg.end.x then seg.start.x else seg.end.x;
      var hi := if seg.start.x <= seg.end.x then seg.end.x else seg.start.x;
      var hits := (if lo <= a <= hi then [PointGeom(Point(a, y))] else [])
                + (if lo <= b <= hi then [PointGeom(Point(b, y))] else []);
      if hits == [] then Empty
      else if |hits| == 1 then hits[0]
      else MultiPoint(hits)
  }

  /** The square footprint [a, b] x [c, d]. */
  function Square(a: real, b: real, c: real, d: real): Footprint
  {
    Footprint(
      (p: Point) => a < p.x < b && c < p.y < d,
      (seg: Segment) => SquareCut(a, b, c, d, seg),
      BBox(a, c, b, d))
  }

  /** A 10-foot wall standing over x in [a, b] and y in [-1, 1]. */
  function Wall(a: real, b: real): Scene.SceneObject
  {
    Scene.SceneObject("structure", Scene.Text("wall"), 10.0, Square(a, b, -1.0, 1.0), map[])
  }

  /** The sun due +x at 45 degrees above the horizon. */
  const EastSun: Vec3 := Vec3(1.0, 0.0, 1.0)

  /** The crossings of the ray from the origin along `dir` with a wall's
      boundary, both ahead of the origin. */
  lemma WallCrossings(a: real, b: real, dir: Vec2)
    requires -1000000.0 < a < b < 1000000.0
    requires dir == Vec2(if a < 0.0 then -1.0 else 1.0, 0.0)
    requires b < 0.0 || 0.0 < a
    ensures ExtractPoints(Square(a, b, -1.0, 1.0).boundaryCut(RaySegment(Point(0.0, 0.0), dir)))
              == [Point(a, 0.0), Point(b, 0.0)]
  {
    var seg := RaySegment(Point(0.0, 0.0), dir);
    assert seg.end == Point(dir.dx * 1000000.0, 0.0);
    var parts := [PointGeom(Point(a, 0.0)), PointGeom(Point(b, 0.0))];
    assert SquareCut(a, b, -1.0, 1.0, seg) == MultiPoint(parts);
    assert parts[..1] == [PointGeom(Point(a, 0.0))];
    assert parts[..1][..0] == [];
    assert PointParts(parts[..1]) == [Point(a, 0.0)];
    assert PointParts(parts) == [Point(a, 0.0), Point(b, 0.0)];
  }

  /** A wall one to two feet from the origin is one foot away along the ray
      that heads toward it. */
  lemma WallDistance(a: real, b: real, dir: Vec2)
    requires (a == -2.0 && b == -1.0 && dir == Vec2(-1.0, 0.0)) ||
             (a == 1.0 && b == 2.0 && dir == Vec2(1.0, 0.0))
    ensures RayDistance(Square(a, b, -1.0, 1.0), Point(0.0, 0.0), dir) == Some(1.0)
  {
    var o := Point(0.0, 0.0);
    WallCrossings(a, b, dir);
    var pts := [Point(a, 0.0), Point(b, 0.0)];
    assert pts[..1] == [Point(a, 0.0)];
    assert pts[..1][..0] == [];
    if a < 0.0 {
      assert Param(Point(a, 0.0), o, dir) == Some(2.0);
      assert Param(Point(b, 0.0), o, dir) == Some(1.0);
    } else {
      assert Param(Point(a, 0.0), o, dir) == Some(1.0);
      assert Param(Point(b, 0.0), o, dir) == Some(2.0);
    }
    assert Nearest(pts[..1][..0], o, dir) == None;
    assert Nearest(pts[..1], o, dir) == Keep(None, Param(Point(a, 0.0), o, dir));
    assert Nearest(pts, o, dir) == Keep(Nearest(pts[..1], o, dir), Param(Point(b, 0.0), o, dir));
    assert Nearest(pts, o, dir) == Some(1.0);
  }

  /** As written, a wall on the far side of the point from the sun shades
      it at a height of one foot but not on the ground. */
  lemma AwayFromSunShadesFromBehind()
    ensures !Shaded(0.0, 0.0, 0.0, EastSun, InternalGeometry([Wall(-2.0, -1.0)]), AwayFromSun)
    ensures Shaded(0.0, 0.0, 1.0, EastSun, InternalGeometry([Wall(-2.0, -1.0)]), AwayFromSun)
  {
    var g := InternalGeometry([Wall(-2.0, -1.0)]);
    WallDistance(-2.0, -1.0, Vec2(-1.0, 0.0));
    assert RayDirection(EastSun, AwayFromSun) == Vec2(-1.0, 0.0);
    assert Occludes(g.objects[0], Point(0.0, 0.0), 1.0, EastSun, AwayFromSun);
    assert !Occludes(g.objects[0], Point(0.0, 0.0), 0.0, EastSun, AwayFromSun);
  }

  /** As written, a wall between the point and the sun does not shade it;
      the sun-ward engine finds it, and ignores the wall behind the point. */
  lemma TowardSunFindsWallInFront()
    ensures !Shaded(0.0, 0.0, 1.0, EastSun, InternalGeometry([Wall(1.0, 2.0)]), AwayFromSun)
    ensures Shaded(0.0, 0.0, 1.0, EastSun, InternalGeometry([Wall(1.0, 2.0)]), TowardSun)
    ensures !Shaded(0.0, 0.0, 1.0, EastSun, InternalGeometry([Wall(-2.0, -1.0)]), TowardSun)
  {
    var front := InternalGeometry([Wall(1.0, 2.0)]);
    var behind := InternalGeometry([Wall(-2.0, -1.0)]);
    var o := Point(0.0, 0.0);
    assert RayDirection(EastSun, TowardSun) == Vec2(1.0, 0.0);
    assert RayDirection(EastSun, AwayFromSun) == Vec2(-1.0, 0.0);
    WallDistance(1.0, 2.0, Vec2(1.0, 0.0));
    assert Occludes(front.objects[0], o, 1.0, EastSun, TowardSun);
    assert Square(1.0, 2.0, -1.0, 1.0).boundaryCut(RaySegment(o, Vec2(-1.0, 0.0))) == Empty;
    assert !Occludes(front.objects[0], o, 1.0, EastSun, AwayFromSun);
    assert Square(-2.0, -1.0, -1.0, 1.0).boundaryCut(RaySegment(o, Vec2(1.0, 0.0))) == Empty;
    assert !Occludes(behind.objects[0], o, 1.0, EastSun, TowardSun);
  }

}
