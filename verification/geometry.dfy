/** The ray-occlusion engine: for an evaluation point, an evaluation height
    and a sun direction, decides whether some occluder of the scene blocks
    the sun. */
module Geometry {
  import opened Wrappers
  import opened Shapes
  import Scene

  /** Direction components below this magnitude count as zero (1e-12). */
  const Tiny: real := 0.000000000001

  /** Length of the segment that stands in for the ray (1e6 feet). */
  const MaxDist: real := 1000000.0

  datatype Vec2 = Vec2(dx: real, dy: real)

  /** A sun direction in scene-local axes, pointing from the ground toward
      the sun; `dz` is the true vertical. */
  datatype Vec3 = Vec3(dx: real, dy: real, dz: real)

  /** The occluders in scene order. */
  datatype InternalGeometry = InternalGeometry(objects: seq<Scene.SceneObject>)

  /** The adapter from a scene to the engine's view of it: the same objects
      in the same order. */
  function BuildObjects(scene: Scene.Scene): (g: InternalGeometry)
    ensures g.objects == scene.objects
  {
    InternalGeometry(scene.objects)
  }

  function Abs(x: real): real
  {
    if x < 0.0 then -x else x
  }

  /** Both horizontal components are negligible: the ray has no direction. */
  predicate Vertical(d: Vec2)
  {
    Abs(d.dx) < Tiny && Abs(d.dy) < Tiny
  }

  /** The segment from `origin` to `origin + MaxDist * d`. */
  function RaySegment(origin: Point, d: Vec2): Segment
  {
    Segment(origin, Point(origin.x + d.dx * MaxDist, origin.y + d.dy * MaxDist))
  }

  // ---------------------------------------------------------------------
  // Points of a boundary cut
  // ---------------------------------------------------------------------

  /** The `Point` members of a multi-part geometry, in order; other members
      are skipped. */
  function PointParts(parts: seq<Geom>): (r: seq<Point>)
    ensures forall q :: q in r <==> PointGeom(q) in parts
  {
    if parts == [] then []
    else
      var last := parts[|parts| - 1];
      assert parts == parts[..|parts| - 1] + [last];
      PointParts(parts[..|parts| - 1]) + (if last.PointGeom? then [last.p] else [])
  }

  /** The coordinates of several lines, one line after the other. */
  function Concat(lines: seq<seq<Point>>): (r: seq<Point>)
    ensures forall q :: q in r <==> exists i :: 0 <= i < |lines| && q in lines[i]
  {
    if lines == [] then []
    else
      var init := lines[..|lines| - 1];
      assert forall i :: 0 <= i < |init| ==> init[i] == lines[i];
      Concat(init) + lines[|lines| - 1]
  }

  /** The points a boundary cut yields, by geometry type. */
  function ExtractPoints(g: Geom): seq<Point>
  {
    match g
    case PointGeom(p) => [p]
    case MultiPoint(parts) => PointParts(parts)
    case GeometryCollection(parts) => PointParts(parts)
    case LineString(coords) => coords
    case LinearRing(coords) => coords
    case MultiLineString(lines) => Concat(lines)
    case _ => []
  }

  /** Builds the list of candidate points by appending, as the source does. */
  method CollectPoints(g: Geom) returns (points: seq<Point>)
    ensures points == ExtractPoints(g)
    ensures g.PointGeom? ==> points == [g.p]
    ensures (g.MultiPoint? || g.GeometryCollection?) ==>
              forall q :: q in points <==> PointGeom(q) in g.parts
    ensures g.MultiLineString? ==>
              forall q :: q in points <==> exists i :: 0 <= i < |g.lines| && q in g.lines[i]
    ensures g.Empty? || g.OtherGeom? ==> points == []
  {
    points := [];
    if g.PointGeom? {
      points := points + [g.p];
    } else if g.MultiPoint? || g.GeometryCollection? {
      for i := 0 to |g.parts|
        invariant points == PointParts(g.parts[..i])
      {
        assert g.parts[..i + 1][..i] == g.parts[..i];
        if g.parts[i].PointGeom? {
          points := points + [g.parts[i].p];
        }
      }
      assert g.parts[..|g.parts|] == g.parts;
    } else if g.LineString? || g.LinearRing? {
      points := points + g.coords;
    } else if g.MultiLineString? {
      for i := 0 to |g.lines|
        invariant points == Concat(g.lines[..i])
      {
        assert g.lines[..i + 1][..i] == g.lines[..i];
        points := points + g.lines[i];
      }
      assert g.lines[..|g.lines|] == g.lines;
    }
  }

  // ---------------------------------------------------------------------
  // Nearest crossing
  // ---------------------------------------------------------------------

  /** The ray parameter of `p` along `d` from `o`, read off the dominant axis
      of `d`; `None` when that component is negligible. */
  function Param(p: Point, o: Point, d: Vec2): Option<real>
  {
    if Abs(d.dx) >= Abs(d.dy) then
      (if Abs(d.dx) < Tiny then None else Some((p.x - o.x) / d.dx))
    else
      (if Abs(d.dy) < Tiny then None else Some((p.y - o.y) / d.dy))
  }

  /** A parameter that lies on the ray, not behind its origin. */
  predicate Ahead(s: Option<real>)
  {
    s.Some? && s.value >= 0.0
  }

  /** One step of the scan: a candidate replaces the best so far when it is
      ahead of the origin and strictly smaller. */
  function Keep(best: Option<real>, s: Option<real>): Option<real>
  {
    if !Ahead(s) then best
    else if best.None? || s.value < best.value then s
    else best
  }

  /** The scan over the candidate points, left to right. */
  function Nearest(points: seq<Point>, o: Point, d: Vec2): Option<real>
  {
    if points == [] then None
    else Keep(Nearest(points[..|points| - 1], o, d), Param(points[|points| - 1], o, d))
  }

  /** `r` is the smallest parameter ahead of the origin among the points, and
      `None` exactly when no point is ahead of the origin. */
  ghost predicate IsNearest(r: Option<real>, points: seq<Point>, o: Point, d: Vec2)
  {
    && (r.None? <==> forall i :: 0 <= i < |points| ==> !Ahead(Param(points[i], o, d)))
    && (r.Some? ==>
          && r.value >= 0.0
          && (exists i :: 0 <= i < |points| && Param(points[i], o, d) == r)
          && (forall i :: 0 <= i < |points| && Ahead(Param(points[i], o, d)) ==>
                r.value <= Param(points[i], o, d).value))
  }

  lemma {:induction false} NearestIsNearest(points: seq<Point>, o: Point, d: Vec2)
    ensures IsNearest(Nearest(points, o, d), points, o, d)
  {
    if points != [] {
      var n := |points| - 1;
      var init := points[..n];
      NearestIsNearest(init, o, d);
      assert forall i :: 0 <= i < n ==> init[i] == points[i];
      var before := Nearest(init, o, d);
      var s := Param(points[n], o, d);
      if before.Some? {
        var j :| 0 <= j < |init| && Param(init[j], o, d) == before;
        assert Param(points[j], o, d) == before;
      }
    }
  }

  /** Along a non-vertical direction, a point at ray parameter `t` has
      parameter `t`: the dominant-axis reading recovers the ray position. */
  lemma ParamOnRay(o: Point, d: Vec2, t: real)
    requires !Vertical(d)
    ensures Param(Point(o.x + t * d.dx, o.y + t * d.dy), o, d) == Some(t)
  {
    if Abs(d.dx) >= Abs(d.dy) {
      assert Abs(d.dx) >= Tiny;
      assert o.x + t * d.dx - o.x == t * d.dx;
      assert (t * d.dx) / d.dx == t;
    } else {
      assert Abs(d.dy) >= Tiny;
      assert o.y + t * d.dy - o.y == t * d.dy;
      assert (t * d.dy) / d.dy == t;
    }
  }

  /** Reduces the candidate points to the smallest non-negative parameter. */
  method NearestCrossing(points: seq<Point>, o: Point, d: Vec2) returns (best: Option<real>)
    ensures best == Nearest(points, o, d)
    ensures IsNearest(best, points, o, d)
  {
    best := None;
    for i := 0 to |points|
      invariant best == Nearest(points[..i], o, d)
    {
      assert points[..i + 1][..i] == points[..i];
      var p := points[i];
      var s: real;
      if Abs(d.dx) >= Abs(d.dy) {
        if Abs(d.dx) < Tiny {
          continue;
        }
        s := (p.x - o.x) / d.dx;
      } else {
        if Abs(d.dy) < Tiny {
          continue;
        }
        s := (p.y - o.y) / d.dy;
      }
      if s < 0.0 {
        continue;
      }
      if best.None? || s < best.value {
        best := Some(s);
      }
    }
    assert points[..|points|] == points;
    NearestIsNearest(points, o, d);
  }

  /** The distance along the ray from `o` in direction `d` to the nearest
      crossing of the footprint's boundary. */
  function RayDistance(fp: Footprint, o: Point, d: Vec2): (r: Option<real>)
    ensures r.Some? ==> r.value >= 0.0
  {
    if Vertical(d) then
      (if fp.contains(o) then Some(0.0) else None)
    else
      var cut := fp.boundaryCut(RaySegment(o, d));
      if cut.Empty? then None
      else
        var points := ExtractPoints(cut);
        if points == [] then None
        else
          NearestIsNearest(points, o, d);
          Nearest(points, o, d)
  }

  method RayIntersectionDistance(fp: Footprint, origin: Point, d: Vec2) returns (r: Option<real>)
    ensures r == RayDistance(fp, origin, d)
    ensures Vertical(d) ==> (r == Some(0.0) <==> fp.contains(origin))
    ensures Vertical(d) ==> (r.None? <==> !fp.contains(origin))
    ensures !Vertical(d) && fp.boundaryCut(RaySegment(origin, d)).Empty? ==> r.None?
    ensures !Vertical(d) ==>
              IsNearest(r, ExtractPoints(fp.boundaryCut(RaySegment(origin, d))), origin, d)
  {
    if Abs(d.dx) < Tiny && Abs(d.dy) < Tiny {
      if fp.contains(origin) {
        return Some(0.0);
      }
      return None;
    }
    var ray := RaySegment(origin, d);
    var intersection := fp.boundaryCut(ray);
    if intersection.Empty? {
      return None;
    }
    var points := CollectPoints(intersection);
    if points == [] {
      return None;
    }
    r := NearestCrossing(points, origin, d);
  }

  // ---------------------------------------------------------------------
  // Shading decision
  // ---------------------------------------------------------------------

  /** Which way the occlusion ray runs from the evaluation point. The source
      casts it away from the sun and lowers the height along it; `TowardSun`
      is the sun-ward reading. */
  datatype Sense = AwayFromSun | TowardSun

  function RayDirection(sun: Vec3, sense: Sense): Vec2
  {
    if sense == AwayFromSun then Vec2(-sun.dx, -sun.dy) else Vec2(sun.dx, sun.dy)
  }

  /** The height of the line through the point at ray parameter `s`. */
  function HeightAt(z: real, s: real, sun: Vec3, sense: Sense): real
  {
    if sense == AwayFromSun then z - s * sun.dz else z + s * sun.dz
  }

  /** One occluder blocks the point: its footprint contains the point and it
      is at least as tall, or the line meets the nearest crossing of its
      boundary at a height between the ground and its top. */
  predicate Occludes(obj: Scene.SceneObject, p: Point, z: real, sun: Vec3, sense: Sense)
  {
    || (obj.footprint.contains(p) && obj.heightFt >= z)
    || (var s := RayDistance(obj.footprint, p, RayDirection(sun, sense));
        s.Some? && 0.0 <= HeightAt(z, s.value, sun, sense) <= obj.heightFt)
  }

  /** The sun is at or below the horizon, or some occluder blocks the point. */
  predicate Shaded(x: real, y: real, z: real, sun: Vec3, g: InternalGeometry, sense: Sense)
  {
    || sun.dz <= 0.0
    || exists i :: 0 <= i < |g.objects| && Occludes(g.objects[i], Point(x, y), z, sun, sense)
  }

  /** Scans the occluders in scene order and stops at the first that shades. */
  method ScanOccluders(x: real, y: real, z: real, sun: Vec3, g: InternalGeometry, sense: Sense)
    returns (shaded: bool)
    ensures shaded <==> Shaded(x, y, z, sun, g, sense)
    ensures sun.dz <= 0.0 ==> shaded
    ensures sun.dz > 0.0 && g.objects == [] ==> !shaded
  {
    if sun.dz <= 0.0 {
      return true;
    }
    var origin := Point(x, y);
    var rayDir := RayDirection(sun, sense);
    for i := 0 to |g.objects|
      invariant forall j :: 0 <= j < i ==> !Occludes(g.objects[j], origin, z, sun, sense)
    {
      var obj := g.objects[i];
      if obj.footprint.contains(origin) && obj.heightFt >= z {
        return true;
      }
      var s := RayIntersectionDistance(obj.footprint, origin, rayDir);
      if s.None? {
        continue;
      }
      var zAtS := HeightAt(z, s.value, sun, sense);
      if 0.0 <= zAtS <= obj.heightFt {
        return true;
      }
    }
    return false;
  }

  /** The source's shading test: the ray runs away from the sun. */
  method IsPointShaded(x: real, y: real, z: real, sun: Vec3, g: InternalGeometry)
    returns (shaded: bool)
    ensures shaded <==> Shaded(x, y, z, sun, g, AwayFromSun)
    ensures sun.dz <= 0.0 ==> shaded
    ensures sun.dz > 0.0 && g.objects == [] ==> !shaded
  {
    shaded := ScanOccluders(x, y, z, sun, g, AwayFromSun);
  }

  /** An occluder whose footprint contains the point and which is at least as
      tall shades it, whatever the sun direction and the other occluders. */
  lemma TallOccluderShades(x: real, y: real, z: real, sun: Vec3, g: InternalGeometry, sense: Sense, k: nat)
    requires k < |g.objects|
    requires g.objects[k].footprint.contains(Point(x, y)) && g.objects[k].heightFt >= z
    ensures Shaded(x, y, z, sun, g, sense)
  {
    assert Occludes(g.objects[k], Point(x, y), z, sun, sense);
  }

  /** With the sun straight overhead, an occluder shades exactly when its
      footprint contains the point and it is at least as tall: the crossing
      at distance zero keeps the height test. */
  lemma ZenithSun(x: real, y: real, z: real, sun: Vec3, g: InternalGeometry, sense: Sense)
    requires sun.dz > 0.0 && Abs(sun.dx) < Tiny && Abs(sun.dy) < Tiny
    ensures Shaded(x, y, z, sun, g, sense) <==>
              exists i :: 0 <= i < |g.objects| &&
                g.objects[i].footprint.contains(Point(x, y)) && g.objects[i].heightFt >= z
  {
    assert Vertical(RayDirection(sun, sense));
    forall i | 0 <= i < |g.objects|
      ensures Occludes(g.objects[i], Point(x, y), z, sun, sense) <==>
                g.objects[i].footprint.contains(Point(x, y)) && g.objects[i].heightFt >= z
    {
      assert HeightAt(z, 0.0, sun, sense) == z;
    }
  }

}
