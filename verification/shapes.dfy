/** The plane geometry that the scene parser and the occlusion engine obtain
    from the Shapely library, reduced to the values and queries they use.
    Every query is an oracle: a function supplied from outside whose results
    the model takes as given. */
module Shapes {
  import opened Wrappers

  datatype Point = Point(x: real, y: real)

  /** A two-point `LineString` from `start` to `end`. */
  datatype Segment = Segment(start: Point, end: Point)

  /** An axis-aligned bounding box in Shapely's order (minx, miny, maxx, maxy). */
  datatype BBox = BBox(minx: real, miny: real, maxx: real, maxy: real)

  /** The result of intersecting a footprint's boundary with a segment, tagged
      by its Shapely `geom_type`. `Empty` stands for every result whose
      `is_empty` is true; `OtherGeom` for any other geometry type. */
  datatype Geom =
    | Empty
    | PointGeom(p: Point)
    | MultiPoint(parts: seq<Geom>)
    | GeometryCollection(parts: seq<Geom>)
    | LineString(coords: seq<Point>)
    | LinearRing(coords: seq<Point>)
    | MultiLineString(lines: seq<seq<Point>>)
    | OtherGeom

  /** A footprint polygon, seen only through the three queries the core makes:
      plan-view containment (`geom.contains`), the boundary cut with a
      segment (`geom.boundary.intersection`) and the bounding box
      (`geom.bounds`). */
  datatype Footprint = Footprint(
    contains: Point -> bool,
    boundaryCut: Segment -> Geom,
    bounds: BBox)

  /** The Shapely constructors the scene parser calls. `polygon` yields `None`
      for a polygon that is invalid or empty; `bufferLine` yields `None` for a
      polyline that is empty; `disk` buffers a point by a radius at the given
      angular resolution. */
  datatype Shapely = Shapely(
    polygon: seq<Point> -> Option<Footprint>,
    bufferLine: (seq<Point>, real) -> Option<Footprint>,
    disk: (Point, real, nat) -> Footprint)

}
