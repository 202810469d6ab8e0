/** The scene model: occluder records parsed from a loaded scene description,
    and the evaluation bounds, taken from explicit values or inferred from the
    occluders' bounding boxes. */
module Scene {
  import opened Wrappers
  import opened Shapes

  /** Half the thickness a fence polyline is buffered by (about two inches in all). */
  const FenceHalfThicknessFt: real := 0.164

  /** The padding of a bounds section that gives none, and of a scene without one. */
  const DefaultPaddingFt: real := 6.56

  /** The angular resolution of a tree's circular footprint. */
  const TreeResolution: nat := 32

  /** The object kinds the parser accepts, lower-cased. */
  const Kinds: set<string> := {"structure", "deck", "fence", "tree"}

  datatype Location = Location(latitude: real, longitude: real, timezone: string)

  /** Explicit evaluation bounds; each coordinate may be absent. */
  datatype Bounds = Bounds(
    xMin: Option<real>,
    xMax: Option<real>,
    yMin: Option<real>,
    yMax: Option<real>,
    paddingFt: real)

  /** A value of a loaded YAML or JSON scene description. */
  datatype Value =
    | Null
    | Boolean(b: bool)
    | Number(n: real)
    | Text(s: string)
    | List(items: seq<Value>)
    | Dict(fields: map<string, Value>)

  /** An occluder: its kind as written, its name, its height, its footprint
      and the record it was parsed from. */
  datatype SceneObject = SceneObject(
    kind: string,
    name: Value,
    heightFt: real,
    footprint: Footprint,
    raw: map<string, Value>)

  datatype Scene = Scene(
    location: Location,
    orientationDegCwFromNorth: real,
    objects: seq<SceneObject>,
    bounds: Option<Bounds>)

  /** Resolved bounds, in the order (x_min, x_max, y_min, y_max). */
  datatype Box = Box(xMin: real, xMax: real, yMin: real, yMax: real)

  datatype SceneError =
    | MissingBounds               // no objects and no bounds section
    | IncompleteBounds            // no objects and some bound absent
    | NotAPair(field: string)     // a coordinate entry that is not an [x, y] pair
    | NotANumber(field: string)   // a value that float() rejects
    | MissingFootprint
    | InvalidFootprint
    | MissingPolyline
    | InvalidPolyline
    | BadCenter
    | NonPositiveRadius
    | MissingKey(key: string)
    | TypeNotText                 // a `type` value without lower()
    | UnsupportedType(kind: string)

  // ---------------------------------------------------------------------
  // Resolved bounds
  // ---------------------------------------------------------------------

  /** The padding applied to inferred bounds. */
  function Padding(scene: Scene, defaultPaddingFt: real): (p: real)
    ensures scene.bounds.Some? ==> p == scene.bounds.value.paddingFt
    ensures scene.bounds.None? ==> p == defaultPaddingFt
  {
    if scene.bounds.Some? then scene.bounds.value.paddingFt else defaultPaddingFt
  }

  /** The bounds section, or one with every coordinate absent. */
  function Explicit(scene: Scene): Bounds
  {
    if scene.bounds.Some? then scene.bounds.value else Bounds(None, None, None, None, 0.0)
  }

  predicate Complete(b: Bounds)
  {
    b.xMin.Some? && b.xMax.Some? && b.yMin.Some? && b.yMax.Some?
  }

  function OrElse(given: Option<real>, fallback: real): real
  {
    if given.Some? then given.value else fallback
  }

  /** The x extremes of every object's bounding box, two per object. */
  function Xs(objects: seq<SceneObject>): (xs: seq<real>)
    ensures |xs| == 2 * |objects|
  {
    if objects == [] then []
    else
      var b := objects[|objects| - 1].footprint.bounds;
      Xs(objects[..|objects| - 1]) + [b.minx, b.maxx]
  }

  /** The y extremes of every object's bounding box, two per object. */
  function Ys(objects: seq<SceneObject>): (ys: seq<real>)
    ensures |ys| == 2 * |objects|
  {
    if objects == [] then []
    else
      var b := objects[|objects| - 1].footprint.bounds;
      Ys(objects[..|objects| - 1]) + [b.miny, b.maxy]
  }

  /** Entries `2i` and `2i + 1` of the extremes come from object `i`. */
  lemma {:induction false} ExtremesAt(objects: seq<SceneObject>, i: nat)
    requires i < |objects|
    ensures Xs(objects)[2 * i] == objects[i].footprint.bounds.minx
    ensures Xs(objects)[2 * i + 1] == objects[i].footprint.bounds.maxx
    ensures Ys(objects)[2 * i] == objects[i].footprint.bounds.miny
    ensures Ys(objects)[2 * i + 1] == objects[i].footprint.bounds.maxy
  {
    var n := |objects| - 1;
    if i < n {
      ExtremesAt(objects[..n], i);
    }
  }

  function SeqMin(s: seq<real>): (m: real)
    requires |s| > 0
    ensures m in s
    ensures forall i :: 0 <= i < |s| ==> m <= s[i]
  {
    if |s| == 1 then s[0]
    else
      var rest := SeqMin(s[1..]);
      assert forall i :: 1 <= i < |s| ==> s[i] == s[1..][i - 1];
      if s[0] <= rest then s[0] else rest
  }

  function SeqMax(s: seq<real>): (m: real)
    requires |s| > 0
    ensures m in s
    ensures forall i :: 0 <= i < |s| ==> s[i] <= m
  {
    if |s| == 1 then s[0]
    else
      var rest := SeqMax(s[1..]);
      assert forall i :: 1 <= i < |s| ==> s[i] == s[1..][i - 1];
      if s[0] >= rest then s[0] else rest
  }

  /** The evaluation bounds of a scene: the explicit ones when there are no
      objects, otherwise per coordinate the explicit value or the inferred
      extreme widened by the padding. */
  function Resolved(scene: Scene, defaultPaddingFt: real): (r: Result<Box, SceneError>)
    ensures scene.objects == [] && scene.bounds.None? ==> r == Err(MissingBounds)
    ensures scene.objects == [] && scene.bounds.Some? && !Complete(scene.bounds.value) ==>
              r == Err(IncompleteBounds)
    ensures scene.objects == [] && scene.bounds.Some? && Complete(scene.bounds.value) ==>
              var b := scene.bounds.value;
              r == Ok(Box(b.xMin.value, b.xMax.value, b.yMin.value, b.yMax.value))
    ensures scene.objects != [] ==> r.Ok?
  {
    var padding := Padding(scene, defaultPaddingFt);
    if scene.objects == [] then
      if scene.bounds.None? then Err(MissingBounds)
      else if !Complete(scene.bounds.value) then Err(IncompleteBounds)
      else
        var b := scene.bounds.value;
        Ok(Box(b.xMin.value, b.xMax.value, b.yMin.value, b.yMax.value))
    else
      var xs := Xs(scene.objects);
      var ys := Ys(scene.objects);
      var e := Explicit(scene);
      Ok(Box(
        OrElse(e.xMin, SeqMin(xs) - padding),
        OrElse(e.xMax, SeqMax(xs) + padding),
        OrElse(e.yMin, SeqMin(ys) - padding),
        OrElse(e.yMax, SeqMax(ys) + padding)))
  }

  /** Collects the bounding-box extremes object by object, then resolves
      each coordinate. */
  method ResolvedBounds(scene: Scene, defaultPaddingFt: real) returns (r: Result<Box, SceneError>)
    ensures r == Resolved(scene, defaultPaddingFt)
  {
    var padding := if scene.bounds.Some? then scene.bounds.value.paddingFt else defaultPaddingFt;
    if scene.objects == [] {
      if scene.bounds.None? {
        return Err(MissingBounds);
      }
      var b := scene.bounds.value;
      if b.xMin.None? || b.xMax.None? || b.yMin.None? || b.yMax.None? {
        return Err(IncompleteBounds);
      }
      return Ok(Box(b.xMin.value, b.xMax.value, b.yMin.value, b.yMax.value));
    }
    var xs: seq<real> := [];
    var ys: seq<real> := [];
    for i := 0 to |scene.objects|
      invariant xs == Xs(scene.objects[..i])
      invariant ys == Ys(scene.objects[..i])
    {
      assert scene.objects[..i + 1][..i] == scene.objects[..i];
      var bb := scene.objects[i].footprint.bounds;
      xs := xs + [bb.minx, bb.maxx];
      ys := ys + [bb.miny, bb.maxy];
    }
    assert scene.objects[..|scene.objects|] == scene.objects;
    var inferred := Box(SeqMin(xs), SeqMax(xs), SeqMin(ys), SeqMax(ys));
    var xMin := if scene.bounds.Some? && scene.bounds.value.xMin.Some?
                then scene.bounds.value.xMin.value else inferred.xMin - padding;
    var xMax := if scene.bounds.Some? && scene.bounds.value.xMax.Some?
                then scene.bounds.value.xMax.value else inferred.xMax + padding;
    var yMin := if scene.bounds.Some? && scene.bounds.value.yMin.Some?
                then scene.bounds.value.yMin.value else inferred.yMin - padding;
    var yMax := if scene.bounds.Some? && scene.bounds.value.yMax.Some?
                then scene.bounds.value.yMax.value else inferred.yMax + padding;
    return Ok(Box(xMin, xMax, yMin, yMax));
  }

  /** With objects present, an explicit coordinate is used as given; an
      absent one is the padded extreme over all bounding boxes: at most (or
      at least) every box edge, and equal to one of them. */
  lemma ResolvedWithObjects(scene: Scene, defaultPaddingFt: real)
    requires scene.objects != []
    ensures var r := Resolved(scene, defaultPaddingFt);
            var e := Explicit(scene);
            var pad := Padding(scene, defaultPaddingFt);
            var objs := scene.objects;
            && r.Ok?
            && (e.xMin.Some? ==> r.value.xMin == e.xMin.value)
            && (e.xMax.Some? ==> r.value.xMax == e.xMax.value)
            && (e.yMin.Some? ==> r.value.yMin == e.yMin.value)
            && (e.yMax.Some? ==> r.value.yMax == e.yMax.value)
            && (e.xMin.None? ==>
                  (forall i :: 0 <= i < |objs| ==>
                     r.value.xMin + pad <= objs[i].footprint.bounds.minx &&
                     r.value.xMin + pad <= objs[i].footprint.bounds.maxx) &&
                  (exists i :: 0 <= i < |objs| &&
                     (r.value.xMin + pad == objs[i].footprint.bounds.minx ||
                      r.value.xMin + pad == objs[i].footprint.bounds.maxx)))
            && (e.xMax.None? ==>
                  (forall i :: 0 <= i < |objs| ==>
                     objs[i].footprint.bounds.minx <= r.value.xMax - pad &&
                     objs[i].footprint.bounds.maxx <= r.value.xMax - pad) &&
                  (exists i :: 0 <= i < |objs| &&
                     (r.value.xMax - pad == objs[i].footprint.bounds.minx ||
                      r.value.xMax - pad == objs[i].footprint.bounds.maxx)))
            && (e.yMin.None? ==>
                  (forall i :: 0 <= i < |objs| ==>
                     r.value.yMin + pad <= objs[i].footprint.bounds.miny &&
                     r.value.yMin + pad <= objs[i].footprint.bounds.maxy) &&
                  (exists i :: 0 <= i < |objs| &&
                     (r.value.yMin + pad == objs[i].footprint.bounds.miny ||
                      r.value.yMin + pad == objs[i].footprint.bounds.maxy)))
            && (e.yMax.None? ==>
                  (forall i :: 0 <= i < |objs| ==>
                     objs[i].footprint.bounds.miny <= r.value.yMax - pad &&
                     objs[i].footprint.bounds.maxy <= r.value.yMax - pad) &&
                  (exists i :: 0 <= i < |objs| &&
                     (r.value.yMax - pad == objs[i].footprint.bounds.miny ||
                      r.value.yMax - pad == objs[i].footprint.bounds.maxy)))
  {
    var objs := scene.objects;
    var xs, ys := Xs(objs), Ys(objs);
    forall i | 0 <= i < |objs|
      ensures SeqMin(xs) <= objs[i].footprint.bounds.minx && SeqMin(xs) <= objs[i].footprint.bounds.maxx
      ensures objs[i].footprint.bounds.minx <= SeqMax(xs) && objs[i].footprint.bounds.maxx <= SeqMax(xs)
      ensures SeqMin(ys) <= objs[i].footprint.bounds.miny && SeqMin(ys) <= objs[i].footprint.bounds.maxy
      ensures objs[i].footprint.bounds.miny <= SeqMax(ys) && objs[i].footprint.bounds.maxy <= SeqMax(ys)
    {
      ExtremesAt(objs, i);
    }
    WitnessBox(objs, SeqMin(xs), true);
    WitnessBox(objs, SeqMax(xs), true);
    WitnessBox(objs, SeqMin(ys), false);
    WitnessBox(objs, SeqMax(ys), false);
  }

  /** Entry `k` of the extremes comes from object `k / 2`. */
  lemma {:induction false} ExtremeOwner(objs: seq<SceneObject>, k: nat)
    requires k < 2 * |objs|
    ensures var b := objs[k / 2].footprint.bounds;
            (Xs(objs)[k] == b.minx || Xs(objs)[k] == b.maxx) &&
            (Ys(objs)[k] == b.miny || Ys(objs)[k] == b.maxy)
  {
    var n := |objs| - 1;
    if k < 2 * n {
      ExtremeOwner(objs[..n], k);
      assert objs[..n][k / 2] == objs[k / 2];
    }
  }

  /** A value among the extremes belongs to some object's bounding box. */
  lemma WitnessBox(objs: seq<SceneObject>, v: real, horizontal: bool)
    requires v in (if horizontal then Xs(objs) else Ys(objs))
    ensures horizontal ==>
              exists i :: 0 <= i < |objs| &&
                (v == objs[i].footprint.bounds.minx || v == objs[i].footprint.bounds.maxx)
    ensures !horizontal ==>
              exists i :: 0 <= i < |objs| &&
                (v == objs[i].footprint.bounds.miny || v == objs[i].footprint.bounds.maxy)
  {
    var vs := if horizontal then Xs(objs) else Ys(objs);
    var k :| 0 <= k < |vs| && vs[k] == v;
    ExtremeOwner(objs, k);
    var i := k / 2;
    assert 0 <= i < |objs|;
  }

  /** With objects, no explicit coordinate and a non-negative padding, the
      resolved box contains every object's bounding box. */
  lemma ResolvedContainsObjects(scene: Scene, defaultPaddingFt: real)
    requires scene.objects != []
    requires scene.bounds.Some? ==>
               var b := scene.bounds.value;
               b.xMin.None? && b.xMax.None? && b.yMin.None? && b.yMax.None?
    requires Padding(scene, defaultPaddingFt) >= 0.0
    ensures var r := Resolved(scene, defaultPaddingFt);
            r.Ok? &&
            forall i :: 0 <= i < |scene.objects| ==>
              var bb := scene.objects[i].footprint.bounds;
              r.value.xMin <= bb.minx && bb.maxx <= r.value.xMax &&
              r.value.yMin <= bb.miny && bb.maxy <= r.value.yMax
  {
    ResolvedWithObjects(scene, defaultPaddingFt);
  }

  /** A scene with objects and no bounds section, resolved with the default
      padding, leaves at least that padding around every bounding box. */
  lemma DefaultPaddingMargin(scene: Scene)
    requires scene.objects != [] && scene.bounds.None?
    ensures var r := Resolved(scene, DefaultPaddingFt);
            r.Ok? &&
            forall i :: 0 <= i < |scene.objects| ==>
              var bb := scene.objects[i].footprint.bounds;
              r.value.xMin + DefaultPaddingFt <= bb.minx && bb.maxx + DefaultPaddingFt <= r.value.xMax &&
              r.value.yMin + DefaultPaddingFt <= bb.miny && bb.maxy + DefaultPaddingFt <= r.value.yMax
  {
    ResolvedWithObjects(scene, DefaultPaddingFt);
  }

  // ---------------------------------------------------------------------
  // Coordinates
  // ---------------------------------------------------------------------

  /** What float() makes of a value: numbers as they are, booleans as 1 and 0;
      anything else is rejected. */
  function ToFloat(v: Value): Option<real>
  {
    match v
    case Number(n) => Some(n)
    case Boolean(b) => Some(if b then 1.0 else 0.0)
    case _ => None
  }

  /** A sequence of length two: a two-item list or a two-character text. */
  predicate IsPair(v: Value)
  {
    (v.List? && |v.items| == 2) || (v.Text? && |v.s| == 2)
  }

  /** Item `k` of a pair; a text's items are one-character texts. */
  function PairItem(v: Value, k: nat): Value
    requires IsPair(v) && k < 2
  {
    if v.List? then v.items[k] else Text([v.s[k]])
  }

  /** One coordinate entry as a point. */
  function PairPoint(entry: Value, field: string): (r: Result<Point, SceneError>)
    ensures r.Ok? <==> IsPair(entry) && ToFloat(PairItem(entry, 0)).Some? && ToFloat(PairItem(entry, 1)).Some?
    ensures !IsPair(entry) ==> r == Err(NotAPair(field))
    ensures r.Ok? ==> r.value == Point(ToFloat(PairItem(entry, 0)).value, ToFloat(PairItem(entry, 1)).value)
  {
    if !IsPair(entry) then Err(NotAPair(field))
    else
      var x := ToFloat(PairItem(entry, 0));
      var y := ToFloat(PairItem(entry, 1));
      if x.None? || y.None? then Err(NotANumber(field))
      else Ok(Point(x.value, y.value))
  }

  /** The entries of a coordinate list as points, in order; the first entry
      that is not a numeric pair decides the error. */
  function Pairs(entries: seq<Value>, field: string): (r: Result<seq<Point>, SceneError>)
    ensures r.Ok? <==> forall i :: 0 <= i < |entries| ==> PairPoint(entries[i], field).Ok?
    ensures r.Ok? ==> (|r.value| == |entries| &&
              forall i :: 0 <= i < |entries| ==> PairPoint(entries[i], field) == Ok(r.value[i]))
    ensures r.Err? ==>
              exists i :: 0 <= i < |entries| &&
                PairPoint(entries[i], field) == Err(r.error) &&
                forall j :: 0 <= j < i ==> PairPoint(entries[j], field).Ok?
  {
    if entries == [] then Ok([])
    else
      var n := |entries| - 1;
      var init := entries[..n];
      assert forall i :: 0 <= i < n ==> init[i] == entries[i];
      match Pairs(init, field)
      case Err(e) => Err(e)
      case Ok(points) =>
        match PairPoint(entries[n], field)
        case Err(e) => Err(e)
        case Ok(p) => Ok(points + [p])
  }

  /** What the coordinate check makes of a whole field. Iterating an empty
      text or mapping yields no entries; any other value that is not a list
      is rejected. */
  function Coordinates(coords: Value, field: string): Result<seq<Point>, SceneError>
  {
    match coords
    case List(entries) => Pairs(entries, field)
    case Text(s) => if s == "" then Ok([]) else Err(NotAPair(field))
    case Dict(m) => if m == map[] then Ok([]) else Err(NotAPair(field))
    case _ => Err(NotAPair(field))
  }

  /** Converts the entries one by one, appending each point. */
  method ValidateCoordinates(coords: Value, field: string) returns (r: Result<seq<Point>, SceneError>)
    ensures r == Coordinates(coords, field)
    ensures coords.List? ==>
              (r.Ok? <==> forall i :: 0 <= i < |coords.items| ==>
                            IsPair(coords.items[i]) &&
                            ToFloat(PairItem(coords.items[i], 0)).Some? &&
                            ToFloat(PairItem(coords.items[i], 1)).Some?)
    ensures coords.List? && r.Ok? ==>
              |r.value| == |coords.items| &&
              forall i :: 0 <= i < |coords.items| ==>
                r.value[i] == Point(ToFloat(PairItem(coords.items[i], 0)).value,
                                    ToFloat(PairItem(coords.items[i], 1)).value)
  {
    if !coords.List? {
      if (coords.Text? && coords.s == "") || (coords.Dict? && coords.fields == map[]) {
        return Ok([]);
      }
      return Err(NotAPair(field));
    }
    var entries := coords.items;
    var points: seq<Point> := [];
    for i := 0 to |entries|
      invariant Pairs(entries[..i], field) == Ok(points)
    {
      assert entries[..i + 1][..i] == entries[..i];
      var entry := entries[i];
      if !IsPair(entry) {
        return Err(NotAPair(field));
      }
      var x := ToFloat(PairItem(entry, 0));
      var y := ToFloat(PairItem(entry, 1));
      if x.None? || y.None? {
        return Err(NotANumber(field));
      }
      points := points + [Point(x.value, y.value)];
    }
    assert entries[..|entries|] == entries;
    return Ok(points);
  }

  // ---------------------------------------------------------------------
  // Object records
  // ---------------------------------------------------------------------

  function LowerChar(c: char): char
  {
    if 'A' <= c <= 'Z' then (c as int + 32) as char else c
  }

  /** Lower-cases the ASCII letters of a text. */
  function Lower(s: string): string
  {
    seq(|s|, i requires 0 <= i < |s| => LowerChar(s[i]))
  }

  /** The record's `name`, defaulting to its `type`. */
  function NameOf(data: map<string, Value>): Value
    requires "type" in data
  {
    if "name" in data then data["name"] else data["type"]
  }

  function HeightOf(data: map<string, Value>): Result<real, SceneError>
    requires "height_ft" in data
  {
    match ToFloat(data["height_ft"])
    case Some(h) => Ok(h)
    case None => Err(NotANumber("height_ft"))
  }

  /** A field as `get` returns it: absent and null alike give `Null`. */
  function Get(data: map<string, Value>, key: string): Value
  {
    if key in data then data[key] else Null
  }

  /** A structure or deck: a polygon over its footprint coordinates. */
  function ParseStructure(data: map<string, Value>, shapely: Shapely): (r: Result<SceneObject, SceneError>)
    requires "type" in data && data["type"].Text? && "height_ft" in data
    ensures Get(data, "footprint").Null? ==> r == Err(MissingFootprint)
    ensures !Get(data, "footprint").Null? && Coordinates(data["footprint"], "footprint").Err? ==>
              r == Err(Coordinates(data["footprint"], "footprint").error)
    ensures !Get(data, "footprint").Null? && Coordinates(data["footprint"], "footprint").Ok? &&
            shapely.polygon(Coordinates(data["footprint"], "footprint").value).None? ==>
              r == Err(InvalidFootprint)
    ensures !Get(data, "footprint").Null? && Coordinates(data["footprint"], "footprint").Ok? &&
            shapely.polygon(Coordinates(data["footprint"], "footprint").value).Some? ==>
              (ToFloat(data["height_ft"]).None? ==> r == Err(NotANumber("height_ft"))) &&
              (ToFloat(data["height_ft"]).Some? ==> r.Ok?)
    ensures r.Ok? ==>
              && !Get(data, "footprint").Null?
              && Coordinates(data["footprint"], "footprint").Ok?
              && shapely.polygon(Coordinates(data["footprint"], "footprint").value) == Some(r.value.footprint)
              && ToFloat(data["height_ft"]) == Some(r.value.heightFt)
              && r.value.kind == data["type"].s && r.value.name == NameOf(data) && r.value.raw == data
  {
    if Get(data, "footprint").Null? then Err(MissingFootprint)
    else
      match Coordinates(data["footprint"], "footprint")
      case Err(e) => Err(e)
      case Ok(footprint) =>
        match shapely.polygon(footprint)
        case None => Err(InvalidFootprint)
        case Some(polygon) =>
          match HeightOf(data)
          case Err(e) => Err(e)
          case Ok(h) => Ok(SceneObject(data["type"].s, NameOf(data), h, polygon, data))
  }

  /** A fence: its polyline buffered by the fence half-thickness. */
  function ParseFence(data: map<string, Value>, shapely: Shapely): (r: Result<SceneObject, SceneError>)
    requires "type" in data && data["type"].Text? && "height_ft" in data
    ensures Get(data, "polyline").Null? ==> r == Err(MissingPolyline)
    ensures !Get(data, "polyline").Null? && Coordinates(data["polyline"], "polyline").Err? ==>
              r == Err(Coordinates(data["polyline"], "polyline").error)
    ensures !Get(data, "polyline").Null? && Coordinates(data["polyline"], "polyline").Ok? &&
            shapely.bufferLine(Coordinates(data["polyline"], "polyline").value, FenceHalfThicknessFt).None? ==>
              r == Err(InvalidPolyline)
    ensures !Get(data, "polyline").Null? && Coordinates(data["polyline"], "polyline").Ok? &&
            shapely.bufferLine(Coordinates(data["polyline"], "polyline").value, FenceHalfThicknessFt).Some? ==>
              (ToFloat(data["height_ft"]).None? ==> r == Err(NotANumber("height_ft"))) &&
              (ToFloat(data["height_ft"]).Some? ==> r.Ok?)
    ensures r.Ok? ==>
              && !Get(data, "polyline").Null?
              && Coordinates(data["polyline"], "polyline").Ok?
              && shapely.bufferLine(Coordinates(data["polyline"], "polyline").value, FenceHalfThicknessFt)
                   == Some(r.value.footprint)
              && ToFloat(data["height_ft"]) == Some(r.value.heightFt)
              && r.value.kind == data["type"].s && r.value.name == NameOf(data) && r.value.raw == data
  {
    if Get(data, "polyline").Null? then Err(MissingPolyline)
    else
      match Coordinates(data["polyline"], "polyline")
      case Err(e) => Err(e)
      case Ok(points) =>
        match shapely.bufferLine(points, FenceHalfThicknessFt)
        case None => Err(InvalidPolyline)
        case Some(polygon) =>
          match HeightOf(data)
          case Err(e) => Err(e)
          case Ok(h) => Ok(SceneObject(data["type"].s, NameOf(data), h, polygon, data))
  }

  /** The tree radius: `radius_ft` converted, 0 when absent. */
  function RadiusOf(data: map<string, Value>): Option<real>
  {
    if "radius_ft" in data then ToFloat(data["radius_ft"]) else Some(0.0)
  }

  /** A tree: a disk of the given radius around its center. */
  function ParseTree(data: map<string, Value>, shapely: Shapely): (r: Result<SceneObject, SceneError>)
    requires "type" in data && data["type"].Text? && "height_ft" in data
    ensures !IsPair(Get(data, "center")) ==> r == Err(BadCenter)
    ensures IsPair(Get(data, "center")) && RadiusOf(data).None? ==> r == Err(NotANumber("radius_ft"))
    ensures IsPair(Get(data, "center")) && RadiusOf(data).Some? && RadiusOf(data).value <= 0.0 ==>
              r == Err(NonPositiveRadius)
    ensures IsPair(Get(data, "center")) && RadiusOf(data).Some? && RadiusOf(data).value > 0.0 ==>
              var center := data["center"];
              && (ToFloat(data["height_ft"]).None? ==> r == Err(NotANumber("height_ft")))
              && (ToFloat(data["height_ft"]).Some? ==>
                    && (ToFloat(PairItem(center, 0)).None? ==> r == Err(NotANumber("center")))
                    && (ToFloat(PairItem(center, 1)).None? ==> r == Err(NotANumber("center")))
                    && (ToFloat(PairItem(center, 0)).Some? && ToFloat(PairItem(center, 1)).Some? ==> r.Ok?))
    ensures r.Ok? ==>
              var center := data["center"];
              && "center" in data && IsPair(center)
              && RadiusOf(data).Some? && RadiusOf(data).value > 0.0
              && ToFloat(data["height_ft"]) == Some(r.value.heightFt)
              && ToFloat(PairItem(center, 0)).Some? && ToFloat(PairItem(center, 1)).Some?
              && r.value.footprint == shapely.disk(
                   Point(ToFloat(PairItem(center, 0)).value, ToFloat(PairItem(center, 1)).value),
                   RadiusOf(data).value, TreeResolution)
              && r.value.kind == data["type"].s && r.value.name == NameOf(data) && r.value.raw == data
  {
    var center := Get(data, "center");
    if !IsPair(center) then Err(BadCenter)
    else
      match RadiusOf(data)
      case None => Err(NotANumber("radius_ft"))
      case Some(radius) =>
        if radius <= 0.0 then Err(NonPositiveRadius)
        else
          match HeightOf(data)
          case Err(e) => Err(e)
          case Ok(h) =>
            var cx := ToFloat(PairItem(center, 0));
            var cy := ToFloat(PairItem(center, 1));
            if cx.None? || cy.None? then Err(NotANumber("center"))
            else
              var circle := shapely.disk(Point(cx.value, cy.value), radius, TreeResolution);
              Ok(SceneObject(data["type"].s, NameOf(data), h, circle, data))
  }

  /** Checks the required keys, then dispatches on the lower-cased type. */
  function ParseObject(entry: map<string, Value>, shapely: Shapely): (r: Result<SceneObject, SceneError>)
    ensures "type" !in entry ==> r == Err(MissingKey("type"))
    ensures "type" in entry && "height_ft" !in entry ==> r == Err(MissingKey("height_ft"))
    ensures "type" in entry && "height_ft" in entry && !entry["type"].Text? ==> r == Err(TypeNotText)
    ensures "type" in entry && "height_ft" in entry && entry["type"].Text? ==>
              var kind := Lower(entry["type"].s);
              && (kind in {"structure", "deck"} ==> r == ParseStructure(entry, shapely))
              && (kind == "fence" ==> r == ParseFence(entry, shapely))
              && (kind == "tree" ==> r == ParseTree(entry, shapely))
              && (kind !in Kinds ==> r == Err(UnsupportedType(kind)))
    ensures r.Ok? ==>
              && "type" in entry && entry["type"].Text? && Lower(entry["type"].s) in Kinds
              && "height_ft" in entry && ToFloat(entry["height_ft"]) == Some(r.value.heightFt)
              && r.value.kind == entry["type"].s && r.value.raw == entry
  {
    if "type" !in entry then Err(MissingKey("type"))
    else if "height_ft" !in entry then Err(MissingKey("height_ft"))
    else if !entry["type"].Text? then Err(TypeNotText)
    else
      var kind := Lower(entry["type"].s);
      if kind == "structure" || kind == "deck" then ParseStructure(entry, shapely)
      else if kind == "fence" then ParseFence(entry, shapely)
      else if kind == "tree" then ParseTree(entry, shapely)
      else Err(UnsupportedType(kind))
  }

}
