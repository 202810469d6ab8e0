# Backyard sun map, modelled in Dafny

This project models the core of `backyard_sun_map`. That program estimates how many minutes each point of a horizontal grid over a backyard gets direct sunlight during a time window. The model covers five parts:

- **Occlusion engine** (`geometry.dfy`, module `Geometry`). It finds the nearest non-negative crossing of a ray with an occluder's footprint boundary. It then decides whether a point is shaded by scanning the occluders in scene order and stopping at the first that blocks it.
- **Exposure accumulator** (`simulation.dfy`, module `Simulation`). A zero-initialised `array2<int>` is updated in place by a loop over sun positions, grid rows and grid columns. Each cell is proved to hold exactly the minutes given by a specification function, and that function's bounds, monotonicity and extreme cases are proved as lemmas.
- **Scene records** (`scene.dfy`, module `Scene`). This covers the evaluation bounds, whether explicit or inferred from bounding boxes with padding, the `[x, y]` coordinate check, and the parsing of structure, deck, fence and tree records, with every error path.
- **Time series** (`solar.dfy`, module `Solar`). Timestamps are modelled as wall-clock minutes, from start to end inclusive.
- **Direction of the occlusion ray** (`shading_direction.dfy`, module `ShadingDirection`). See "## Findings".

Shapely stays outside the model. A footprint is a `Shapes.Footprint` value made of three oracles: plan-view containment, the cut of its boundary by a segment (typed like Shapely's `geom_type`), and its bounding box. The polygon, line-buffer and disk constructors used by the parser are oracles in `Shapes.Shapely`. Floating-point numbers are modelled as `real`. Sun directions are given as `Geometry.Vec3` values, and sun positions as `Solar.SunPosition` values.

With the sun overhead, a point inside a footprint gets ray distance `0.0`, so the height at that distance is the evaluation height and the `[0, height]` test still applies (`backyard_sun_map/geometry.py:31-32`, `:99-100`). `Geometry.ZenithSun` states the result: an occluder then shades a point exactly when its footprint contains the point and it is at least as tall.

## Model

| member | source | states |
|---|---|---|
| `Geometry.BuildObjects` | backyard_sun_map/geometry.py:15-17 | the engine sees exactly the scene's objects, in the same order |
| `Geometry.PointParts` | backyard_sun_map/geometry.py:48-51 | a point is extracted from a multi-part cut exactly when it is one of the cut's `Point` members |
| `Geometry.Concat` | backyard_sun_map/geometry.py:54-56 | a point is extracted from a multi-line cut exactly when it is a coordinate of one of its lines |
| `Geometry.CollectPoints` | backyard_sun_map/geometry.py:43-56 | the appending loops build the extracted points per geometry type: one point, the `Point` members, the coordinates, or the lines' coordinates; an empty or other-typed cut yields none |
| `Geometry.ParamOnRay` | backyard_sun_map/geometry.py:63-70 | reading the parameter off the dominant axis of a non-negligible direction recovers the ray position `t` of any point on the ray |
| `Geometry.NearestIsNearest` | backyard_sun_map/geometry.py:61-75 | the scan yields the smallest non-negative parameter among the points, and it is one of theirs; it yields `None` exactly when no point is ahead of the origin |
| `Geometry.NearestCrossing` | backyard_sun_map/geometry.py:61-75 | the loop with its skips (negligible axis, negative `s`) computes the nearest crossing as characterised above |
| `Geometry.RayDistance` | backyard_sun_map/geometry.py:20-75 | a distance that is returned is never negative |
| `Geometry.RayIntersectionDistance` | backyard_sun_map/geometry.py:20-75 | with a negligible direction the result is `0.0` exactly when the footprint contains the origin and `None` otherwise; an empty cut gives `None`; otherwise the result is the nearest non-negative crossing among the extracted points (`None` when there are no points, or none ahead) |
| `Geometry.ScanOccluders` | backyard_sun_map/geometry.py:86-102 | the ordered, short-circuit scan returns true exactly when the sun is at or below the horizon or some occluder contains the point and is tall enough, or is met at its nearest crossing at a height in `[0, height]`; with the sun up and no occluders it returns false |
| `Geometry.IsPointShaded` | backyard_sun_map/geometry.py:78-102 | the source's test, with the ray cast along `(-dx, -dy)` and the height taken as `z - s*dz`, decides as `ScanOccluders` states |
| `Geometry.TallOccluderShades` | backyard_sun_map/geometry.py:93-95 | an occluder whose footprint contains the point and whose height is at least `z` shades the point, whatever the sun direction and the other occluders |
| `Geometry.ZenithSun` | backyard_sun_map/geometry.py:29-33 | with negligible horizontal sun components and the sun up, the point is shaded exactly when some footprint contains it and that occluder is at least as tall |
| `ShadingDirection.IsPointShadedTowardSun` | backyard_sun_map/geometry.py:91-100 | the corrected test, with the ray cast toward the sun and the height `z + s*dz`, decides as `ScanOccluders` states |
| `ShadingDirection.OccludesLower` | backyard_sun_map/geometry.py:94-100 | with the sun-ward ray, one occluder that blocks a point at some height also blocks it at every lower height down to the ground |
| `ShadingDirection.TowardSunMonotoneInHeight` | backyard_sun_map/geometry.py:91-100 | with the sun-ward ray, a point shaded at height `z2` is also shaded at every height `z1` with `0 <= z1 <= z2` |
| `ShadingDirection.AwayFromSunShadesFromBehind` | backyard_sun_map/geometry.py:91-100 | as written, a wall on the far side of the point from the sun leaves the point sunlit on the ground but shades it at one foot |
| `ShadingDirection.TowardSunFindsWallInFront` | backyard_sun_map/geometry.py:91-100 | as written, a wall between the point and the sun does not shade it; the sun-ward test does find that wall, and it ignores the wall behind the point |
| `Simulation.AccumulateExposure` | backyard_sun_map/simulation.py:27-41 | the array is fresh, has one row per y coordinate and one column per x coordinate, and every cell holds the `SunMinutes` of its (x, y) over all positions |
| `Simulation.NightAddsNothing` | backyard_sun_map/simulation.py:32-34 | a position with altitude `<= 0` changes no cell |
| `Simulation.SunMinutesBounds` | backyard_sun_map/simulation.py:32-41 | with a non-negative step, every cell is between 0 and `step_minutes` times the number of positions with altitude `> 0` |
| `Simulation.SunMinutesMonotone` | backyard_sun_map/simulation.py:32-41 | with a non-negative step, a cell never decreases from one processed position to a later one |
| `Simulation.NeverShadedFullSun` | backyard_sun_map/simulation.py:38-41 | a cell that no daylight position shades ends at exactly `step_minutes` times the number of daylight positions |
| `Simulation.AlwaysShadedNoSun` | backyard_sun_map/simulation.py:38-41 | a cell that every daylight position shades ends at 0 |
| `Simulation.EmptySceneFullSun` | backyard_sun_map/simulation.py:32-41 | in a scene without occluders, with upward sun vectors at daylight positions, every cell gets `step_minutes` per daylight position, under either ray direction |
| `Simulation.UnderTallOccluderNoSun` | backyard_sun_map/simulation.py:38-41 | a cell inside the footprint of an occluder at least as tall as the evaluation height collects no minutes, under either ray direction |
| `Scene.Padding` | backyard_sun_map/scene.py:46 | the padding is the bounds section's `padding_ft` when there is one, and the default padding otherwise |
| `Scene.SeqMin` | backyard_sun_map/scene.py:75-80 | `min` returns an element that is at most every element |
| `Scene.SeqMax` | backyard_sun_map/scene.py:75-80 | `max` returns an element that is at least every element |
| `Scene.Resolved` | backyard_sun_map/scene.py:44-102 | no objects and no bounds gives the missing-bounds error; no objects and any bound absent gives the incomplete-bounds error; no objects and complete bounds gives exactly `(x_min, x_max, y_min, y_max)`; with objects the result always exists |
| `Scene.ResolvedBounds` | backyard_sun_map/scene.py:44-102 | the loop that collects the extremes, followed by the per-coordinate choice, computes `Resolved` |
| `Scene.ResolvedWithObjects` | backyard_sun_map/scene.py:68-101 | with objects, each coordinate given explicitly is used as given; each absent one is the extreme over every bounding-box edge, moved outward by the padding: it bounds every box and equals some box's edge |
| `Scene.ResolvedContainsObjects` | backyard_sun_map/scene.py:68-101 | with objects, no explicit coordinates and padding `>= 0`, the resolved box contains every object's bounding box |
| `Scene.DefaultPaddingMargin` | backyard_sun_map/scene.py:44-46 | a scene with objects and no bounds section, resolved with the default padding of 6.56 ft, leaves at least that margin around every object's bounding box |
| `Scene.PairPoint` | backyard_sun_map/scene.py:110-113 | an entry is accepted exactly when it is a length-2 sequence whose items both convert with `float()`; a non-pair is the pair error; an accepted entry gives the point of its two converted items |
| `Scene.Pairs` | backyard_sun_map/scene.py:109-114 | a list converts exactly when every entry does, giving one point per entry in input order; otherwise the first bad entry's error is reported |
| `Scene.ValidateCoordinates` | backyard_sun_map/scene.py:105-114 | the appending loop computes `Coordinates`; for a list the result exists exactly when every entry is a numeric pair, and then it has one point per entry, in order |
| `Scene.ParseStructure` | backyard_sun_map/scene.py:117-131 | an absent or null footprint, a bad coordinate list, an invalid or empty polygon, or a height that does not convert each give their error; a record that passes all four checks is accepted, and the parsed record carries the polygon of its coordinates, its converted height, type, name and raw record |
| `Scene.ParseFence` | backyard_sun_map/scene.py:134-153 | an absent or null polyline, a bad coordinate list, an empty line, or a height that does not convert each give their error; a record that passes all four checks is accepted, and the parsed record's footprint is the polyline buffered by 0.164 ft |
| `Scene.ParseTree` | backyard_sun_map/scene.py:156-172 | a center that is not a length-2 sequence, a radius that does not convert, a radius `<= 0` (an absent radius counts as 0), a height that does not convert, or a center item that does not convert each give their error, in that order; a record that passes every check is accepted, and the parsed record's footprint is the disk of that positive radius at resolution 32 around the converted center |
| `Scene.ParseObject` | backyard_sun_map/scene.py:175-188 | a missing `type` or `height_ft` key gives a missing-key error, `type` first; a lower-cased type outside structure/deck/fence/tree gives the unsupported-type error; otherwise parsing goes to the matching parser, and a parsed record keeps the type as written |
| `Solar.GenerateTimes` | backyard_sun_map/solar.py:17-38 | a step `<= 0` or a start after the end is an error; otherwise the series starts at `start`, advances by exactly the step (so it is strictly increasing), stays `<= end`, ends within one step of `end`, and has `(end - start) / step + 1` elements |
| `Solar.CountSteps` | backyard_sun_map/solar.py:34-37 | a division fact used to prove `GenerateTimes`, not a model of code in its own right: when `q` steps fit into a span and `q + 1` do not, `q` is the span divided by the step, which fixes the number of times the `while` loop runs |

## Left out

- Shapely is not part of this model: polygon validity, line and point buffering, `contains`, `boundary.intersection` and `bounds` are oracles in `Shapes`. The `hasattr(geom, "boundary")` fallback is not modelled, because every footprint is a polygon.
- `Geometry.RayIntersectionDistance`: only the `Empty` tag counts as an `is_empty` cut. An empty geometry of another type, such as a `MultiPoint` with no parts, is treated as non-empty and then yields no points. The outcome is `None` either way.
- Floating-point rounding, infinities and NaN are not modelled, because every quantity is an exact `real`. Exposure cells are integers. The source's float cells hold sums of integer minutes, which are exact below 2^53.
- `sun_vector_local` (trigonometric rotation) is left out as floating-point trigonometry. The accumulator takes the sun vector as a function of the sun position.
- `compute_solar_positions`, with its pvlib and pysolar backends and their ImportError fallback, is left out as an external library call. The positions are an input sequence.
- `Simulation.AccumulateExposure` takes the grids, the positions, the sun vector and the shading test as parameters. The glue in `run_simulation` that calls `resolved_bounds`, `np.arange`, `generate_times` and `compute_solar_positions` in turn is not modelled. `np.arange` grid construction is floating-point accumulation, and the others are modelled on their own. `os.makedirs` for the output directory is file-system I/O and is also left out.
- `Solar.GenerateTimes`: timestamps are integer wall-clock minutes. Attaching the `ZoneInfo` time zone is left out, because Python compares and adds datetimes that share one `tzinfo` by wall-clock time.
- `Scene.ParseObject` takes the record as a mapping. A record that is not a mapping, which `load_scene` could pass, is not modelled.
- `load_scene`, `_load_raw_scene` (file reading, YAML and JSON parsing), `cli.py` and `plotting.py` are I/O and rendering, and are left out. Explicit bounds are reals, although `load_scene` does not convert them.
- `Scene.ToFloat` covers numbers and booleans only. Python's `float()` also parses numeric text such as `"3.5"`, which the model rejects as not a number.
- `Scene.Coordinates`: a coordinate value that is not a list is rejected with the pair error, except an empty text or mapping, which yields no entries in both. Python raises `TypeError` for a number or boolean. It iterates a mapping's keys, so it accepts a mapping whose keys are two-character numeric texts: `{"12": 0, "34": 0}` gives the points (1, 2) and (3, 4). The model rejects such a mapping, for the same reason that `Scene.ToFloat` rejects text.
- `Scene.Lower` lower-cases ASCII letters only. Python's `lower()` also folds other characters. For example, the Kelvin sign lowers to `k`, so the source accepts `"DECK"` (its last letter is the Kelvin sign, U+212A) as a deck and the model does not.
- Error messages are modelled as error kinds (`SceneError`, `SolarError`), not as text.

## Findings

| source | as written | input that shows it | evidently intended | confidence | as-written member | corrected member |
|---|---|---|---|---|---|---|
| backyard_sun_map/geometry.py:92-100 | The occlusion ray is cast along `(-dx, -dy)`, away from the sun: `sun_vector_local` returns the direction toward the sun (solar.py:80). The height along the ray is `z - s*dz`. So the test looks where the point's own shadow falls. | A 10 ft wall over x in [-2, -1], y in [-1, 1]. Point (0, 0), sun vector (1, 0, 1). As written, the point is sunlit at height 0 and shaded at height 1 by a wall that is behind it. A wall over x in [1, 2], standing between the point and the sun, does not shade it. | Cast the ray toward the sun along `(dx, dy)` and take the height `z + s*dz`. Then a higher point is never more shaded than a lower one, and only an occluder on the sun's side can shade. | not executed; high | `ShadingDirection.AwayFromSunShadesFromBehind` | `ShadingDirection.TowardSunMonotoneInHeight` |

`Geometry.Sense` selects the ray direction. `Geometry.IsPointShaded` keeps the source's behaviour, and `ShadingDirection.IsPointShadedTowardSun` is the corrected test. The accumulator takes the shading test as a parameter, and `Simulation.EngineTest(g, TowardSun)` is the corrected engine. `ShadingDirection.TowardSunFindsWallInFront` shows both walls under both directions.
