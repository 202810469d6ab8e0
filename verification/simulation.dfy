/** The exposure accumulator: for every cell of an evaluation grid, the
    minutes of direct sun it receives over a series of sun positions. */
module Simulation {
  import opened Solar
  import Geometry
  import Shapes

  /** A shading test in the engine's shape: x, y, evaluation height and sun
      direction. */
  type ShadeTest = (real, real, real, Geometry.Vec3) -> bool

  /** The engine over a fixed set of occluders, as a shading test. */
  function EngineTest(g: Geometry.InternalGeometry, sense: Geometry.Sense): ShadeTest
  {
    (x: real, y: real, z: real, sun: Geometry.Vec3) => Geometry.Shaded(x, y, z, sun, g, sense)
  }

  /** The sun is above the horizon at this position. */
  predicate Daylight(p: SunPosition)
  {
    p.altDeg > 0.0
  }

  /** What one sun position adds to the cell at (x, y): the step when the
      sun is up and the point is not shaded, nothing otherwise. */
  function Gain(p: SunPosition, x: real, y: real, z: real, step: int,
                sunVector: SunPosition -> Geometry.Vec3, shaded: ShadeTest): int
  {
    if !Daylight(p) then 0
    else if shaded(x, y, z, sunVector(p)) then 0
    else step
  }

  /** The minutes of sun the cell at (x, y) collects over the positions. */
  function SunMinutes(ps: seq<SunPosition>, x: real, y: real, z: real, step: int,
                      sunVector: SunPosition -> Geometry.Vec3, shaded: ShadeTest): int
  {
    if ps == [] then 0
    else
      SunMinutes(ps[..|ps| - 1], x, y, z, step, sunVector, shaded)
        + Gain(ps[|ps| - 1], x, y, z, step, sunVector, shaded)
  }

  /** The number of positions with the sun above the horizon. */
  function DaylightCount(ps: seq<SunPosition>): nat
  {
    if ps == [] then 0
    else DaylightCount(ps[..|ps| - 1]) + (if Daylight(ps[|ps| - 1]) then 1 else 0)
  }

  /** Runs every sun position above the horizon over every cell, adding the
      step to each cell that is not shaded. */
  method AccumulateExposure(xGrid: seq<real>, yGrid: seq<real>, heightFt: real, stepMinutes: int,
                            positions: seq<SunPosition>, sunVector: SunPosition -> Geometry.Vec3,
                            shaded: ShadeTest)
    returns (exposure: array2<int>)
    ensures fresh(exposure)
    ensures exposure.Length0 == |yGrid| && exposure.Length1 == |xGrid|
    ensures forall yi, xi :: 0 <= yi < |yGrid| && 0 <= xi < |xGrid| ==>
              exposure[yi, xi] ==
                SunMinutes(positions, xGrid[xi], yGrid[yi], heightFt, stepMinutes, sunVector, shaded)
  {
    exposure := new int[|yGrid|, |xGrid|]((i, j) => 0);
    for k := 0 to |positions|
      invariant forall i, j :: 0 <= i < |yGrid| && 0 <= j < |xGrid| ==>
                  exposure[i, j] ==
                    SunMinutes(positions[..k], xGrid[j], yGrid[i], heightFt, stepMinutes, sunVector, shaded)
    {
      assert positions[..k + 1][..k] == positions[..k];
      var position := positions[k];
      if position.altDeg <= 0.0 {
        continue;
      }
      var sunDir := sunVector(position);
      for yi := 0 to |yGrid|
        invariant forall i, j :: 0 <= i < |yGrid| && 0 <= j < |xGrid| ==>
                    exposure[i, j] ==
                      SunMinutes(positions[..k], xGrid[j], yGrid[i], heightFt, stepMinutes, sunVector, shaded)
                      + (if i < yi then Gain(position, xGrid[j], yGrid[i], heightFt, stepMinutes, sunVector, shaded)
                         else 0)
      {
        var y := yGrid[yi];
        for xi := 0 to |xGrid|
          invariant forall i, j :: 0 <= i < |yGrid| && 0 <= j < |xGrid| ==>
                      exposure[i, j] ==
                        SunMinutes(positions[..k], xGrid[j], yGrid[i], heightFt, stepMinutes, sunVector, shaded)
                        + (if i < yi || (i == yi && j < xi)
                           then Gain(position, xGrid[j], yGrid[i], heightFt, stepMinutes, sunVector, shaded)
                           else 0)
        {
          var x := xGrid[xi];
          if !shaded(x, y, heightFt, sunDir) {
            exposure[yi, xi] := exposure[yi, xi] + stepMinutes;
          }
        }
      }
    }
    assert positions[..|positions|] == positions;
  }

  // ---------------------------------------------------------------------
  // Properties of the accumulated minutes
  // ---------------------------------------------------------------------

  /** A position with the sun at or below the horizon changes no cell. */
  lemma NightAddsNothing(ps: seq<SunPosition>, p: SunPosition, x: real, y: real, z: real, step: int,
                         sunVector: SunPosition -> Geometry.Vec3, shaded: ShadeTest)
    requires p.altDeg <= 0.0
    ensures SunMinutes(ps + [p], x, y, z, step, sunVector, shaded) ==
              SunMinutes(ps, x, y, z, step, sunVector, shaded)
  {
    assert (ps + [p])[..|ps|] == ps;
  }

  /** With a non-negative step a cell holds between zero and one step per
      position with the sun up. */
  lemma {:induction false} SunMinutesBounds(ps: seq<SunPosition>, x: real, y: real, z: real, step: int,
                                            sunVector: SunPosition -> Geometry.Vec3, shaded: ShadeTest)
    requires step >= 0
    ensures 0 <= SunMinutes(ps, x, y, z, step, sunVector, shaded) <= step * DaylightCount(ps)
  {
    if ps != [] {
      var init := ps[..|ps| - 1];
      SunMinutesBounds(init, x, y, z, step, sunVector, shaded);
      assert step * (DaylightCount(init) + 1) == step * DaylightCount(init) + step;
    }
  }

  /** With a non-negative step a cell never decreases from one position to
      the next. */
  lemma {:induction false} SunMinutesMonotone(ps: seq<SunPosition>, k1: nat, k2: nat, x: real, y: real,
                                              z: real, step: int,
                                              sunVector: SunPosition -> Geometry.Vec3, shaded: ShadeTest)
    requires step >= 0 && k1 <= k2 <= |ps|
    ensures SunMinutes(ps[..k1], x, y, z, step, sunVector, shaded) <=
              SunMinutes(ps[..k2], x, y, z, step, sunVector, shaded)
  {
    if k1 < k2 {
      SunMinutesMonotone(ps, k1, k2 - 1, x, y, z, step, sunVector, shaded);
      assert ps[..k2][..k2 - 1] == ps[..k2 - 1];
    }
  }

  /** A cell that no position with the sun up shades collects one step per
      such position. */
  lemma {:induction false} NeverShadedFullSun(ps: seq<SunPosition>, x: real, y: real, z: real, step: int,
                                              sunVector: SunPosition -> Geometry.Vec3, shaded: ShadeTest)
    requires forall i :: 0 <= i < |ps| && Daylight(ps[i]) ==> !shaded(x, y, z, sunVector(ps[i]))
    ensures SunMinutes(ps, x, y, z, step, sunVector, shaded) == step * DaylightCount(ps)
  {
    if ps != [] {
      var init := ps[..|ps| - 1];
      assert forall i :: 0 <= i < |init| ==> init[i] == ps[i];
      NeverShadedFullSun(init, x, y, z, step, sunVector, shaded);
      assert step * (DaylightCount(init) + 1) == step * DaylightCount(init) + step;
    }
  }

  /** A cell that every position with the sun up shades collects nothing. */
  lemma {:induction false} AlwaysShadedNoSun(ps: seq<SunPosition>, x: real, y: real, z: real, step: int,
                                             sunVector: SunPosition -> Geometry.Vec3, shaded: ShadeTest)
    requires forall i :: 0 <= i < |ps| && Daylight(ps[i]) ==> shaded(x, y, z, sunVector(ps[i]))
    ensures SunMinutes(ps, x, y, z, step, sunVector, shaded) == 0
  {
    if ps != [] {
      var init := ps[..|ps| - 1];
      assert forall i :: 0 <= i < |init| ==> init[i] == ps[i];
      AlwaysShadedNoSun(init, x, y, z, step, sunVector, shaded);
    }
  }

  /** In a scene without occluders, every cell collects one step per position
      with the sun up, as long as the sun vector then points upward. */
  lemma EmptySceneFullSun(ps: seq<SunPosition>, x: real, y: real, z: real, step: int,
                          sunVector: SunPosition -> Geometry.Vec3,
                          g: Geometry.InternalGeometry, sense: Geometry.Sense)
    requires g.objects == []
    requires forall i :: 0 <= i < |ps| && Daylight(ps[i]) ==> sunVector(ps[i]).dz > 0.0
    ensures SunMinutes(ps, x, y, z, step, sunVector, EngineTest(g, sense)) == step * DaylightCount(ps)
  {
    NeverShadedFullSun(ps, x, y, z, step, sunVector, EngineTest(g, sense));
  }

  /** A cell inside the footprint of an occluder at least as tall as the
      evaluation height collects nothing, whatever the sun does. */
  lemma UnderTallOccluderNoSun(ps: seq<SunPosition>, x: real, y: real, z: real, step: int,
                               sunVector: SunPosition -> Geometry.Vec3,
                               g: Geometry.InternalGeometry, sense: Geometry.Sense, k: nat)
    requires k < |g.objects|
    requires g.objects[k].footprint.contains(Shapes.Point(x, y)) && g.objects[k].heightFt >= z
    ensures SunMinutes(ps, x, y, z, step, sunVector, EngineTest(g, sense)) == 0
  {
    forall i | 0 <= i < |ps| && Daylight(ps[i])
      ensures EngineTest(g, sense)(x, y, z, sunVector(ps[i]))
    {
      Geometry.TallOccluderShades(x, y, z, sunVector(ps[i]), g, sense, k);
    }
    AlwaysShadedNoSun(ps, x, y, z, step, sunVector, EngineTest(g, sense));
  }

}
