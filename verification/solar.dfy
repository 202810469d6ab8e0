/** The time series of a simulation window and the sun positions the
    external solar-position provider reports for it. Timestamps are
    wall-clock minutes in the scene's time zone. */
module Solar {
  import opened Wrappers

  /** Altitude above the horizon and azimuth clockwise from north, in degrees. */
  datatype SunPosition = SunPosition(altDeg: real, azDeg: real)

  datatype SolarError = NonPositiveStep | StartAfterEnd

  /** The timestamps from `start` to `end` inclusive, `stepMinutes` apart. */
  method GenerateTimes(start: int, end: int, stepMinutes: int) returns (r: Result<seq<int>, SolarError>)
    ensures stepMinutes <= 0 ==> r == Err(NonPositiveStep)
    ensures stepMinutes > 0 && start > end ==> r == Err(StartAfterEnd)
    ensures stepMinutes > 0 && start <= end ==> r.Ok?
    ensures r.Ok? ==>
              var ts := r.value;
              && |ts| == (end - start) / stepMinutes + 1
              && ts[0] == start
              && (forall i :: 0 <= i < |ts| ==> ts[i] == start + i * stepMinutes)
              && (forall i :: 0 <= i < |ts| - 1 ==> ts[i + 1] == ts[i] + stepMinutes)
              && (forall i, j :: 0 <= i < j < |ts| ==> ts[i] < ts[j])
              && (forall i :: 0 <= i < |ts| ==> ts[i] <= end)
              && ts[|ts| - 1] + stepMinutes > end
  {
    if stepMinutes <= 0 {
      return Err(NonPositiveStep);
    }
    if start > end {
      return Err(StartAfterEnd);
    }
    var times: seq<int> := [];
    var current := start;
    while current <= end
      invariant |times| == 0 ==> current == start
      invariant |times| > 0 ==> times[0] == start && current == times[|times| - 1] + stepMinutes
      invariant forall i :: 0 <= i < |times| - 1 ==> times[i + 1] == times[i] + stepMinutes
      invariant forall i :: 0 <= i < |times| ==> times[i] <= end
      decreases end - current
    {
      times := times + [current];
      current := current + stepMinutes;
    }
    Arithmetic(times, start, stepMinutes);
    var q := |times| - 1;
    assert (q + 1) * stepMinutes == q * stepMinutes + stepMinutes;
    CountSteps(end - start, stepMinutes, q);
    forall i, j | 0 <= i < j < |times|
      ensures times[i] < times[j]
    {
      MulLess(i, j, stepMinutes);
    }
    return Ok(times);
  }

  /** A sequence that starts at `start` and grows by `step` each time has
      `start + i * step` at index `i`. */
  lemma {:induction false} Arithmetic(ts: seq<int>, start: int, step: int)
    requires |ts| > 0 && ts[0] == start
    requires forall i :: 0 <= i < |ts| - 1 ==> ts[i + 1] == ts[i] + step
    ensures forall i :: 0 <= i < |ts| ==> ts[i] == start + i * step
  {
    if |ts| > 1 {
      var init := ts[..|ts| - 1];
      Arithmetic(init, start, step);
      var n := |ts| - 1;
      assert ts[n] == ts[n - 1] + step;
      assert (n - 1) * step + step == n * step;
    }
  }

  /** `q` steps fit into `span` and one more does not: `q` is `span / step`. */
  lemma CountSteps(span: int, step: int, q: int)
    requires step > 0 && q >= 0
    requires q * step <= span < (q + 1) * step
    ensures span / step == q
  {
    var d := span / step;
    var m := span % step;
    assert span == d * step + m;
    assert (q + 1) * step == q * step + step;
    assert (d + 1) * step == d * step + step;
    MulLess(d, q + 1, step);
    MulLess(q, d + 1, step);
  }

  lemma MulMono(a: int, b: int, step: int)
    requires a <= b && step > 0
    ensures a * step <= b * step
  {
    assert b * step - a * step == (b - a) * step;
  }

  /** Multiplying by a positive step preserves strict order, read backwards. */
  lemma MulLess(a: int, b: int, step: int)
    requires step > 0
    ensures a * step < b * step <==> a < b
  {
    if b <= a {
      MulMono(b, a, step);
    } else {
      assert b * step - a * step == (b - a) * step;
    }
  }

}
