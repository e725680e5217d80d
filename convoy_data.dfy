/**
 Records read from the three per-recording tables of a highD-style recording,
 the thresholds fixed at the top of the extraction script, and small helpers
 shared by the extraction modules.
 */
module ConvoyData {

  /** minimum_time_window_threshold, in seconds. */
  const MinimumTimeWindowSeconds: int := 10
  /** maximum_convoy_distance_headway_threshold. */
  const MaximumConvoyHeadway: real := 10.0
  /** minimum_clearance_distance_headway_threshold. */
  const MinimumClearanceHeadway: real := 20.0
  /** velocity_proportional_diff_threshold. */
  const VelocityProportionalDiff: real := 0.2

  datatype Option<T> = None | Some(value: T)

  /** One row of the per-agent summary table (tracksMeta). */
  datatype TrackMeta = TrackMeta(
    id: int,
    initialFrame: int,
    finalFrame: int,
    numLaneChanges: int,
    numFrames: int,
    minXVelocity: real,
    maxXVelocity: real,
    minDHW: real)

  /** One row of the frame table (tracks): one sample of one agent. */
  datatype Frame = Frame(
    id: int,
    frame: int,
    laneId: int,
    followingId: int,
    x: real,
    y: real,
    xVelocity: real,
    xAcceleration: real)

  /**
   A frame window [start, end] is long enough when it spans at least the
   minimum time window; with a positive frame rate this is the integer form
   of `(end - start) / frameRate >= 10.0`.
   */
  predicate LongEnough(start: int, end: int, frameRate: int)
  {
    end - start >= MinimumTimeWindowSeconds * frameRate
  }

  /** The integer form of the window test agrees with the script's division. */
  lemma LongEnoughInSeconds(start: int, end: int, frameRate: int)
    requires frameRate > 0
    ensures LongEnough(start, end, frameRate)
            <==> (end - start) as real / frameRate as real >= MinimumTimeWindowSeconds as real
  {
    var d, f := (end - start) as real, frameRate as real;
    assert d / f * f == d;
    if d / f >= MinimumTimeWindowSeconds as real {
      assert d / f * f >= MinimumTimeWindowSeconds as real * f;
    } else {
      assert d / f * f < MinimumTimeWindowSeconds as real * f;
    }
  }

  /** A positive frame rate makes every long-enough window non-empty. */
  lemma LongEnoughIsProper(start: int, end: int, frameRate: int)
    requires frameRate > 0 && LongEnough(start, end, frameRate)
    ensures start < end
  {
  }

  predicate Distinct<T(==)>(s: seq<T>)
  {
    forall i, j :: 0 <= i < j < |s| ==> s[i] != s[j]
  }

  function Elements<T>(s: seq<T>): set<T>
  {
    set x | x in s
  }

  function Max(a: int, b: int): int
  {
    if a >= b then a else b
  }

  function Min(a: int, b: int): int
  {
    if a <= b then a else b
  }
}
