/** The decision half of handleOrganPlacement: was the confirm aimed at the model,
    and was the point where the controller ray meets the target's plane close
    enough to the target's anchor. Ray casting and plane intersection are oracle
    inputs. */
module Placement {
  import opened Scene

  /** Tolerances: 0.08 in simple mode, 0.09 in every other mode. */
  const SimpleThreshold: real := 0.08
  const AdvancedThreshold: real := 0.09

  function Threshold(simple: bool): (t: real)
    ensures t > 0.0
  {
    if simple then SimpleThreshold else AdvancedThreshold
  }

  function SqDist(a: Vec3, b: Vec3): (d: real)
    ensures d >= 0.0
  {
    (a.x - b.x) * (a.x - b.x) + (a.y - b.y) * (a.y - b.y) + (a.z - b.z) * (a.z - b.z)
  }

  /** The point that is judged. `intersectPlane` leaves its target vector untouched
      when the ray misses the plane, and that vector starts at the origin, so the
      origin is judged then (the `if (intersectionPoint)` test always passes). */
  function JudgedPoint(planeHit: Option<Vec3>): Vec3 {
    planeHit.GetOr(Zero)
  }

  /** `distance < threshold`, stated on the squared distance. */
  predicate WithinThreshold(point: Vec3, anchor: Vec3, threshold: real) {
    SqDist(point, anchor) < threshold * threshold
  }

  /** For a non-negative threshold the squared test is exactly the source's strict
      test on the Euclidean distance `d`. */
  lemma WithinThresholdIffDistance(point: Vec3, anchor: Vec3, threshold: real, d: real)
    requires threshold >= 0.0 && d >= 0.0 && d * d == SqDist(point, anchor)
    ensures WithinThreshold(point, anchor, threshold) <==> d < threshold
  {
    var dd, dt, tt := d * d, d * threshold, threshold * threshold;
    if d < threshold {
      assert dd <= dt;
      assert dt < tt;
    } else {
      assert dd >= dt;
      assert dt >= tt;
    }
  }

  datatype Verdict = NotOnModel | Hit | Miss

  /** The three outcomes: a ray that misses the model is not an attempt; otherwise
      a hit is strictly closer than the mode's threshold. */
  function Judge(hitsModel: bool, planeHit: Option<Vec3>, anchor: Vec3, simple: bool): (v: Verdict)
    ensures v == NotOnModel <==> !hitsModel
    ensures v == Hit <==> hitsModel && WithinThreshold(JudgedPoint(planeHit), anchor, Threshold(simple))
  {
    if !hitsModel then NotOnModel
    else if WithinThreshold(JudgedPoint(planeHit), anchor, Threshold(simple)) then Hit
    else Miss
  }

  /** A ray that meets the plane exactly at the anchor is a hit, in either mode. */
  lemma AimAtAnchorHits(anchor: Vec3, simple: bool)
    ensures Judge(true, Some(anchor), anchor, simple) == Hit
  {
  }

  /** A plane point at distance `threshold + eps` (eps >= 0) is a miss. */
  lemma AimBeyondThresholdMisses(point: Vec3, anchor: Vec3, simple: bool, eps: real)
    requires eps >= 0.0
    requires SqDist(point, anchor) == (Threshold(simple) + eps) * (Threshold(simple) + eps)
    ensures Judge(true, Some(point), anchor, simple) == Miss
  {
    var t := Threshold(simple);
    WithinThresholdIffDistance(point, anchor, t, t + eps);
  }

  /** The grouped (simple) mode has the tighter tolerance: a simple-mode hit is
      also within the advanced-mode threshold. */
  lemma SimpleHitIsAdvancedHit(point: Vec3, anchor: Vec3)
    requires WithinThreshold(point, anchor, Threshold(true))
    ensures WithinThreshold(point, anchor, Threshold(false))
  {
  }

  /** When the ray misses the target plane, the origin is judged: a target anchored
      near the origin can still be hit that way. */
  lemma MissedPlaneJudgesOrigin(anchor: Vec3, simple: bool)
    ensures Judge(true, None, anchor, simple) == Judge(true, Some(Zero), anchor, simple)
  {
  }
}
