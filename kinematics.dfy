/**
 * Per-module derived quantities of the game store: joint clamping and the
 * planar forward kinematics of the robot arm (`updateJointAngle`), the
 * joint-limit scan of the robotics evaluator, and the wind sample of
 * `simulateWind`.
 *
 * Cosine and sine are the platform's trigonometric functions, which are not
 * visible here; they are passed in and nothing is assumed about them.
 */
module Kinematics {
  import opened VectorMath
  import opened Levels

  /** `Math.max(lo, Math.min(hi, angle))`. */
  function Clamp(angle: real, lo: real, hi: real): (r: real)
    ensures lo <= hi ==> lo <= r <= hi
    ensures lo <= angle <= hi ==> r == angle
    ensures angle < lo ==> r == lo
    ensures lo <= hi && hi < angle ==> r == hi
  {
    var capped := if hi < angle then hi else angle;
    if lo < capped then capped else lo
  }

  /** Clamping twice is clamping once. */
  lemma ClampIdempotent(angle: real, lo: real, hi: real)
    requires lo <= hi
    ensures Clamp(Clamp(angle, lo, hi), lo, hi) == Clamp(angle, lo, hi)
  {
  }

  /** Position and heading of the arm after its first `k` segments. */
  datatype Pose = Pose(x: real, y: real, heading: real)

  /**
   * The arm after `k` segments: each joint turns the heading by its angle and
   * the segment then extends `length` along the new heading.
   */
  function Reach(cos: real -> real, sin: real -> real, joints: seq<Joint>, angles: seq<real>, k: nat): Pose
    requires k <= |joints| && k <= |angles|
  {
    if k == 0 then Pose(0.0, 0.0, 0.0)
    else
      var p := Reach(cos, sin, joints, angles, k - 1);
      var h := p.heading + angles[k - 1];
      Pose(p.x + joints[k - 1].length * cos(h), p.y + joints[k - 1].length * sin(h), h)
  }

  /** The end effector of the whole arm; the arm is planar, so `z` is 0. */
  function EndEffector(cos: real -> real, sin: real -> real, joints: seq<Joint>, angles: seq<real>): Vector3
    requires |joints| <= |angles|
  {
    var p := Reach(cos, sin, joints, angles, |joints|);
    Vector3(p.x, p.y, 0.0)
  }

  /** The sum of the first `k` angles. */
  function AngleSum(angles: seq<real>, k: nat): real
    requires k <= |angles|
  {
    if k == 0 then 0.0 else AngleSum(angles, k - 1) + angles[k - 1]
  }

  /** The heading after `k` segments is the sum of the first `k` joint angles. */
  lemma {:induction false} ReachHeading(cos: real -> real, sin: real -> real, joints: seq<Joint>, angles: seq<real>, k: nat)
    requires k <= |joints| && k <= |angles|
    ensures Reach(cos, sin, joints, angles, k).heading == AngleSum(angles, k)
  {
    if k > 0 {
      ReachHeading(cos, sin, joints, angles, k - 1);
    }
  }

  /** Changing a joint angle leaves the part of the arm before that joint where it was. */
  lemma {:induction false} ReachPrefixUnchanged(cos: real -> real, sin: real -> real, joints: seq<Joint>,
                                                 angles: seq<real>, angles': seq<real>, k: nat)
    requires k <= |joints| && k <= |angles| && k <= |angles'|
    requires angles[..k] == angles'[..k]
    ensures Reach(cos, sin, joints, angles, k) == Reach(cos, sin, joints, angles', k)
  {
    if k > 0 {
      assert angles[..k - 1] == angles[..k][..k - 1] && angles'[..k - 1] == angles'[..k][..k - 1];
      assert angles[k - 1] == angles[..k][k - 1] && angles'[k - 1] == angles'[..k][k - 1];
      ReachPrefixUnchanged(cos, sin, joints, angles, angles', k - 1);
    }
  }

  /** The accumulating loop of `updateJointAngle` over `x`, `y` and `cumulativeAngle`. */
  method ForwardKinematics(cos: real -> real, sin: real -> real, joints: seq<Joint>, angles: seq<real>)
    returns (p: Vector3)
    requires |joints| <= |angles|
    ensures p == EndEffector(cos, sin, joints, angles)
    ensures p.z == 0.0
  {
    var x, y := 0.0, 0.0;
    var cumulativeAngle := 0.0;
    for i := 0 to |joints|
      invariant Pose(x, y, cumulativeAngle) == Reach(cos, sin, joints, angles, i)
    {
      cumulativeAngle := cumulativeAngle + angles[i];
      x := x + joints[i].length * cos(cumulativeAngle);
      y := y + joints[i].length * sin(cumulativeAngle);
    }
    p := Vector3(x, y, 0.0);
  }

  /**
   * Joint `i` is outside its limits. An angle missing from the list reads as
   * `undefined` in the source, and both comparisons with it are false.
   */
  predicate OutOfLimits(joints: seq<Joint>, angles: seq<real>, i: int)
    requires 0 <= i < |joints|
  {
    i < |angles| && (angles[i] < joints[i].minAngle || angles[i] > joints[i].maxAngle)
  }

  /** Some joint is outside its limits. */
  predicate JointViolation(joints: seq<Joint>, angles: seq<real>) {
    exists i :: 0 <= i < |joints| && OutOfLimits(joints, angles, i)
  }

  /** The joint-limit scan of the robotics evaluator: stop at the first joint out of its limits. */
  method ScanJointLimits(joints: seq<Joint>, angles: seq<real>) returns (violation: bool)
    ensures violation <==> exists i :: 0 <= i < |joints| && OutOfLimits(joints, angles, i)
  {
    violation := false;
    var i := 0;
    while i < |joints|
      invariant 0 <= i <= |joints|
      invariant !violation
      invariant forall j :: 0 <= j < i ==> !OutOfLimits(joints, angles, j)
    {
      if OutOfLimits(joints, angles, i) {
        violation := true;
        break;
      }
      i := i + 1;
    }
  }

  /** Every angle lies within its joint's limits. */
  predicate WithinLimits(joints: seq<Joint>, angles: seq<real>) {
    |angles| == |joints| &&
    forall i :: 0 <= i < |joints| ==> joints[i].minAngle <= angles[i] <= joints[i].maxAngle
  }

  /** Storing a clamped angle keeps all angles within limits. */
  lemma ClampedWriteWithinLimits(joints: seq<Joint>, angles: seq<real>, i: nat, angle: real)
    requires WithinLimits(joints, angles) && i < |joints|
    requires joints[i].minAngle <= joints[i].maxAngle
    ensures WithinLimits(joints, angles[i := Clamp(angle, joints[i].minAngle, joints[i].maxAngle)])
  {
  }

  /** Angles within limits are never reported by the scan. */
  lemma WithinLimitsNoViolation(joints: seq<Joint>, angles: seq<real>)
    requires WithinLimits(joints, angles)
    ensures !JointViolation(joints, angles)
  {
  }

  /**
   * The wind of `simulateWind` at wall-clock time `nowMs`: the base wind plus
   * three sine oscillators scaled by the variance; the frequency defaults to 0.1.
   */
  function WindAt(sin: real -> real, wind: Wind, nowMs: real): Vector3 {
    var freq := wind.noiseFrequency.GetOr(0.1);
    var t := nowMs * 0.001 * freq;
    Vector3(wind.base.x + sin(t) * wind.variance,
            wind.base.y + sin(t * 1.3) * wind.variance * 0.5,
            wind.base.z + sin(t * 0.7) * wind.variance)
  }

  /** Without variance the wind is the configured base wind at every instant. */
  lemma CalmWindIsBase(sin: real -> real, wind: Wind, nowMs: real)
    requires wind.variance == 0.0
    ensures WindAt(sin, wind, nowMs) == wind.base
  {
  }

  /** Two segments of length 3 at rest reach (6, 0, 0) when cos 0 = 1 and sin 0 = 0. */
  lemma TwoSegmentsStraight(cos: real -> real, sin: real -> real, joints: seq<Joint>)
    requires cos(0.0) == 1.0 && sin(0.0) == 0.0
    requires |joints| == 2 && joints[0].length == 3.0 && joints[1].length == 3.0
    ensures EndEffector(cos, sin, joints, [0.0, 0.0]) == Vector3(6.0, 0.0, 0.0)
  {
    assert Reach(cos, sin, joints, [0.0, 0.0], 1) == Pose(3.0, 0.0, 0.0);
  }

  /** Turning the first joint by a quarter turn (cos = 0, sin = 1) points the whole arm up: (0, 6, 0). */
  lemma TwoSegmentsQuarterTurn(cos: real -> real, sin: real -> real, joints: seq<Joint>, quarter: real)
    requires cos(quarter) == 0.0 && sin(quarter) == 1.0
    requires |joints| == 2 && joints[0].length == 3.0 && joints[1].length == 3.0
    ensures EndEffector(cos, sin, joints, [quarter, 0.0]) == Vector3(0.0, 6.0, 0.0)
  {
    assert Reach(cos, sin, joints, [quarter, 0.0], 1) == Pose(0.0, 3.0, quarter);
  }
}
