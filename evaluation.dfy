/**
 * The outcome rule shared by the four submit evaluators of the game store:
 * success, near miss, and the running best error of the level.
 *
 * The evaluators decide on magnitudes that come from the platform square
 * root. `ClassifyBySquares` shows that, whenever those magnitudes are true
 * roots, the same verdicts follow from squared lengths alone.
 */
module Evaluation {
  import opened Wrappers
  import opened VectorMath

  /** The module-specific flag a result carries (absent for the abstract evaluator). */
  datatype ModuleFlag =
    | NoFlag
    | BatteryDepleted(depleted: bool)
    | BudgetExceeded(exceeded: bool)
    | JointLimitViolation(violated: bool)

  datatype SubmitResult = SubmitResult(
    success: bool,
    errorVector: Vector3,
    magnitudeError: real,
    isNearMiss: bool,
    flag: ModuleFlag)

  datatype Verdict = Verdict(success: bool, isNearMiss: bool)

  /**
   * The improvement test over a finite prior best `b`: `(b - e) / b >= 0.35`.
   * With `b = 0` the source divides by zero and gets NaN or minus infinity,
   * and the comparison is false.
   */
  predicate ImprovedEnough(best: Option<real>, e: real) {
    best.Some? && best.value != 0.0 && (best.value - e) / best.value >= 0.35
  }

  /**
   * The verdict on an error magnitude `e`. Success needs `e` within the
   * tolerance and no module violation; a near miss is only reported for a
   * failure without violation that is within 1.5 tolerances or improves
   * enough on the best error so far.
   */
  function Classify(e: real, tolerance: real, violation: bool, best: Option<real>): (v: Verdict)
    ensures v.success <==> e <= tolerance && !violation
    ensures v.isNearMiss ==> !v.success && !violation
    ensures !v.success && !violation ==>
              (v.isNearMiss <==> e <= tolerance * 1.5 || ImprovedEnough(best, e))
  {
    var success := e <= tolerance && !violation;
    var nearMiss :=
      if !success && !violation then
        var improvement := if best.Some? && best.value != 0.0 then (best.value - e) / best.value else 0.0;
        improvement >= 0.35 || e <= tolerance * 1.5
      else false;
    Verdict(success, nearMiss)
  }

  /**
   * An independent statement of the same rule on squared magnitudes: `s` is
   * the squared error and `bestSq` the squared prior best. No square root and
   * no division appear.
   */
  function ClassifySquared(s: real, tolerance: real, violation: bool, bestSq: Option<real>): Verdict {
    var success := s <= tolerance * tolerance && !violation;
    var improved := bestSq.Some? && bestSq.value > 0.0 && s <= 0.4225 * bestSq.value;
    Verdict(success, !success && !violation && (s <= 2.25 * (tolerance * tolerance) || improved))
  }

  function Squared(best: Option<real>): Option<real> {
    match best
    case None => None
    case Some(b) => Some(b * b)
  }

  /** For `b > 0` and `e >= 0`: an improvement ratio of at least 0.35 means `e <= 0.65 b`. */
  lemma ImprovementByRatio(b: real, e: real)
    requires b > 0.0 && e >= 0.0
    ensures (b - e) / b >= 0.35 <==> e <= 0.65 * b
  {
    var q := (b - e) / b;
    assert q * b == b - e;
    if q >= 0.35 {
      assert (q - 0.35) * b >= 0.0 by { ProductNonNegative(q - 0.35, b); }
    } else {
      assert (0.35 - q) * b > 0.0 by { ProductPositive(0.35 - q, b); }
    }
  }

  lemma ProductNonNegative(a: real, d: real)
    requires a >= 0.0 && d >= 0.0
    ensures a * d >= 0.0
  {
  }

  /**
   * When the error and the prior best are true square roots of `s` and of the
   * best's square, and the tolerance is not negative, classifying magnitudes
   * and classifying squared magnitudes agree.
   */
  lemma ClassifyBySquares(e: real, s: real, tolerance: real, violation: bool, best: Option<real>)
    requires IsRootOf(e, s) && tolerance >= 0.0
    requires best.Some? ==> best.value >= 0.0
    ensures Classify(e, tolerance, violation, best) == ClassifySquared(s, tolerance, violation, Squared(best))
  {
    RootWithin(e, s, tolerance);
    RootWithin(e, s, 1.5 * tolerance);
    assert (1.5 * tolerance) * (1.5 * tolerance) == 2.25 * (tolerance * tolerance);
    assert e <= tolerance * 1.5 <==> s <= 2.25 * (tolerance * tolerance);
    if best.Some? {
      var b := best.value;
      if b != 0.0 {
        ImprovementByRatio(b, e);
        RootWithin(e, s, 0.65 * b);
        assert (0.65 * b) * (0.65 * b) == 0.4225 * (b * b);
        ProductPositive(b, b);
      } else {
        assert b * b == 0.0;
      }
    }
  }

  /** `Math.min(bestErrorThisLevel, e)`, with no prior best standing for infinity. */
  function BestAfter(best: Option<real>, e: real): (r: real)
    ensures r <= e
    ensures best.Some? ==> r <= best.value
    ensures r == e || (best.Some? && r == best.value)
  {
    match best
    case None => e
    case Some(b) => if b < e then b else e
  }

  /** With no prior best a failure is a near miss exactly when it is within 1.5 tolerances. */
  lemma FirstAttemptNearMiss(e: real, tolerance: real, violation: bool)
    ensures Classify(e, tolerance, violation, None).isNearMiss <==>
              tolerance < e <= tolerance * 1.5 && !violation
  {
  }

  /** The near-miss boundary: tolerance 0.5, no prior best, error 0.74 is a near miss, not a success. */
  lemma NearMissBoundaryExample()
    ensures Classify(0.74, 0.5, false, None) == Verdict(false, true)
    ensures Classify(0.76, 0.5, false, None) == Verdict(false, false)
  {
  }

  /** A violation turns any error into a plain failure. */
  lemma ViolationIsPlainFailure(e: real, tolerance: real, best: Option<real>)
    ensures Classify(e, tolerance, true, best) == Verdict(false, false)
  {
  }
}
