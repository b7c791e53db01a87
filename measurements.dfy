/**
 * Body-proportion estimation from one pose, and the advisory fit
 * classification derived from it (`calculateBodyMeasurements` and
 * `analyzeFit` in src/hooks/usePoseDetection.ts).
 */
module Measurements {
  import opened Wrappers
  import opened PoseTypes

  const LeftShoulder := "leftShoulder"
  const RightShoulder := "rightShoulder"
  const LeftHip := "leftHip"
  const RightHip := "rightHip"
  const LeftElbow := "leftElbow"
  const LeftWrist := "leftWrist"

  /** Chest width is taken as this fraction of the shoulder width. */
  const ChestFactor: real := 0.85
  /** Reference shoulder and chest widths, in pixels, that fit ratios are taken against. */
  const ReferenceShoulderWidth: real := 200.0
  const ReferenceChestWidth: real := 170.0

  const SizeUpAdvice := "Consider a larger size for better shoulder fit"
  const SizeDownAdvice := "Consider a smaller size for better fit"
  const ChestAdvice := "This shirt may be tight around the chest"

  function Abs(v: real): (r: real)
    ensures r >= 0.0 && (r == v || r == -v)
  {
    if v < 0.0 then -v else v
  }

  /** `lo` is a non-negative lower bound of the square root of `x`, `hi` an upper bound above it. */
  predicate Brackets(x: real, lo: real, hi: real) {
    0.0 <= lo <= hi && lo * lo <= x < hi * hi
  }

  /**
   * Bisection for the square root of `x`: each of `steps` rounds halves the
   * bracket [lo, hi], keeping the root inside it; the lower end is returned.
   */
  function Bisect(x: real, lo: real, hi: real, steps: nat): (r: real)
    requires Brackets(x, lo, hi)
    ensures exists h :: Brackets(x, r, h)
    decreases steps
  {
    if steps == 0 then lo
    else
      var mid := (lo + hi) / 2.0;
      if mid * mid <= x then Bisect(x, mid, hi, steps - 1) else Bisect(x, lo, mid, steps - 1)
  }

  /** [0, x + 1] brackets the square root of any non-negative `x`. */
  lemma BelowSquareOfSuccessor(x: real)
    requires x >= 0.0
    ensures Brackets(x, 0.0, x + 1.0)
  {
    assert (x + 1.0) * (x + 1.0) == x * x + 2.0 * x + 1.0;
    assert x * x >= 0.0;
  }

  /**
   * `Math.sqrt` for a non-negative argument, by 64 rounds of bisection: the
   * result is non-negative and its square does not exceed `x`.
   */
  function Sqrt(x: real): (r: real)
    requires x >= 0.0
    ensures r >= 0.0 && r * r <= x
  {
    BelowSquareOfSuccessor(x);
    var r := Bisect(x, 0.0, x + 1.0, 64);
    r
  }

  /** Euclidean distance between two positions. */
  function Distance(p: Position, q: Position): (r: real)
    ensures r >= 0.0
    ensures r * r <= (p.x - q.x) * (p.x - q.x) + (p.y - q.y) * (p.y - q.y)
  {
    var squared := (p.x - q.x) * (p.x - q.x) + (p.y - q.y) * (p.y - q.y);
    assert (p.x - q.x) * (p.x - q.x) >= 0.0 && (p.y - q.y) * (p.y - q.y) >= 0.0;
    Sqrt(squared)
  }

  /**
   * The left arm's length: upper arm plus forearm when both the elbow and the
   * wrist were found and the shoulder is trusted (score above 0.5); 0
   * otherwise.
   */
  function ArmLength(shoulder: Keypoint, elbow: Option<Keypoint>, wrist: Option<Keypoint>): (r: real)
    ensures r >= 0.0
    ensures !(elbow.Some? && wrist.Some? && shoulder.score > 0.5) ==> r == 0.0
    ensures elbow.Some? && wrist.Some? && shoulder.score > 0.5 ==>
              r == Distance(shoulder.position, elbow.value.position) + Distance(elbow.value.position, wrist.value.position)
  {
    if elbow.Some? && wrist.Some? && shoulder.score > 0.5 then
      Distance(shoulder.position, elbow.value.position) + Distance(elbow.value.position, wrist.value.position)
    else 0.0
  }

  /** The smallest of four scores (`Math.min`). */
  function Min4(a: real, b: real, c: real, d: real): (r: real)
    ensures r <= a && r <= b && r <= c && r <= d
    ensures r == a || r == b || r == c || r == d
  {
    var ab := if a <= b then a else b;
    var cd := if c <= d then c else d;
    if ab <= cd then ab else cd
  }

  /** All four anchor keypoints (both shoulders, both hips) were reported. */
  predicate HasAnchors(pose: Pose) {
    Part(pose, LeftShoulder).Some? && Part(pose, RightShoulder).Some?
    && Part(pose, LeftHip).Some? && Part(pose, RightHip).Some?
  }

  /**
   * `calculateBodyMeasurements`: nothing unless the four anchors are present;
   * otherwise widths and torso length are coordinate distances, the chest is
   * a fixed fraction of the shoulders, and the confidence is that of the
   * weakest anchor.
   */
  function CalculateBodyMeasurements(pose: Pose): (r: Option<BodyMeasurements>)
    ensures r.None? <==> !HasAnchors(pose)
    ensures r.Some? ==>
      var m := r.value;
      var ls, rs := Part(pose, LeftShoulder).value, Part(pose, RightShoulder).value;
      var lh, rh := Part(pose, LeftHip).value, Part(pose, RightHip).value;
      && m.shoulderWidth == Abs(ls.position.x - rs.position.x)
      && m.waistWidth == Abs(lh.position.x - rh.position.x)
      && m.torsoLength == Abs(ls.position.y - lh.position.y)
      && m.chestWidth == ChestFactor * m.shoulderWidth
      && m.armLength == ArmLength(ls, Part(pose, LeftElbow), Part(pose, LeftWrist))
      && m.confidence <= ls.score && m.confidence <= rs.score
      && m.confidence <= lh.score && m.confidence <= rh.score
      && (m.confidence == ls.score || m.confidence == rs.score
          || m.confidence == lh.score || m.confidence == rh.score)
    ensures r.Some? ==>
      && r.value.shoulderWidth >= 0.0 && r.value.chestWidth >= 0.0 && r.value.waistWidth >= 0.0
      && r.value.torsoLength >= 0.0 && r.value.armLength >= 0.0
  {
    var leftShoulder := Part(pose, LeftShoulder);
    var rightShoulder := Part(pose, RightShoulder);
    var leftHip := Part(pose, LeftHip);
    var rightHip := Part(pose, RightHip);
    if leftShoulder.None? || rightShoulder.None? || leftHip.None? || rightHip.None? then None
    else
      var ls, rs, lh, rh := leftShoulder.value, rightShoulder.value, leftHip.value, rightHip.value;
      var shoulderWidth := Abs(ls.position.x - rs.position.x);
      Some(BodyMeasurements(
        shoulderWidth,
        shoulderWidth * ChestFactor,
        Abs(lh.position.x - rh.position.x),
        ArmLength(ls, Part(pose, LeftElbow), Part(pose, LeftWrist)),
        Abs(ls.position.y - lh.position.y),
        Min4(ls.score, rs.score, lh.score, rh.score)))
  }

  /**
   * Only the anchors decide whether there is an estimate and how confident it
   * is: two poses that agree on the four anchors agree on both, whatever
   * their elbows and wrists.
   */
  lemma ConfidenceIgnoresArms(p: Pose, q: Pose)
    requires Part(p, LeftShoulder) == Part(q, LeftShoulder) && Part(p, RightShoulder) == Part(q, RightShoulder)
    requires Part(p, LeftHip) == Part(q, LeftHip) && Part(p, RightHip) == Part(q, RightHip)
    ensures CalculateBodyMeasurements(p).None? == CalculateBodyMeasurements(q).None?
    ensures CalculateBodyMeasurements(p).Some? ==>
              CalculateBodyMeasurements(p).value.confidence == CalculateBodyMeasurements(q).value.confidence
  {
  }

  /**
   * `analyzeFit`: the shoulder ratio against 200px decides tight (above 1.2),
   * loose (below 0.8) or perfect; a shirt whose chest ratio against 170px
   * exceeds 1.1 gets an extra chest warning. 'good' is never produced.
   */
  function AnalyzeFit(m: BodyMeasurements, clothingType: string): (r: FittingAnalysis)
    ensures m.shoulderWidth / ReferenceShoulderWidth > 1.2 ==> r.fit == Tight && r.confidence == 0.8
    ensures m.shoulderWidth / ReferenceShoulderWidth < 0.8 ==> r.fit == Loose && r.confidence == 0.8
    ensures 0.8 <= m.shoulderWidth / ReferenceShoulderWidth <= 1.2 ==> r.fit == Perfect && r.confidence == 0.95
    ensures r.fit != Good
    ensures (ChestAdvice in r.recommendations) <==> clothingType == "shirt" && m.chestWidth / ReferenceChestWidth > 1.1
    ensures (SizeUpAdvice in r.recommendations) <==> r.fit == Tight
    ensures (SizeDownAdvice in r.recommendations) <==> r.fit == Loose
    ensures |r.recommendations| <= 2
    ensures |r.recommendations| ==
              (if r.fit != Perfect then 1 else 0) + (if clothingType == "shirt" && m.chestWidth / ReferenceChestWidth > 1.1 then 1 else 0)
    ensures forall a :: a in r.recommendations ==> a in [SizeUpAdvice, SizeDownAdvice, ChestAdvice]
    ensures ChestAdvice in r.recommendations ==> r.recommendations[|r.recommendations| - 1] == ChestAdvice
    ensures r.recommendations == [] <==> r.fit == Perfect && !(clothingType == "shirt" && m.chestWidth / ReferenceChestWidth > 1.1)
  {
    var shoulderRatio := m.shoulderWidth / ReferenceShoulderWidth;
    var chestRatio := m.chestWidth / ReferenceChestWidth;
    var primary :=
      if shoulderRatio > 1.2 then FittingAnalysis(Tight, 0.8, [SizeUpAdvice])
      else if shoulderRatio < 0.8 then FittingAnalysis(Loose, 0.8, [SizeDownAdvice])
      else FittingAnalysis(Perfect, 0.95, []);
    if clothingType == "shirt" && chestRatio > 1.1 then
      primary.(recommendations := primary.recommendations + [ChestAdvice])
    else primary
  }

  /** Loose < Perfect < Tight, the order in which a growing shoulder width meets them. */
  function FitRank(f: Fit): nat {
    match f
    case Loose => 0
    case Perfect => 1
    case Good => 1
    case Tight => 2
  }

  /** A wider shoulder never gives a looser verdict. */
  lemma FitMonotone(a: BodyMeasurements, b: BodyMeasurements, ta: string, tb: string)
    requires a.shoulderWidth <= b.shoulderWidth
    ensures FitRank(AnalyzeFit(a, ta).fit) <= FitRank(AnalyzeFit(b, tb).fit)
  {
  }

  /** The boundary ratios 1.2 and 0.8 (240px and 160px) are both 'perfect'. */
  lemma FitBoundariesArePerfect(m: BodyMeasurements, clothingType: string)
    requires m.shoulderWidth == 240.0 || m.shoulderWidth == 160.0
    ensures AnalyzeFit(m, clothingType).fit == Perfect
    ensures AnalyzeFit(m, clothingType).confidence == 0.95
  {
  }
}
