/**
 * The per-frame gesture state machine (`detectAdvancedGestures` in
 * src/hooks/usePoseDetection.ts): hand-raise flags and counters for each
 * side, a thumbs-up arm-direction test and a wave detector over the recent
 * right-wrist positions.
 */
module Gestures {
  import opened Wrappers
  import opened PoseTypes

  const LeftWrist := "leftWrist"
  const RightWrist := "rightWrist"
  const LeftShoulder := "leftShoulder"
  const RightShoulder := "rightShoulder"
  const RightElbow := "rightElbow"

  /** A keypoint takes part in hand-raise detection only above this score. */
  const RaiseScoreThreshold: real := 0.3
  /** A hand counts as raised when the wrist is this many pixels above the shoulder. */
  const RaiseMargin: real := 50.0
  /** tan(0.5): the thumbs-up arm must point within 0.5 rad of the horizontal. */
  const TanHalf: real := 0.5463024898437905
  /** The wave detector looks at this many of the most recent poses ... */
  const WaveWindow: nat := 10
  /** ... and fires when the right wrist's x positions vary by more than this (pixels squared). */
  const WaveThreshold: real := 1000.0

  /**
   * How a raised hand is counted. `RisingEdge` is the rule of the source:
   * the counter grows only on the frame where the hand goes up. `WhileHeld`
   * grows it on every frame the hand stays up, which is what the
   * five-step progress ring and the navigation threshold of 5 expect.
   */
  datatype CounterRule = RisingEdge | WhileHeld

  datatype GestureState = GestureState(
    leftHandUp: bool,
    rightHandUp: bool,
    leftCounter: nat,
    rightCounter: nat,
    thumbsUp: bool,
    peace: bool,
    wave: bool)

  /** The state before any frame was seen. */
  const Initial := GestureState(false, false, 0, 0, false, false, false)

  /** One side's hand-raise flag and counter. */
  datatype Hand = Hand(up: bool, counter: nat)

  /** A keypoint that was found with a score above 0.3. */
  predicate Trusted(k: Option<Keypoint>) {
    k.Some? && k.value.score > RaiseScoreThreshold
  }

  /** The wrist is more than 50 pixels above the shoulder (y grows downwards). */
  predicate Raised(wrist: Keypoint, shoulder: Keypoint) {
    wrist.position.y < shoulder.position.y - RaiseMargin
  }

  /**
   * One side's hand-raise step. With the wrist and the shoulder both trusted
   * the flag becomes `Raised`; a lowered hand resets the counter, a raised
   * one counts as the rule says. Otherwise nothing about the side changes.
   */
  function RaiseStep(rule: CounterRule, prev: Hand, wrist: Option<Keypoint>, shoulder: Option<Keypoint>): (r: Hand)
    ensures !(Trusted(wrist) && Trusted(shoulder)) ==> r == prev
    ensures Trusted(wrist) && Trusted(shoulder) ==> r.up == Raised(wrist.value, shoulder.value)
    ensures Trusted(wrist) && Trusted(shoulder) && !r.up ==> r.counter == 0
    ensures Trusted(wrist) && Trusted(shoulder) && r.up && rule == RisingEdge ==>
              r.counter == if prev.up then prev.counter else prev.counter + 1
    ensures Trusted(wrist) && Trusted(shoulder) && r.up && rule == WhileHeld ==> r.counter == prev.counter + 1
  {
    if Trusted(wrist) && Trusted(shoulder) then
      var up := Raised(wrist.value, shoulder.value);
      var counter :=
        if !up then 0
        else if rule == WhileHeld || !prev.up then prev.counter + 1
        else prev.counter;
      Hand(up, counter)
    else prev
  }

  /** The counter is 1 while the hand is up and 0 while it is down. */
  predicate CounterTracksFlag(h: Hand) {
    h.counter == if h.up then 1 else 0
  }

  /**
   * Under the rising-edge rule a counter that starts by tracking its flag
   * keeps doing so: it can never exceed 1.
   */
  lemma RisingEdgeKeepsTracking(prev: Hand, wrist: Option<Keypoint>, shoulder: Option<Keypoint>)
    requires CounterTracksFlag(prev)
    ensures CounterTracksFlag(RaiseStep(RisingEdge, prev, wrist, shoulder))
    ensures RaiseStep(RisingEdge, prev, wrist, shoulder).counter <= 1
  {
  }

  /**
   * The arm from elbow to wrist points upwards and within 0.5 rad of the
   * rightward horizontal. For dy < 0 this is `|atan2(dy, dx)| < 0.5`: the
   * angle lies in (-pi, 0), and it is above -0.5 exactly when dx > 0 and
   * -dy / dx < tan(0.5).
   */
  predicate ThumbsUpDirection(wrist: Position, elbow: Position) {
    var dx, dy := wrist.x - elbow.x, wrist.y - elbow.y;
    dy < 0.0 && dx > 0.0 && -dy < dx * TanHalf
  }

  /**
   * The thumbs-up flag: recomputed when the right wrist, elbow and shoulder
   * were all found (whatever their scores), kept otherwise.
   */
  function ThumbsUp(prev: bool, wrist: Option<Keypoint>, elbow: Option<Keypoint>, shoulder: Option<Keypoint>): (r: bool)
    ensures !(wrist.Some? && elbow.Some? && shoulder.Some?) ==> r == prev
    ensures wrist.Some? && elbow.Some? && shoulder.Some? ==>
              (r <==> ThumbsUpDirection(wrist.value.position, elbow.value.position))
    ensures wrist.Some? && elbow.Some? && shoulder.Some? && r ==> wrist.value.position.y < elbow.value.position.y
  {
    if wrist.Some? && elbow.Some? && shoulder.Some? then
      ThumbsUpDirection(wrist.value.position, elbow.value.position)
    else prev
  }

  function Sum(xs: seq<real>): real {
    if xs == [] then 0.0 else Sum(xs[..|xs| - 1]) + xs[|xs| - 1]
  }

  function Mean(xs: seq<real>): real
    requires xs != []
  {
    Sum(xs) / (|xs| as real)
  }

  /** The sum of the squared distances of the values from `m`. */
  function SquaredDeviations(xs: seq<real>, m: real): (r: real)
    ensures r >= 0.0
  {
    if xs == [] then 0.0
    else
      var d := xs[|xs| - 1] - m;
      assert d * d >= 0.0;
      SquaredDeviations(xs[..|xs| - 1], m) + d * d
  }

  /** The population variance: mean squared deviation from the mean. */
  function PopulationVariance(xs: seq<real>): (r: real)
    requires xs != []
    ensures r >= 0.0
  {
    SquaredDeviations(xs, Mean(xs)) / (|xs| as real)
  }

  /** The right wrist's x position, 0 when it was not found. */
  function RightWristX(p: Pose): real {
    match Part(p, RightWrist)
    case Some(k) => k.position.x
    case None => 0.0
  }

  function WristXs(poses: seq<Pose>): (r: seq<real>)
    ensures |r| == |poses|
    ensures forall i :: 0 <= i < |poses| ==> r[i] == RightWristX(poses[i])
  {
    seq(|poses|, i requires 0 <= i < |poses| => RightWristX(poses[i]))
  }

  /**
   * The wave flag: recomputed only once the history holds more than 10
   * poses, from the variance of the right wrist's x over the last 10; kept
   * otherwise.
   */
  function Wave(prev: bool, history: seq<Pose>): (r: bool)
    ensures |history| <= WaveWindow ==> r == prev
    ensures |history| > WaveWindow ==>
              (r <==> PopulationVariance(WristXs(history[|history| - WaveWindow..])) > WaveThreshold)
  {
    if |history| > WaveWindow then
      PopulationVariance(WristXs(history[|history| - WaveWindow..])) > WaveThreshold
    else prev
  }

  lemma {:induction false} SumOfConstant(xs: seq<real>, c: real)
    requires forall i :: 0 <= i < |xs| ==> xs[i] == c
    ensures Sum(xs) == (|xs| as real) * c
  {
    if xs != [] {
      SumOfConstant(xs[..|xs| - 1], c);
    }
  }

  lemma {:induction false} DeviationsFromOwnValue(xs: seq<real>, c: real)
    requires forall i :: 0 <= i < |xs| ==> xs[i] == c
    ensures SquaredDeviations(xs, c) == 0.0
  {
    if xs != [] {
      DeviationsFromOwnValue(xs[..|xs| - 1], c);
    }
  }

  /** Values that are all equal have variance 0. */
  lemma VarianceOfConstant(xs: seq<real>, c: real)
    requires xs != []
    requires forall i :: 0 <= i < |xs| ==> xs[i] == c
    ensures PopulationVariance(xs) == 0.0
  {
    SumOfConstant(xs, c);
    assert Mean(xs) == c;
    DeviationsFromOwnValue(xs, c);
  }

  /** A right wrist that stayed put over the last 10 poses is not waving. */
  lemma StillWristDoesNotWave(prev: bool, history: seq<Pose>, x: real)
    requires |history| > WaveWindow
    requires forall i :: |history| - WaveWindow <= i < |history| ==> RightWristX(history[i]) == x
    ensures !Wave(prev, history)
  {
    var recent := WristXs(history[|history| - WaveWindow..]);
    forall i | 0 <= i < |recent| ensures recent[i] == x {
      assert history[|history| - WaveWindow..][i] == history[|history| - WaveWindow + i];
    }
    VarianceOfConstant(recent, x);
  }

  /** Ten x positions alternating between 0 and 200 have variance 10000. */
  lemma AlternatingVariance()
    ensures PopulationVariance([0.0, 200.0, 0.0, 200.0, 0.0, 200.0, 0.0, 200.0, 0.0, 200.0]) == 10000.0
  {
    var xs := [0.0, 200.0, 0.0, 200.0, 0.0, 200.0, 0.0, 200.0, 0.0, 200.0];
    assert Sum(xs[..1]) == 0.0;
    assert SquaredDeviations(xs[..1], 100.0) == 10000.0;
    assert xs[..2][..1] == xs[..1];
    assert Sum(xs[..2]) == 200.0;
    assert SquaredDeviations(xs[..2], 100.0) == 20000.0;
    assert xs[..3][..2] == xs[..2];
    assert Sum(xs[..3]) == 200.0;
    assert SquaredDeviations(xs[..3], 100.0) == 30000.0;
    assert xs[..4][..3] == xs[..3];
    assert Sum(xs[..4]) == 400.0;
    assert SquaredDeviations(xs[..4], 100.0) == 40000.0;
    assert xs[..5][..4] == xs[..4];
    assert Sum(xs[..5]) == 400.0;
    assert SquaredDeviations(xs[..5], 100.0) == 50000.0;
    assert xs[..6][..5] == xs[..5];
    assert Sum(xs[..6]) == 600.0;
    assert SquaredDeviations(xs[..6], 100.0) == 60000.0;
    assert xs[..7][..6] == xs[..6];
    assert Sum(xs[..7]) == 600.0;
    assert SquaredDeviations(xs[..7], 100.0) == 70000.0;
    assert xs[..8][..7] == xs[..7];
    assert Sum(xs[..8]) == 800.0;
    assert SquaredDeviations(xs[..8], 100.0) == 80000.0;
    assert xs[..9][..8] == xs[..8];
    assert Sum(xs[..9]) == 800.0;
    assert SquaredDeviations(xs[..9], 100.0) == 90000.0;
    assert xs[..10][..9] == xs[..9];
    assert Sum(xs[..10]) == 1000.0;
    assert SquaredDeviations(xs[..10], 100.0) == 100000.0;
    assert xs[..10] == xs;
    assert Mean(xs) == 100.0;
  }

  /**
   * A right wrist swinging between x = 0 and x = 200 over the last 10 poses
   * waves: the variance of its positions, 10000, is far above the threshold.
   */
  lemma SwingingWristWaves(prev: bool, history: seq<Pose>)
    requires |history| > WaveWindow
    requires forall i :: 0 <= i < WaveWindow ==>
               RightWristX(history[|history| - WaveWindow + i]) == if i % 2 == 0 then 0.0 else 200.0
    ensures Wave(prev, history)
  {
    var recent := WristXs(history[|history| - WaveWindow..]);
    assert recent == [0.0, 200.0, 0.0, 200.0, 0.0, 200.0, 0.0, 200.0, 0.0, 200.0] by {
      forall i | 0 <= i < WaveWindow
        ensures recent[i] == if i % 2 == 0 then 0.0 else 200.0
      {
        assert history[|history| - WaveWindow..][i] == history[|history| - WaveWindow + i];
      }
    }
    AlternatingVariance();
  }

  /**
   * `detectAdvancedGestures`: both hand-raise steps, the thumbs-up and the
   * wave flags; `peace` is never touched. `history` already ends with `pose`.
   */
  function DetectGestures(rule: CounterRule, prev: GestureState, pose: Pose, history: seq<Pose>): (r: GestureState)
    ensures Hand(r.leftHandUp, r.leftCounter) ==
              RaiseStep(rule, Hand(prev.leftHandUp, prev.leftCounter), Part(pose, LeftWrist), Part(pose, LeftShoulder))
    ensures Hand(r.rightHandUp, r.rightCounter) ==
              RaiseStep(rule, Hand(prev.rightHandUp, prev.rightCounter), Part(pose, RightWrist), Part(pose, RightShoulder))
    ensures r.thumbsUp == ThumbsUp(prev.thumbsUp, Part(pose, RightWrist), Part(pose, RightElbow), Part(pose, RightShoulder))
    ensures r.wave == Wave(prev.wave, history)
    ensures r.peace == prev.peace
  {
    var left := RaiseStep(rule, Hand(prev.leftHandUp, prev.leftCounter), Part(pose, LeftWrist), Part(pose, LeftShoulder));
    var right := RaiseStep(rule, Hand(prev.rightHandUp, prev.rightCounter), Part(pose, RightWrist), Part(pose, RightShoulder));
    prev.(
      leftHandUp := left.up, leftCounter := left.counter,
      rightHandUp := right.up, rightCounter := right.counter,
      thumbsUp := ThumbsUp(prev.thumbsUp, Part(pose, RightWrist), Part(pose, RightElbow), Part(pose, RightShoulder)),
      wave := Wave(prev.wave, history))
  }

  /** Both counters track their flags. */
  predicate CountersTrackFlags(g: GestureState) {
    CounterTracksFlag(Hand(g.leftHandUp, g.leftCounter)) && CounterTracksFlag(Hand(g.rightHandUp, g.rightCounter))
  }

  /** Under the rising-edge rule, a step keeps both counters tracking their flags. */
  lemma DetectKeepsTracking(prev: GestureState, pose: Pose, history: seq<Pose>)
    requires CountersTrackFlags(prev)
    ensures CountersTrackFlags(DetectGestures(RisingEdge, prev, pose, history))
  {
    RisingEdgeKeepsTracking(Hand(prev.leftHandUp, prev.leftCounter), Part(pose, LeftWrist), Part(pose, LeftShoulder));
    RisingEdgeKeepsTracking(Hand(prev.rightHandUp, prev.rightCounter), Part(pose, RightWrist), Part(pose, RightShoulder));
  }
}
