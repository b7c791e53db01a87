/**
 * The per-frame update of the pose-detection hook (the body of `detect` in
 * src/hooks/usePoseDetection.ts): a frame whose pose scores above 0.3
 * becomes the current pose, joins a bounded history, may replace the stored
 * body measurements and drives the gesture state machine.
 */
module PoseSession {
  import opened Wrappers
  import opened PoseTypes
  import opened Collections
  import Measurements
  import opened Gestures

  /** Frames whose pose scores at or below this are dropped. */
  const FrameScoreThreshold: real := 0.3
  /** The history keeps at most this many poses. */
  const MaxHistory: nat := 30
  /** Stored measurements are replaced only by a result more confident than this. */
  const MeasurementConfidenceThreshold: real := 0.5

  datatype SessionState = SessionState(
    history: seq<Pose>,
    currentPose: Option<Pose>,
    measurements: Option<BodyMeasurements>,
    gestures: GestureState)

  /** The state before the first frame. */
  const Start := SessionState([], None, None, Initial)

  predicate Accepted(pose: Pose) {
    pose.score > FrameScoreThreshold
  }

  /** Push `pose`, then shift the oldest pose out if the history has grown past 30. */
  function Push(history: seq<Pose>, pose: Pose): (r: seq<Pose>)
    ensures |history| <= MaxHistory ==> |r| <= MaxHistory
    ensures r != [] && r[|r| - 1] == pose
    ensures |r| <= |history| + 1
    ensures r == (history + [pose])[|history| + 1 - |r|..]
    ensures |history| < MaxHistory ==> r == history + [pose]
    ensures |history| >= MaxHistory ==> r == history[1..] + [pose]
  {
    var pushed := history + [pose];
    if |pushed| > MaxHistory then
      assert pushed[1..] == history[1..] + [pose];
      pushed[1..]
    else pushed
  }

  /** The stored measurements after seeing `pose`. */
  function UpdateMeasurements(stored: Option<BodyMeasurements>, pose: Pose): (r: Option<BodyMeasurements>)
    ensures r != stored ==> r == Measurements.CalculateBodyMeasurements(pose) && r.Some?
    ensures r.Some? && r != stored ==> r.value.confidence > MeasurementConfidenceThreshold
    ensures (var m := Measurements.CalculateBodyMeasurements(pose);
             m.Some? && m.value.confidence > MeasurementConfidenceThreshold ==> r == m)
  {
    var m := Measurements.CalculateBodyMeasurements(pose);
    if m.Some? && m.value.confidence > MeasurementConfidenceThreshold then m else stored
  }

  /** One frame of `detect`, as a function of the previous state. */
  function Advance(rule: CounterRule, s: SessionState, pose: Pose): (r: SessionState)
    ensures !Accepted(pose) ==> r == s
    ensures Accepted(pose) ==> r.currentPose == Some(pose) && r.history == Push(s.history, pose)
    ensures Accepted(pose) ==> r.measurements == UpdateMeasurements(s.measurements, pose)
    ensures Accepted(pose) ==> r.gestures == DetectGestures(rule, s.gestures, pose, r.history)
  {
    if Accepted(pose) then
      var history := Push(s.history, pose);
      SessionState(history, Some(pose), UpdateMeasurements(s.measurements, pose),
                   DetectGestures(rule, s.gestures, pose, history))
    else s
  }

  /** The frames of `poses`, one after another. */
  function Run(rule: CounterRule, s: SessionState, poses: seq<Pose>): SessionState
  {
    if poses == [] then s else Advance(rule, Run(rule, s, poses[..|poses| - 1]), poses[|poses| - 1])
  }

  /** The last `n` elements of `s`, or all of it when it is shorter. */
  function LastN<T>(s: seq<T>, n: nat): (r: seq<T>)
    ensures |r| <= n && |r| <= |s|
    ensures r == s[|s| - |r|..]
    ensures |s| <= n ==> r == s
  {
    if |s| <= n then s else s[|s| - n..]
  }

  /** The history alone after the frames of `poses`. */
  ghost function HistoryAfter(history: seq<Pose>, poses: seq<Pose>): seq<Pose>
  {
    if poses == [] then history
    else
      var before := HistoryAfter(history, poses[..|poses| - 1]);
      if Accepted(poses[|poses| - 1]) then Push(before, poses[|poses| - 1]) else before
  }

  /** The history of a run depends on nothing but the history it starts from and the poses. */
  lemma {:induction false} RunHistory(rule: CounterRule, s: SessionState, poses: seq<Pose>)
    ensures Run(rule, s, poses).history == HistoryAfter(s.history, poses)
  {
    if poses != [] {
      RunHistory(rule, s, poses[..|poses| - 1]);
    }
  }

  /** The poses of the frames that pass the score gate, in arrival order. */
  ghost function AcceptedPoses(poses: seq<Pose>): seq<Pose>
  {
    if poses == [] then []
    else
      var last := poses[|poses| - 1];
      AcceptedPoses(poses[..|poses| - 1]) + if Accepted(last) then [last] else []
  }

  lemma {:induction false} HistoryAfterIsLastAccepted(history: seq<Pose>, poses: seq<Pose>)
    requires |history| <= MaxHistory
    ensures HistoryAfter(history, poses) == LastN(history + AcceptedPoses(poses), MaxHistory)
  {
    if poses == [] {
      assert history + [] == history;
    } else {
      var init, p := poses[..|poses| - 1], poses[|poses| - 1];
      HistoryAfterIsLastAccepted(history, init);
      var before := history + AcceptedPoses(init);
      if Accepted(p) {
        AppendAssociative(history, AcceptedPoses(init), [p]);
        LastNPush(before, p);
      } else {
        assert AcceptedPoses(init) + [] == AcceptedPoses(init);
      }
    }
  }

  /**
   * After any run the history is the last 30 accepted poses, oldest first:
   * a bounded FIFO that keeps arrival order and drops only from the front.
   */
  lemma HistoryIsLastAccepted(rule: CounterRule, s: SessionState, poses: seq<Pose>)
    requires |s.history| <= MaxHistory
    ensures Run(rule, s, poses).history == LastN(s.history + AcceptedPoses(poses), MaxHistory)
  {
    RunHistory(rule, s, poses);
    HistoryAfterIsLastAccepted(s.history, poses);
  }

  /** Pushing onto the last 30 gives the last 30 of the extended sequence. */
  lemma LastNPush(s: seq<Pose>, p: Pose)
    ensures Push(LastN(s, MaxHistory), p) == LastN(s + [p], MaxHistory)
  {
    var l := LastN(s, MaxHistory);
    if |s| >= MaxHistory {
      assert (l + [p])[1..] == (s + [p])[|s| + 1 - MaxHistory..];
    }
  }

  /** The history never holds more than 30 poses. */
  lemma HistoryBounded(rule: CounterRule, poses: seq<Pose>)
    ensures |Run(rule, Start, poses).history| <= MaxHistory
  {
    HistoryIsLastAccepted(rule, Start, poses);
  }

  /** The newest pose of the history is the last accepted frame. */
  lemma NewestLast(rule: CounterRule, s: SessionState, poses: seq<Pose>)
    requires |s.history| <= MaxHistory
    requires poses != [] && Accepted(poses[|poses| - 1])
    ensures Run(rule, s, poses).history != []
    ensures Run(rule, s, poses).history[|Run(rule, s, poses).history| - 1] == poses[|poses| - 1]
    ensures Run(rule, s, poses).currentPose == Some(poses[|poses| - 1])
  {
  }

  /** Frames that all score 0.3 or less leave the whole state as it was. */
  lemma {:induction false} LowScoreFramesChangeNothing(rule: CounterRule, s: SessionState, poses: seq<Pose>)
    requires forall i :: 0 <= i < |poses| ==> !Accepted(poses[i])
    ensures Run(rule, s, poses) == s
  {
    if poses != [] {
      LowScoreFramesChangeNothing(rule, s, poses[..|poses| - 1]);
    }
  }

  /** Under the rising-edge rule both counters keep tracking their flags over any run. */
  lemma {:induction false} RisingEdgeRunKeepsTracking(s: SessionState, poses: seq<Pose>)
    requires CountersTrackFlags(s.gestures)
    ensures CountersTrackFlags(Run(RisingEdge, s, poses).gestures)
  {
    if poses != [] {
      var init, p := poses[..|poses| - 1], poses[|poses| - 1];
      RisingEdgeRunKeepsTracking(s, init);
      var before := Run(RisingEdge, s, init);
      if Accepted(p) {
        DetectKeepsTracking(before.gestures, p, Push(before.history, p));
      }
    }
  }

  /** An accepted frame in which the left wrist is trusted and raised above the trusted left shoulder. */
  predicate LeftHandHeldUp(p: Pose) {
    Accepted(p) && Trusted(Part(p, LeftWrist)) && Trusted(Part(p, LeftShoulder)) &&
    Raised(Part(p, LeftWrist).value, Part(p, LeftShoulder).value)
  }

  /** Under the while-held rule, k frames with the left hand held up add k to the left counter. */
  lemma {:induction false} HeldFramesCount(s: SessionState, poses: seq<Pose>)
    requires forall i :: 0 <= i < |poses| ==> LeftHandHeldUp(poses[i])
    ensures Run(WhileHeld, s, poses).gestures.leftCounter == s.gestures.leftCounter + |poses|
    ensures poses != [] ==> Run(WhileHeld, s, poses).gestures.leftHandUp
  {
    if poses != [] {
      HeldFramesCount(s, poses[..|poses| - 1]);
    }
  }

  /**
   * A session: the fields the hook overwrites on every accepted frame, with
   * the counting rule fixed at construction.
   */
  class Session {
    const rule: CounterRule
    var history: seq<Pose>
    var currentPose: Option<Pose>
    var measurements: Option<BodyMeasurements>
    var gestures: GestureState

    function State(): SessionState
      reads this
    {
      SessionState(history, currentPose, measurements, gestures)
    }

    ghost predicate Valid()
      reads this
    {
      |history| <= MaxHistory
    }

    constructor(rule: CounterRule)
      ensures this.rule == rule && State() == Start && Valid()
    {
      this.rule := rule;
      history := [];
      currentPose := None;
      measurements := None;
      gestures := Initial;
    }

    /** Handles one estimated pose. */
    method Step(pose: Pose)
      requires Valid()
      modifies this
      ensures Valid()
      ensures State() == Advance(rule, old(State()), pose)
    {
      if pose.score > FrameScoreThreshold {
        currentPose := Some(pose);
        history := history + [pose];
        if |history| > MaxHistory {
          history := history[1..];
        }
        assert history == Push(old(history), pose);
        var m := Measurements.CalculateBodyMeasurements(pose);
        if m.Some? && m.value.confidence > MeasurementConfidenceThreshold {
          measurements := m;
        }
        assert measurements == UpdateMeasurements(old(measurements), pose);
        gestures := DetectGestures(rule, gestures, pose, history);
      }
    }

    /** Handles the poses of consecutive frames in order. */
    method Feed(poses: seq<Pose>)
      requires Valid()
      modifies this
      ensures Valid()
      ensures State() == Run(rule, old(State()), poses)
    {
      ghost var start := State();
      for i := 0 to |poses|
        invariant Valid()
        invariant State() == Run(rule, start, poses[..i])
      {
        assert poses[..i + 1][..i] == poses[..i];
        Step(poses[i]);
      }
      assert poses[..|poses|] == poses;
    }
  }
}
