/**
 * The arithmetic of the try-room view (src/components/PoseViewer.tsx): the
 * garment overlay anchored on the shoulders, navigation by raised hands,
 * the fit-analysis gate, the favourite flag, the fit colours and the list of
 * screenshots taken.
 */
module PoseViewer {
  import opened Wrappers
  import opened PoseTypes
  import Measurements
  import opened Gestures
  import opened PoseSession

  /** A shoulder takes part in the overlay only above this score. */
  const OverlayScoreThreshold: real := 0.3
  /** The garment is 262/190 times as wide as the shoulders ... */
  const WidthRatio: real := 262.0 / 190.0
  /** ... and 581/440 times as tall as it is wide. */
  const HeightRatio: real := 581.0 / 440.0
  /** A counter at or above this requests navigation. */
  const NavigationThreshold: nat := 5

  datatype Rect = Rect(width: real, height: real, x: real, y: real)

  /**
   * The overlay for two shoulders: the shoulder span scaled by 262/190 and
   * 581/440, centred horizontally on the shoulder midpoint, which sits a
   * quarter of the way down the rectangle.
   */
  function Overlay(left: Position, right: Position): (r: Rect)
    ensures r.width == Measurements.Abs(left.x - right.x) * WidthRatio
    ensures r.height == r.width * HeightRatio
    ensures r.width >= 0.0 && r.height >= 0.0
    ensures r.x + r.width / 2.0 == (left.x + right.x) / 2.0
    ensures r.y + r.height / 4.0 == (left.y + right.y) / 2.0
  {
    var width := Measurements.Abs(left.x - right.x) * WidthRatio;
    var height := width * HeightRatio;
    Rect(width, height, (left.x + right.x) / 2.0 - width / 2.0, (left.y + right.y) / 2.0 - height / 4.0)
  }

  /** Both shoulders of the pose were found with a score above 0.3. */
  predicate ShouldersTrusted(pose: Pose) {
    var l, r := Part(pose, LeftShoulder), Part(pose, RightShoulder);
    l.Some? && r.Some? && l.value.score > OverlayScoreThreshold && r.value.score > OverlayScoreThreshold
  }

  /**
   * The overlay after the current pose changes: recomputed from trusted
   * shoulders, and otherwise (no pose, a shoulder missing or doubtful) the
   * previous overlay is kept.
   */
  function UpdateOverlay(prev: Option<Rect>, pose: Option<Pose>): (r: Option<Rect>)
    ensures !(pose.Some? && ShouldersTrusted(pose.value)) ==> r == prev
    ensures pose.Some? && ShouldersTrusted(pose.value) ==>
              r == Some(Overlay(Part(pose.value, LeftShoulder).value.position, Part(pose.value, RightShoulder).value.position))
  {
    if pose.Some? && ShouldersTrusted(pose.value) then
      Some(Overlay(Part(pose.value, LeftShoulder).value.position, Part(pose.value, RightShoulder).value.position))
    else prev
  }

  /** An overlay, once shown, never disappears. */
  lemma OverlayPersists(prev: Option<Rect>, pose: Option<Pose>)
    requires prev.Some?
    ensures UpdateOverlay(prev, pose).Some?
  {
  }

  datatype Direction = Prev | Next

  /** The navigation the gesture counters request: left wins, then right, at 5 or more. */
  function Navigation(g: GestureState): (r: Option<Direction>)
    ensures g.leftCounter >= NavigationThreshold ==> r == Some(Prev)
    ensures g.leftCounter < NavigationThreshold && g.rightCounter >= NavigationThreshold ==> r == Some(Next)
    ensures r == None <==> g.leftCounter < NavigationThreshold && g.rightCounter < NavigationThreshold
  {
    if g.leftCounter >= NavigationThreshold then Some(Prev)
    else if g.rightCounter >= NavigationThreshold then Some(Next)
    else None
  }

  /**
   * As written, no sequence of frames ever requests navigation: under the
   * rising-edge rule a counter is 1 at most, below the threshold of 5.
   */
  lemma RisingEdgeNeverNavigates(poses: seq<Pose>)
    ensures Navigation(Run(RisingEdge, Start, poses).gestures) == None
  {
    RisingEdgeRunKeepsTracking(Start, poses);
  }

  /**
   * With hands counted while held, five consecutive frames with the left
   * hand raised request the previous garment, whatever came before.
   */
  lemma HeldHandNavigates(s: SessionState, poses: seq<Pose>)
    requires |poses| >= NavigationThreshold
    requires forall i :: 0 <= i < |poses| ==> LeftHandHeldUp(poses[i])
    ensures Navigation(Run(WhileHeld, s, poses).gestures) == Some(Prev)
  {
    HeldFramesCount(s, poses);
  }

  /** The selected item is a favourite: some favourite has its id; never when nothing is selected. */
  function IsFavorite(selected: Option<ClothingItem>, favorites: seq<ClothingItem>): (r: bool)
    ensures r <==> selected.Some? && exists i :: 0 <= i < |favorites| && favorites[i].id == selected.value.id
  {
    selected.Some? && FavoriteIndex(selected.value.id, favorites).Some?
  }

  /** The first position of a favourite with the given id (`some` stops there). */
  function FavoriteIndex(id: string, favorites: seq<ClothingItem>): (r: Option<nat>)
    ensures r.None? <==> forall i :: 0 <= i < |favorites| ==> favorites[i].id != id
    ensures r.Some? ==> r.value < |favorites| && favorites[r.value].id == id
    ensures r.Some? ==> forall j :: 0 <= j < r.value ==> favorites[j].id != id
  {
    if favorites == [] then None
    else if favorites[0].id == id then Some(0)
    else match FavoriteIndex(id, favorites[1..])
      case None => None
      case Some(k) => Some(k + 1)
  }

  const DefaultFitColor := "text-gray-600 bg-gray-100"

  /** The badge classes for a fit name; unknown names get grey. */
  function FitColor(fit: string): (r: string)
    ensures fit == "perfect" ==> r == "text-green-600 bg-green-100"
    ensures fit == "good" ==> r == "text-blue-600 bg-blue-100"
    ensures fit == "loose" ==> r == "text-yellow-600 bg-yellow-100"
    ensures fit == "tight" ==> r == "text-red-600 bg-red-100"
    ensures r == DefaultFitColor <==> fit !in {"perfect", "good", "loose", "tight"}
  {
    match fit
    case "perfect" => "text-green-600 bg-green-100"
    case "good" => "text-blue-600 bg-blue-100"
    case "loose" => "text-yellow-600 bg-yellow-100"
    case "tight" => "text-red-600 bg-red-100"
    case _ => DefaultFitColor
  }

  /** Every fit gets its own colour, and none of them the grey fallback. */
  lemma FitColorsDistinct(a: Fit, b: Fit)
    ensures FitColor(a.Name()) != DefaultFitColor
    ensures a != b ==> FitColor(a.Name()) != FitColor(b.Name())
  {
  }

  /**
   * The fit analysis the view asks for: only with an item selected and
   * measurements more confident than 0.5, for the item's garment type. (The
   * view discards the result; the hook's `fittingAnalysis` stays empty.)
   */
  function RequestedFit(selected: Option<ClothingItem>, measurements: Option<BodyMeasurements>): (r: Option<FittingAnalysis>)
    ensures r.Some? <==> selected.Some? && measurements.Some? && measurements.value.confidence > 0.5
    ensures r.Some? ==> r.value == Measurements.AnalyzeFit(measurements.value, selected.value.kind.Name())
    ensures r.Some? && Measurements.ChestAdvice in r.value.recommendations ==> selected.value.kind == Shirt
  {
    if selected.Some? && measurements.Some? && measurements.value.confidence > 0.5 then
      Some(Measurements.AnalyzeFit(measurements.value, selected.value.kind.Name()))
    else None
  }

  /** The view's own state: the overlay and the screenshots taken. */
  class TryRoom {
    var overlay: Option<Rect>
    var screenshots: seq<string>

    constructor()
      ensures overlay == None && screenshots == []
    {
      overlay := None;
      screenshots := [];
    }

    /** Runs the overlay effect for a new current pose. */
    method OnPose(pose: Option<Pose>)
      modifies this
      ensures overlay == UpdateOverlay(old(overlay), pose)
      ensures screenshots == old(screenshots)
    {
      if pose.Some? {
        var p := pose.value;
        var left, right := Part(p, LeftShoulder), Part(p, RightShoulder);
        if left.Some? && right.Some? && left.value.score > OverlayScoreThreshold && right.value.score > OverlayScoreThreshold {
          overlay := Some(Overlay(left.value.position, right.value.position));
        }
      }
    }

    /**
     * Keeps a screenshot: the capture is appended only when it produced a
     * non-empty image (`null` and `''` are both dropped).
     */
    method KeepScreenshot(shot: Option<string>)
      modifies this
      ensures shot.Some? && shot.value != "" ==> screenshots == old(screenshots) + [shot.value]
      ensures !(shot.Some? && shot.value != "") ==> screenshots == old(screenshots)
      ensures overlay == old(overlay)
    {
      if shot.Some? && shot.value != "" {
        screenshots := screenshots + [shot.value];
      }
    }
  }
}
