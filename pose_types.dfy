/**
 * The value types of the live try-on feature: what the pose estimator hands
 * over each frame, the catalogue entries it overlays, and what is derived
 * from a pose. Coordinates, scores and prices are reals.
 */
module PoseTypes {
  import opened Wrappers

  datatype Position = Position(x: real, y: real)

  /** A named body landmark with the estimator's confidence in it. */
  datatype Keypoint = Keypoint(position: Position, score: real, part: string)

  /** One frame's estimate: the keypoints and an overall score. */
  datatype Pose = Pose(keypoints: seq<Keypoint>, score: real)

  datatype GarmentType = Shirt | Dress | Jacket | Pants {
    /** The string the type is compared against (`item.type`). */
    function Name(): string {
      match this
      case Shirt => "shirt"
      case Dress => "dress"
      case Jacket => "jacket"
      case Pants => "pants"
    }
  }

  /** A catalogue garment; `kind` is the source's `type` field. */
  datatype ClothingItem = ClothingItem(
    id: string,
    name: string,
    kind: GarmentType,
    image: string,
    color: string,
    price: real,
    brand: Option<string>,
    size: Option<string>,
    material: Option<string>,
    rating: Option<real>,
    reviews: Option<int>)

  datatype OutfitRecommendation = OutfitRecommendation(
    id: string,
    name: string,
    items: seq<ClothingItem>,
    occasion: string,
    confidence: real)

  /** Pixel-space proportions estimated from one pose. */
  datatype BodyMeasurements = BodyMeasurements(
    shoulderWidth: real,
    chestWidth: real,
    waistWidth: real,
    armLength: real,
    torsoLength: real,
    confidence: real)

  datatype Fit = Perfect | Good | Loose | Tight {
    function Name(): string {
      match this
      case Perfect => "perfect"
      case Good => "good"
      case Loose => "loose"
      case Tight => "tight"
    }
  }

  datatype FittingAnalysis = FittingAnalysis(fit: Fit, confidence: real, recommendations: seq<string>)

  /**
   * `keypoints.find(kp => kp.part === part)`: the first keypoint with that
   * part name, or nothing when no keypoint has it.
   */
  function Find(keypoints: seq<Keypoint>, part: string): (r: Option<Keypoint>)
    ensures r.None? <==> forall i :: 0 <= i < |keypoints| ==> keypoints[i].part != part
    ensures r.Some? ==> r.value.part == part && r.value in keypoints
    ensures r.Some? ==> exists i :: 0 <= i < |keypoints| && keypoints[i] == r.value
                                  && forall j :: 0 <= j < i ==> keypoints[j].part != part
  {
    if keypoints == [] then None
    else if keypoints[0].part == part then Some(keypoints[0])
    else
      var r := Find(keypoints[1..], part);
      assert r.Some? ==> exists i :: 0 <= i < |keypoints| && keypoints[i] == r.value
                                  && forall j :: 0 <= j < i ==> keypoints[j].part != part by {
        if r.Some? {
          var i :| 0 <= i < |keypoints[1..]| && keypoints[1..][i] == r.value
                   && forall j :: 0 <= j < i ==> keypoints[1..][j].part != part;
          assert keypoints[i + 1] == r.value;
          forall j | 0 <= j < i + 1 ensures keypoints[j].part != part {
            if j > 0 { assert keypoints[j] == keypoints[1..][j - 1]; }
          }
        }
      }
      r
  }

  /** The keypoint named `part` in `pose`, if the estimator reported one. */
  function Part(pose: Pose, part: string): Option<Keypoint> {
    Find(pose.keypoints, part)
  }
}
