/**
 * The top-level state of the photo-analysis app (src/App.tsx): the
 * wishlist, the recommendations built from an analysis, the profile, and
 * the upload/results flow.
 */
module App {
  import opened Wrappers
  import opened Text
  import opened FashionTypes

  /** The brand shown when the analysis names none. */
  const DefaultBrand := "Premium Brand"
  /** The message shown when the failure carries none of its own. */
  const DefaultFailureMessage := "Analysis failed. Please try again."

  datatype Section = Upload | Results

  /** Some entry has the id. */
  predicate HasEntry(wishlist: seq<WishlistItem>, id: string) {
    exists i :: 0 <= i < |wishlist| && wishlist[i].id == id
  }

  /** No two entries share an id. */
  predicate UniqueIds(wishlist: seq<WishlistItem>) {
    forall i, j :: 0 <= i < j < |wishlist| ==> wishlist[i].id != wishlist[j].id
  }

  /** The entry `handleAddToWishlist` builds for a product, added at time `now`. */
  function WishlistEntry(item: ClothingRecommendation, now: int): WishlistItem {
    WishlistItem(item.id, item.id, item.name, "", item.price, item.brand, now, Medium, None)
  }

  /**
   * `handleAddToWishlist`: a product whose id is already on the wishlist
   * leaves it as it is; any other is appended.
   */
  function WishlistAdd(wishlist: seq<WishlistItem>, item: ClothingRecommendation, now: int): (r: seq<WishlistItem>)
    ensures HasEntry(wishlist, item.id) ==> r == wishlist
    ensures !HasEntry(wishlist, item.id) ==> r == wishlist + [WishlistEntry(item, now)]
    ensures HasEntry(r, item.id)
    ensures UniqueIds(wishlist) ==> UniqueIds(r)
  {
    if HasEntry(wishlist, item.id) then wishlist
    else
      var r := wishlist + [WishlistEntry(item, now)];
      assert r[|wishlist|].id == item.id;
      r
  }

  /** Adding a product twice is the same as adding it once, whenever the second time is. */
  lemma AddToWishlistIdempotent(wishlist: seq<WishlistItem>, item: ClothingRecommendation, first: int, second: int)
    ensures WishlistAdd(WishlistAdd(wishlist, item, first), item, second) == WishlistAdd(wishlist, item, first)
  {
  }

  /**
   * A new product adds exactly one entry, at the end, leaving the earlier
   * entries as they were: its id and product id are the product's, its name,
   * price and brand are copied, it has no image and medium priority.
   */
  lemma NewWishlistEntry(wishlist: seq<WishlistItem>, item: ClothingRecommendation, now: int)
    requires !HasEntry(wishlist, item.id)
    ensures var r := WishlistAdd(wishlist, item, now);
      |r| == |wishlist| + 1 && r[..|wishlist|] == wishlist &&
      r[|wishlist|].id == item.id && r[|wishlist|].productId == item.id &&
      r[|wishlist|].name == item.name && r[|wishlist|].price == item.price && r[|wishlist|].brand == item.brand &&
      r[|wishlist|].image == "" && r[|wishlist|].priority == Medium && r[|wishlist|].addedAt == now
  {
    var r := WishlistAdd(wishlist, item, now);
    assert r == wishlist + [WishlistEntry(item, now)];
  }

  /** A value `Math.random()` can return. */
  predicate IsDraw(x: real) {
    0.0 <= x < 1.0
  }

  /**
   * The `index`-th recommendation built from the service's answer, with the
   * two random draws that make up its rating and review count.
   */
  function Recommend(raw: RawRecommendation, index: nat, ratingDraw: real, reviewsDraw: real): (r: ClothingRecommendation)
    requires IsDraw(ratingDraw) && IsDraw(reviewsDraw)
    ensures r.id == "rec-" + Decimal(index) && r.url == Some("#product-" + Decimal(index))
    ensures r.brand == if raw.brand.Some? && raw.brand.value != "" then raw.brand.value else DefaultBrand
    ensures r.brand != ""
    ensures r.inStock && r.image == ""
    ensures 4.2 <= r.rating < 5.0
    ensures 50 <= r.reviews <= 549
    ensures r.name == raw.name && r.category == raw.category && r.size == raw.size && r.color == raw.color
    ensures r.price == raw.price && r.matchScore == raw.matchScore && r.reasons == raw.reasons && r.occasion == raw.occasion
  {
    var brand := if raw.brand.Some? && raw.brand.value != "" then raw.brand.value else DefaultBrand;
    ClothingRecommendation(
      "rec-" + Decimal(index), raw.name, raw.category, raw.size, raw.color, brand, raw.price, "",
      raw.matchScore, raw.reasons, raw.occasion, true,
      4.2 + ratingDraw * 0.8, (reviewsDraw * 500.0).Floor + 50,
      Some("#product-" + Decimal(index)))
  }

  /** Random draws for every recommendation: one for the rating, one for the review count. */
  predicate ValidDraws(draws: seq<(real, real)>) {
    forall i :: 0 <= i < |draws| ==> IsDraw(draws[i].0) && IsDraw(draws[i].1)
  }

  /** The recommendation mapping of `handleImageUpload`: one product per answer, in order. */
  function ToRecommendations(raws: seq<RawRecommendation>, draws: seq<(real, real)>): (r: seq<ClothingRecommendation>)
    requires |draws| == |raws| && ValidDraws(draws)
    ensures |r| == |raws|
    ensures forall i :: 0 <= i < |raws| ==> r[i] == Recommend(raws[i], i, draws[i].0, draws[i].1)
  {
    seq(|raws|, i requires 0 <= i < |raws| => Recommend(raws[i], i, draws[i].0, draws[i].1))
  }

  /** The recommendations get pairwise distinct ids. */
  lemma RecommendationIdsDistinct(raws: seq<RawRecommendation>, draws: seq<(real, real)>, i: nat, j: nat)
    requires |draws| == |raws| && ValidDraws(draws)
    requires i < j < |raws|
    ensures ToRecommendations(raws, draws)[i].id != ToRecommendations(raws, draws)[j].id
  {
    var r := ToRecommendations(raws, draws);
    if r[i].id == r[j].id {
      PrefixedDecimalInjective("rec-", i, j);
    }
  }

  /** The profile built from an analysis at time `now`. */
  function BuildProfile(analysis: StyleAnalysis, now: nat): (r: UserProfile)
    ensures r.id == "user-" + Decimal(now)
    ensures r.preferences == Preferences(["casual", "elegant"], analysis.skinTone.recommendedColors, [], (50.0, 300.0), ["casual", "work", "evening"])
    ensures r.createdAt == now && r.updatedAt == now
    ensures r.measurements == analysis.measurements && r.bodyShape == analysis.bodyShape
    ensures r.skinTone == analysis.skinTone && r.demographics == analysis.demographics
  {
    UserProfile(
      "user-" + Decimal(now),
      Preferences(["casual", "elegant"], analysis.skinTone.recommendedColors, [], (50.0, 300.0), ["casual", "work", "evening"]),
      analysis.measurements, analysis.bodyShape, analysis.skinTone, analysis.demographics, now, now)
  }

  /**
   * How the two service calls of an upload ended: the photo analysis
   * failed; it succeeded but the recommendations failed; or both succeeded.
   * `message` is the failure's own message when it carries one.
   */
  datatype UploadOutcome =
    | AnalysisFailed(message: Option<string>)
    | RecommendationsFailed(analysis: StyleAnalysis, message: Option<string>)
    | Completed(analysis: StyleAnalysis, raws: seq<RawRecommendation>, draws: seq<(real, real)>, now: nat)

  /** The message shown for a failure. */
  function FailureMessage(message: Option<string>): (r: string)
    ensures message.Some? ==> r == message.value
    ensures message.None? ==> r == DefaultFailureMessage
  {
    message.GetOr(DefaultFailureMessage)
  }

  /** The app's state. */
  class AppState {
    var isAnalyzing: bool
    var analysisError: Option<string>
    var analysis: Option<StyleAnalysis>
    var recommendations: seq<ClothingRecommendation>
    var wishlist: seq<WishlistItem>
    var userProfile: Option<UserProfile>
    var section: Section

    constructor()
      ensures !isAnalyzing && analysisError == None && analysis == None && recommendations == []
      ensures wishlist == [] && userProfile == None && section == Upload
    {
      isAnalyzing := false;
      analysisError := None;
      analysis := None;
      recommendations := [];
      wishlist := [];
      userProfile := None;
      section := Upload;
    }

    method AddToWishlist(item: ClothingRecommendation, now: int)
      modifies this
      ensures wishlist == WishlistAdd(old(wishlist), item, now)
      ensures isAnalyzing == old(isAnalyzing) && analysisError == old(analysisError) && analysis == old(analysis)
      ensures recommendations == old(recommendations) && userProfile == old(userProfile) && section == old(section)
    {
      if !HasEntry(wishlist, item.id) {
        wishlist := wishlist + [WishlistEntry(item, now)];
      }
    }

    /** `resetAnalysis`: back to the upload step; the wishlist and the profile stay. */
    method ResetAnalysis()
      modifies this
      ensures analysis == None && recommendations == [] && section == Upload && analysisError == None
      ensures wishlist == old(wishlist) && userProfile == old(userProfile) && isAnalyzing == old(isAnalyzing)
    {
      analysis := None;
      recommendations := [];
      section := Upload;
      analysisError := None;
    }

    /** The start of `handleImageUpload`. */
    method BeginUpload()
      modifies this
      ensures isAnalyzing && analysisError == None
      ensures analysis == old(analysis) && recommendations == old(recommendations) && wishlist == old(wishlist)
      ensures userProfile == old(userProfile) && section == old(section)
    {
      isAnalyzing := true;
      analysisError := None;
    }

    /** The rest of `handleImageUpload`, once the service calls have ended. */
    method FinishUpload(outcome: UploadOutcome)
      requires outcome.Completed? ==> |outcome.draws| == |outcome.raws| && ValidDraws(outcome.draws)
      modifies this
      ensures !isAnalyzing && wishlist == old(wishlist)
      ensures outcome.AnalysisFailed? ==>
                analysisError == Some(FailureMessage(outcome.message)) && analysis == old(analysis) &&
                recommendations == old(recommendations) && userProfile == old(userProfile) && section == old(section)
      ensures outcome.RecommendationsFailed? ==>
                analysisError == Some(FailureMessage(outcome.message)) && analysis == Some(outcome.analysis) &&
                recommendations == old(recommendations) && userProfile == old(userProfile) && section == old(section)
      ensures outcome.Completed? ==>
                analysisError == old(analysisError) && analysis == Some(outcome.analysis) &&
                recommendations == ToRecommendations(outcome.raws, outcome.draws) &&
                userProfile == Some(BuildProfile(outcome.analysis, outcome.now)) && section == Results
    {
      match outcome {
        case AnalysisFailed(message) =>
          analysisError := Some(FailureMessage(message));
        case RecommendationsFailed(result, message) =>
          analysis := Some(result);
          analysisError := Some(FailureMessage(message));
        case Completed(result, raws, draws, now) =>
          analysis := Some(result);
          recommendations := ToRecommendations(raws, draws);
          userProfile := Some(BuildProfile(result, now));
          section := Results;
      }
      isAnalyzing := false;
    }
  }
}
