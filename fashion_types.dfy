/**
 * The records of the photo-analysis side of the app (src/types/fashion.ts),
 * restricted to the fields the modelled operations read or write.
 */
module FashionTypes {
  import opened Wrappers

  /** A product suggested by the analysis, as the results view shows it. */
  datatype ClothingRecommendation = ClothingRecommendation(
    id: string,
    name: string,
    category: string,
    size: string,
    color: string,
    brand: string,
    price: real,
    image: string,
    matchScore: real,
    reasons: seq<string>,
    occasion: seq<string>,
    inStock: bool,
    rating: real,
    reviews: int,
    url: Option<string>)

  /** A recommendation as the analysis service returns it, before ids, stock and ratings are added. */
  datatype RawRecommendation = RawRecommendation(
    name: string,
    category: string,
    size: string,
    color: string,
    brand: Option<string>,
    price: real,
    matchScore: real,
    reasons: seq<string>,
    occasion: seq<string>)

  datatype Priority = Low | Medium | High

  /** A wishlist entry; `addedAt` is a timestamp in milliseconds. */
  datatype WishlistItem = WishlistItem(
    id: string,
    productId: string,
    name: string,
    image: string,
    price: real,
    brand: string,
    addedAt: int,
    priority: Priority,
    notes: Option<string>)

  datatype BodyShape = BodyShape(kind: string, confidence: real, description: string)

  datatype SkinTone = SkinTone(category: string, subcategory: string, recommendedColors: seq<string>)

  /** The body measurements the analysis service estimates from a photo. */
  datatype StatedMeasurements = StatedMeasurements(
    chest: real,
    waist: real,
    hips: real,
    shoulders: real,
    confidence: real)

  datatype Demographics = Demographics(gender: string, ageRange: string, confidence: real)

  /** The result of analysing one photo. */
  datatype StyleAnalysis = StyleAnalysis(
    bodyShape: BodyShape,
    skinTone: SkinTone,
    measurements: StatedMeasurements,
    demographics: Demographics,
    confidence: real)

  datatype Preferences = Preferences(
    style: seq<string>,
    colors: seq<string>,
    brands: seq<string>,
    priceRange: (real, real),
    occasions: seq<string>)

  /** The profile built from an analysis; the timestamps are in milliseconds. */
  datatype UserProfile = UserProfile(
    id: string,
    preferences: Preferences,
    measurements: StatedMeasurements,
    bodyShape: BodyShape,
    skinTone: SkinTone,
    demographics: Demographics,
    createdAt: int,
    updatedAt: int)
}
