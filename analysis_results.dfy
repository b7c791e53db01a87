/**
 * The results view of a photo analysis (src/components/AnalysisResults.tsx):
 * the recommendations for a category in the chosen order, the categories
 * offered, and the icon and colour shown for the body shape and skin tone.
 */
module AnalysisResults {
  import opened Collections
  import opened FashionTypes

  /** The category filter that lets every recommendation through. */
  const AllCategories := "all"

  datatype SortMode = ByMatch | ByPrice | ByRating

  /** The recommendation's category passes the filter. */
  predicate InCategory(item: ClothingRecommendation, filterCategory: string) {
    filterCategory == AllCategories || item.category == filterCategory
  }

  /**
   * The sort key of each mode: price ascending, rating descending and match
   * score descending (the last two as their negation ascending).
   */
  function SortKey(mode: SortMode): ClothingRecommendation -> Key {
    match mode
    case ByPrice => (item: ClothingRecommendation) => Num(item.price)
    case ByRating => (item: ClothingRecommendation) => Num(-item.rating)
    case ByMatch => (item: ClothingRecommendation) => Num(-item.matchScore)
  }

  /**
   * `filteredRecommendations`: a reordering of exactly the recommendations
   * of the category (all of them for 'all'), nothing lost or repeated.
   */
  function FilteredRecommendations(recommendations: seq<ClothingRecommendation>, filterCategory: string, sortBy: SortMode): (r: seq<ClothingRecommendation>)
    ensures multiset(r) == multiset(Filter(recommendations, (item: ClothingRecommendation) => InCategory(item, filterCategory)))
    ensures forall x :: x in r <==> x in recommendations && InCategory(x, filterCategory)
    ensures SortedBy(r, SortKey(sortBy))
  {
    var kept := Filter(recommendations, (item: ClothingRecommendation) => InCategory(item, filterCategory));
    var r := SortBy(kept, SortKey(sortBy));
    assert forall x :: x in r <==> x in kept by {
      forall x ensures x in r <==> x in kept {
        assert x in r <==> x in multiset(r);
        assert x in kept <==> x in multiset(kept);
      }
    }
    r
  }

  /** With 'all', the view shows every recommendation, reordered. */
  lemma AllCategoriesShowsEverything(recommendations: seq<ClothingRecommendation>, sortBy: SortMode)
    ensures multiset(FilteredRecommendations(recommendations, AllCategories, sortBy)) == multiset(recommendations)
  {
    FilterAllPass(recommendations, (item: ClothingRecommendation) => InCategory(item, AllCategories));
  }

  /** The three orders, stated on the fields: cheapest first, best rated first, best match first. */
  lemma SortOrders(recommendations: seq<ClothingRecommendation>, filterCategory: string, sortBy: SortMode, i: nat, j: nat)
    requires i < j < |FilteredRecommendations(recommendations, filterCategory, sortBy)|
    ensures var r := FilteredRecommendations(recommendations, filterCategory, sortBy);
      (sortBy == ByPrice ==> r[i].price <= r[j].price) &&
      (sortBy == ByRating ==> r[i].rating >= r[j].rating) &&
      (sortBy == ByMatch ==> r[i].matchScore >= r[j].matchScore)
  {
    var r := FilteredRecommendations(recommendations, filterCategory, sortBy);
    assert KeyLeq(SortKey(sortBy)(r[i]), SortKey(sortBy)(r[j]));
  }

  /** The category of each recommendation, in order. */
  function CategoryList(recommendations: seq<ClothingRecommendation>): (r: seq<string>)
    ensures |r| == |recommendations|
    ensures forall i :: 0 <= i < |recommendations| ==> r[i] == recommendations[i].category
  {
    seq(|recommendations|, i requires 0 <= i < |recommendations| => recommendations[i].category)
  }

  /** `categories`: each category of the recommendations once, in order of first appearance. */
  function Categories(recommendations: seq<ClothingRecommendation>): (r: seq<string>)
    ensures Distinct(r)
    ensures forall c :: c in r <==> exists i :: 0 <= i < |recommendations| && recommendations[i].category == c
    ensures FirstOccurrenceOrder(r, CategoryList(recommendations))
  {
    var all := CategoryList(recommendations);
    var r := Dedup(all);
    DedupOrder(all);
    assert forall c :: c in all <==> exists i :: 0 <= i < |recommendations| && recommendations[i].category == c by {
      forall c ensures c in all <==> exists i :: 0 <= i < |recommendations| && recommendations[i].category == c {
        if c in all {
          var i :| 0 <= i < |all| && all[i] == c;
          assert recommendations[i].category == c;
        }
      }
    }
    r
  }

  /** The icon shown for an unknown body shape. */
  const UnknownShapeIcon := "\U{1F464}"

  /** The icon of each body shape the analysis can report; anything else gets the silhouette. */
  function BodyShapeIcon(shape: string): (r: string)
    ensures shape == "rectangle" ==> r == "\U{25AD}"
    ensures shape == "pear" ==> r == "\U{1F350}"
    ensures shape == "apple" ==> r == "\U{1F34E}"
    ensures shape == "hourglass" ==> r == "\U{29D7}"
    ensures shape == "inverted-triangle" ==> r == "\U{25BD}"
    ensures shape == "oval" ==> r == "\U{2B55}"
    ensures r == UnknownShapeIcon <==> shape !in {"rectangle", "pear", "apple", "hourglass", "inverted-triangle", "oval"}
  {
    match shape
    case "rectangle" => "\U{25AD}"
    case "pear" => "\U{1F350}"
    case "apple" => "\U{1F34E}"
    case "hourglass" => "\U{29D7}"
    case "inverted-triangle" => "\U{25BD}"
    case "oval" => "\U{2B55}"
    case _ => UnknownShapeIcon
  }

  /** The swatch shown for an unknown skin-tone category, the same grey as 'neutral'. */
  const UnknownToneColor := "#6B7280"

  /** The swatch of each skin-tone category; anything else gets grey. */
  function SkinToneColor(category: string): (r: string)
    ensures category == "warm" ==> r == "#D97706"
    ensures category == "cool" ==> r == "#2563EB"
    ensures category == "neutral" ==> r == "#6B7280"
    ensures category !in {"warm", "cool", "neutral"} ==> r == UnknownToneColor
  {
    match category
    case "warm" => "#D97706"
    case "cool" => "#2563EB"
    case "neutral" => "#6B7280"
    case _ => UnknownToneColor
  }

  /** Only 'warm' and 'cool' stand out: 'neutral' and any unknown category look the same. */
  lemma GreyMeansNeitherWarmNorCool(category: string)
    ensures SkinToneColor(category) == UnknownToneColor <==> category != "warm" && category != "cool"
  {
  }
}
