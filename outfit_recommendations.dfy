/**
 * The outfit list of the try-room (src/components/OutfitRecommendations.tsx):
 * the colour of the match badge, the occasion icon, the item count label
 * and the price total.
 */
module OutfitRecommendations {
  import opened Text
  import opened PoseTypes

  const HighConfidenceColor := "text-green-600 bg-green-100"
  const GoodConfidenceColor := "text-blue-600 bg-blue-100"
  const FairConfidenceColor := "text-yellow-600 bg-yellow-100"
  const LowConfidenceColor := "text-gray-600 bg-gray-100"

  /** `getConfidenceColor`: four bands, each closed at its lower bound. */
  function ConfidenceColor(confidence: real): (r: string)
    ensures r == HighConfidenceColor <==> confidence >= 0.9
    ensures r == GoodConfidenceColor <==> 0.8 <= confidence < 0.9
    ensures r == FairConfidenceColor <==> 0.7 <= confidence < 0.8
    ensures r == LowConfidenceColor <==> confidence < 0.7
  {
    if confidence >= 0.9 then HighConfidenceColor
    else if confidence >= 0.8 then GoodConfidenceColor
    else if confidence >= 0.7 then FairConfidenceColor
    else LowConfidenceColor
  }

  /** The bands in increasing order of confidence. */
  function ColorRank(color: string): nat {
    if color == HighConfidenceColor then 3
    else if color == GoodConfidenceColor then 2
    else if color == FairConfidenceColor then 1
    else 0
  }

  /** A higher confidence never gets a lower band. */
  lemma ConfidenceColorMonotone(a: real, b: real)
    requires a <= b
    ensures ColorRank(ConfidenceColor(a)) <= ColorRank(ConfidenceColor(b))
  {
  }

  const BusinessIcon := "\U{1F4BC}"
  const CasualIcon := "\U{1F455}"
  const FormalIcon := "\U{1F31F}"
  const PartyIcon := "\U{1F389}"
  const DefaultOccasionIcon := "\U{1F454}"

  /** `getOccasionIcon`: the icon of the lower-cased occasion; an unknown one gets the tie. */
  function OccasionIcon(occasion: string): (r: string)
    ensures Lower(occasion) in {"business", "professional"} ==> r == BusinessIcon
    ensures Lower(occasion) in {"casual", "weekend"} ==> r == CasualIcon
    ensures Lower(occasion) in {"formal", "evening"} ==> r == FormalIcon
    ensures Lower(occasion) == "party" ==> r == PartyIcon
    ensures r == DefaultOccasionIcon <==>
      Lower(occasion) !in {"business", "professional", "casual", "weekend", "formal", "evening", "party"}
  {
    match Lower(occasion)
    case "business" => BusinessIcon
    case "professional" => BusinessIcon
    case "casual" => CasualIcon
    case "weekend" => CasualIcon
    case "formal" => FormalIcon
    case "evening" => FormalIcon
    case "party" => PartyIcon
    case _ => DefaultOccasionIcon
  }

  /** The icon does not depend on letter case: an occasion and its lower-cased form get the same one. */
  lemma OccasionIconIgnoresCase(occasion: string)
    ensures OccasionIcon(Lower(occasion)) == OccasionIcon(occasion)
  {
    LowerIdempotent(occasion);
  }

  /** "Business", capitalised, gets the briefcase. */
  lemma CapitalisedOccasion()
    ensures OccasionIcon("Business") == BusinessIcon
  {
    assert Lower("Business") == "business" by {
      assert LowerChar('B') == 'b';
    }
  }

  /** `outfit.items.reduce((total, item) => total + item.price, 0)`, added from the first item on. */
  function TotalPrice(items: seq<ClothingItem>): (r: real)
    ensures items == [] ==> r == 0.0
    decreases |items|
  {
    if items == [] then 0.0 else TotalPrice(items[..|items| - 1]) + items[|items| - 1].price
  }

  /** The total of two item lists together is the sum of their totals. */
  lemma {:induction false} TotalPriceConcat(a: seq<ClothingItem>, b: seq<ClothingItem>)
    ensures TotalPrice(a + b) == TotalPrice(a) + TotalPrice(b)
    decreases |b|
  {
    if b != [] {
      var init := b[..|b| - 1];
      assert (a + b)[..|a + b| - 1] == a + init;
      TotalPriceConcat(a, init);
    } else {
      assert a + b == a;
    }
  }

  /** The total of one item is its price. */
  lemma TotalPriceSingle(item: ClothingItem)
    ensures TotalPrice([item]) == item.price
  {
    assert [item][..0] == [];
  }

  /** With no negative price the total is never negative, and no less than any one price. */
  lemma {:induction false} TotalPriceBounds(items: seq<ClothingItem>)
    requires forall i :: 0 <= i < |items| ==> items[i].price >= 0.0
    ensures TotalPrice(items) >= 0.0
    ensures forall i :: 0 <= i < |items| ==> items[i].price <= TotalPrice(items)
    decreases |items|
  {
    if items != [] {
      var init := items[..|items| - 1];
      TotalPriceBounds(init);
      forall i | 0 <= i < |items| ensures items[i].price <= TotalPrice(items) {
        if i < |items| - 1 {
          assert items[i] == init[i];
        }
      }
    }
  }

  /** The count label: "1 item", "2 items", and "0 item" for an empty outfit. */
  function ItemsLabel(count: nat): (r: string)
    ensures |r| > |Decimal(count)| && r[..|Decimal(count)|] == Decimal(count)
    ensures |r| >= |Decimal(count)| + 5 && r[|Decimal(count)|..|Decimal(count)| + 5] == " item"
    ensures |r| == |Decimal(count)| + 5 + (if count > 1 then 1 else 0)
    ensures r[|r| - 1] == 's' <==> count > 1
  {
    Decimal(count) + " item" + (if count > 1 then "s" else "")
  }
}
