/**
 * The wardrobe list of the try-room (src/components/ClothingSelector.tsx):
 * the items shown for a search term, a garment type and the favourites-only
 * switch, in the chosen order; the garment types offered; the reset of the
 * filters.
 */
module ClothingSelector {
  import opened Wrappers
  import opened Text
  import opened Collections
  import opened PoseTypes

  /** The type filter that lets every garment type through. */
  const AllTypes := "all"

  datatype SortMode = ByName | ByPrice | ByRating

  datatype ViewMode = Grid | List

  /** The list's controls. */
  datatype Settings = Settings(
    searchTerm: string,
    filterType: string,
    sortBy: SortMode,
    viewMode: ViewMode,
    showFavoritesOnly: bool)

  /** The controls as the list first shows them. */
  const InitialSettings := Settings("", AllTypes, ByName, Grid, false)

  /** The search term, lower-cased, occurs in the lower-cased text. */
  predicate Mentions(text: string, term: string) {
    Includes(Lower(text), Lower(term))
  }

  /** The item's name, brand (when it has one) or colour mentions the term. */
  predicate MatchesSearch(item: ClothingItem, term: string) {
    Mentions(item.name, term) || (item.brand.Some? && Mentions(item.brand.value, term)) || Mentions(item.color, term)
  }

  /** Some favourite has the item's id. */
  predicate IsFavorite(item: ClothingItem, favorites: seq<ClothingItem>) {
    exists i :: 0 <= i < |favorites| && favorites[i].id == item.id
  }

  /** The item passes the search, the type filter and the favourites switch. */
  predicate Passes(item: ClothingItem, s: Settings, favorites: seq<ClothingItem>) {
    MatchesSearch(item, s.searchTerm) &&
    (s.filterType == AllTypes || item.kind.Name() == s.filterType) &&
    (!s.showFavoritesOnly || IsFavorite(item, favorites))
  }

  /** A missing rating counts as 0. */
  function RatingOrZero(item: ClothingItem): real {
    item.rating.GetOr(0.0)
  }

  /**
   * The sort key of each mode: price ascending, rating descending (as its
   * negation ascending), name in code-point order.
   */
  function SortKey(mode: SortMode): ClothingItem -> Key {
    match mode
    case ByPrice => (item: ClothingItem) => Num(item.price)
    case ByRating => (item: ClothingItem) => Num(-RatingOrZero(item))
    case ByName => (item: ClothingItem) => Text(item.name)
  }

  /**
   * `filteredAndSortedItems`: the items that pass every filter, each as
   * often as in `items`, in the order of the sort mode.
   */
  function FilteredAndSorted(items: seq<ClothingItem>, s: Settings, favorites: seq<ClothingItem>): (r: seq<ClothingItem>)
    ensures multiset(r) == multiset(Filter(items, (item: ClothingItem) => Passes(item, s, favorites)))
    ensures forall x :: x in r <==> x in items && Passes(x, s, favorites)
    ensures SortedBy(r, SortKey(s.sortBy))
  {
    var kept := Filter(items, (item: ClothingItem) => Passes(item, s, favorites));
    var r := SortBy(kept, SortKey(s.sortBy));
    assert forall x :: x in r <==> x in kept by {
      forall x ensures x in r <==> x in kept {
        assert x in r <==> x in multiset(r);
        assert x in kept <==> x in multiset(kept);
      }
    }
    r
  }

  /** Sorting by price puts the cheaper item first. */
  lemma PriceAscending(items: seq<ClothingItem>, s: Settings, favorites: seq<ClothingItem>)
    requires s.sortBy == ByPrice
    ensures var r := FilteredAndSorted(items, s, favorites);
      forall i, j :: 0 <= i < j < |r| ==> r[i].price <= r[j].price
  {
    var r := FilteredAndSorted(items, s, favorites);
    forall i, j | 0 <= i < j < |r| ensures r[i].price <= r[j].price {
      assert KeyLeq(SortKey(ByPrice)(r[i]), SortKey(ByPrice)(r[j]));
    }
  }

  /** Sorting by rating puts the better-rated item first, a missing rating counting as 0. */
  lemma RatingDescending(items: seq<ClothingItem>, s: Settings, favorites: seq<ClothingItem>)
    requires s.sortBy == ByRating
    ensures var r := FilteredAndSorted(items, s, favorites);
      forall i, j :: 0 <= i < j < |r| ==> RatingOrZero(r[i]) >= RatingOrZero(r[j])
  {
    var r := FilteredAndSorted(items, s, favorites);
    forall i, j | 0 <= i < j < |r| ensures RatingOrZero(r[i]) >= RatingOrZero(r[j]) {
      assert KeyLeq(SortKey(ByRating)(r[i]), SortKey(ByRating)(r[j]));
    }
  }

  /** Sorting by name orders the names. */
  lemma NameAscending(items: seq<ClothingItem>, s: Settings, favorites: seq<ClothingItem>)
    requires s.sortBy == ByName
    ensures var r := FilteredAndSorted(items, s, favorites);
      forall i, j :: 0 <= i < j < |r| ==> LexLeq(r[i].name, r[j].name)
  {
    var r := FilteredAndSorted(items, s, favorites);
    forall i, j | 0 <= i < j < |r| ensures LexLeq(r[i].name, r[j].name) {
      assert KeyLeq(SortKey(ByName)(r[i]), SortKey(ByName)(r[j]));
    }
  }

  /** An empty search term matches every item. */
  lemma EmptySearchMatchesAll(item: ClothingItem)
    ensures MatchesSearch(item, "")
  {
    assert Lower("") == "";
    IncludesEmpty(Lower(item.name));
  }

  /**
   * With the filters cleared, every item is shown: the list is a reordering
   * of all of `items`.
   */
  lemma ClearedFiltersShowEverything(items: seq<ClothingItem>, s: Settings, favorites: seq<ClothingItem>)
    requires s.searchTerm == "" && s.filterType == AllTypes && !s.showFavoritesOnly
    ensures multiset(FilteredAndSorted(items, s, favorites)) == multiset(items)
  {
    forall x | x in items ensures Passes(x, s, favorites) {
      EmptySearchMatchesAll(x);
    }
    FilterAllPass(items, (item: ClothingItem) => Passes(item, s, favorites));
  }

  /** With favourites only, every item shown is a favourite. */
  lemma FavoritesOnlyShowsFavorites(items: seq<ClothingItem>, s: Settings, favorites: seq<ClothingItem>, i: nat)
    requires s.showFavoritesOnly
    requires i < |FilteredAndSorted(items, s, favorites)|
    ensures IsFavorite(FilteredAndSorted(items, s, favorites)[i], favorites)
  {
    var r := FilteredAndSorted(items, s, favorites);
    assert r[i] in r;
  }

  /** With favourites-only off, the favourites make no difference to the list. */
  lemma FavoritesIgnoredWhenOff(items: seq<ClothingItem>, s: Settings, favorites: seq<ClothingItem>, others: seq<ClothingItem>)
    requires !s.showFavoritesOnly
    ensures FilteredAndSorted(items, s, favorites) == FilteredAndSorted(items, s, others)
  {
    FilterAgrees(items, (item: ClothingItem) => Passes(item, s, favorites), (item: ClothingItem) => Passes(item, s, others));
  }

  /** A type other than 'all' shows only garments of that type. */
  lemma TypeFilterShowsThatType(items: seq<ClothingItem>, s: Settings, favorites: seq<ClothingItem>, i: nat)
    requires s.filterType != AllTypes
    requires i < |FilteredAndSorted(items, s, favorites)|
    ensures FilteredAndSorted(items, s, favorites)[i].kind.Name() == s.filterType
  {
    var r := FilteredAndSorted(items, s, favorites);
    assert r[i] in r;
  }

  /** The garment type of each item, in order. */
  function Kinds(items: seq<ClothingItem>): (r: seq<GarmentType>)
    ensures |r| == |items|
    ensures forall i :: 0 <= i < |items| ==> r[i] == items[i].kind
  {
    seq(|items|, i requires 0 <= i < |items| => items[i].kind)
  }

  /** `uniqueTypes`: each garment type of the items once, in order of first appearance. */
  function UniqueTypes(items: seq<ClothingItem>): (r: seq<GarmentType>)
    ensures Distinct(r)
    ensures forall t :: t in r <==> exists i :: 0 <= i < |items| && items[i].kind == t
    ensures FirstOccurrenceOrder(r, Kinds(items))
  {
    var kinds := Kinds(items);
    var r := Dedup(kinds);
    DedupOrder(kinds);
    assert forall t :: t in kinds <==> exists i :: 0 <= i < |items| && items[i].kind == t by {
      forall t ensures t in kinds <==> exists i :: 0 <= i < |items| && items[i].kind == t {
        if t in kinds {
          var i :| 0 <= i < |kinds| && kinds[i] == t;
          assert items[i].kind == t;
        }
      }
    }
    r
  }

  /** Clear filters: no search term, every type, favourites not required; the order and the view stay. */
  function ClearFilters(s: Settings): (r: Settings)
    ensures r.searchTerm == "" && r.filterType == AllTypes && !r.showFavoritesOnly
    ensures r.sortBy == s.sortBy && r.viewMode == s.viewMode
  {
    s.(searchTerm := "", filterType := AllTypes, showFavoritesOnly := false)
  }

  /** After clearing the filters every item is on the list again. */
  lemma ClearFiltersShowsEverything(items: seq<ClothingItem>, s: Settings, favorites: seq<ClothingItem>)
    ensures multiset(FilteredAndSorted(items, ClearFilters(s), favorites)) == multiset(items)
  {
    ClearedFiltersShowEverything(items, ClearFilters(s), favorites);
  }
}
