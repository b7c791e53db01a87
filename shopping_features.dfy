/**
 * The product comparison of the shopping panel
 * (src/components/ShoppingFeatures.tsx): at most three products, each at
 * most once, added at the end, removed by id, cleared all at once.
 */
module ShoppingFeatures {
  import opened Collections
  import opened FashionTypes

  /** The comparison holds at most this many products. */
  const MaxCompared: nat := 3

  /** Some entry has the id (`find(i => i.id === id)` is truthy). */
  predicate HasId(items: seq<ClothingRecommendation>, id: string) {
    exists i :: 0 <= i < |items| && items[i].id == id
  }

  /** No two entries share an id. */
  predicate DistinctIds(items: seq<ClothingRecommendation>) {
    forall i, j :: 0 <= i < j < |items| ==> items[i].id != items[j].id
  }

  /** A comparison the panel can hold: three entries at most, ids distinct. */
  predicate ValidComparison(items: seq<ClothingRecommendation>) {
    |items| <= MaxCompared && DistinctIds(items)
  }

  /**
   * `addToCompare`: the item goes at the end when there is room and no entry
   * has its id; otherwise the list is unchanged.
   */
  function AddToCompare(items: seq<ClothingRecommendation>, item: ClothingRecommendation): (r: seq<ClothingRecommendation>)
    ensures |items| < MaxCompared && !HasId(items, item.id) ==> r == items + [item]
    ensures |items| >= MaxCompared || HasId(items, item.id) ==> r == items
    ensures ValidComparison(items) ==> ValidComparison(r)
    ensures HasId(r, item.id) <==> (HasId(items, item.id) || |items| < MaxCompared)
  {
    if |items| < MaxCompared && !HasId(items, item.id) then
      var r := items + [item];
      assert r[|items|].id == item.id;
      r
    else items
  }

  /** `removeFromCompare`: every entry with the id goes, the others stay in order. */
  function RemoveFromCompare(items: seq<ClothingRecommendation>, id: string): (r: seq<ClothingRecommendation>)
    ensures !HasId(r, id)
    ensures forall x :: x in r <==> x in items && x.id != id
    ensures DistinctIds(items) ==> DistinctIds(r)
    ensures |r| <= |items|
  {
    var r := Filter(items, (x: ClothingRecommendation) => x.id != id);
    assert !HasId(r, id) by {
      forall i | 0 <= i < |r| ensures r[i].id != id {
        assert r[i] in r;
      }
    }
    KeepsDistinctIds(items, id);
    r
  }

  lemma {:induction false} KeepsDistinctIds(items: seq<ClothingRecommendation>, id: string)
    ensures DistinctIds(items) ==> DistinctIds(Filter(items, (x: ClothingRecommendation) => x.id != id))
  {
    if items != [] && DistinctIds(items) {
      var rest := items[1..];
      KeepsDistinctIds(rest, id);
      var f := Filter(rest, (x: ClothingRecommendation) => x.id != id);
      forall j | 0 <= j < |f| ensures f[j].id != items[0].id {
        assert f[j] in rest;
      }
    }
  }

  /**
   * Removal works entry by entry and keeps the order: removing from two
   * lists joined is removing from each, and a single entry stays iff its id
   * differs.
   */
  lemma RemoveKeepsOrder(a: seq<ClothingRecommendation>, b: seq<ClothingRecommendation>, id: string)
    ensures RemoveFromCompare(a + b, id) == RemoveFromCompare(a, id) + RemoveFromCompare(b, id)
  {
    FilterConcat(a, b, (x: ClothingRecommendation) => x.id != id);
  }

  lemma RemoveSingle(item: ClothingRecommendation, id: string)
    ensures RemoveFromCompare([item], id) == if item.id == id then [] else [item]
  {
    FilterSingle(item, (x: ClothingRecommendation) => x.id != id);
  }

  /** Removing an id nobody has changes nothing. */
  lemma RemoveAbsent(items: seq<ClothingRecommendation>, id: string)
    requires !HasId(items, id)
    ensures RemoveFromCompare(items, id) == items
  {
    FilterAllPass(items, (x: ClothingRecommendation) => x.id != id);
  }

  /** Removing a product just added restores the comparison. */
  lemma RemoveUndoesAdd(items: seq<ClothingRecommendation>, item: ClothingRecommendation)
    requires !HasId(items, item.id)
    ensures RemoveFromCompare(AddToCompare(items, item), item.id) == items
  {
    var keep := (x: ClothingRecommendation) => x.id != item.id;
    RemoveAbsent(items, item.id);
    if |items| < MaxCompared {
      FilterConcat(items, [item], keep);
      assert Filter([item], keep) == [];
      assert items + [] == items;
    }
  }

  /** Adding the same product twice is the same as adding it once. */
  lemma AddIdempotent(items: seq<ClothingRecommendation>, item: ClothingRecommendation)
    ensures AddToCompare(AddToCompare(items, item), item) == AddToCompare(items, item)
  {
  }

  /** The comparison shown by the panel. */
  class CompareList {
    var items: seq<ClothingRecommendation>

    constructor()
      ensures items == []
    {
      items := [];
    }

    method Add(item: ClothingRecommendation)
      modifies this
      ensures items == AddToCompare(old(items), item)
    {
      if |items| < MaxCompared && !HasId(items, item.id) {
        items := items + [item];
      }
    }

    method Remove(id: string)
      modifies this
      ensures items == RemoveFromCompare(old(items), id)
    {
      items := RemoveFromCompare(items, id);
    }

    /** Clear All. */
    method Clear()
      modifies this
      ensures items == []
    {
      items := [];
    }
  }
}
