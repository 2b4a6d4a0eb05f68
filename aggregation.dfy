/** The aggregator: per-category price totals and item counts over the
    reconstructed unique records. */
module Aggregation {
  import opened Json

  /** item.get("category"), when it is truthy; a missing field reads as null. */
  function CategoryOf(item: Record): Option<Value>
  {
    if "category" in item && Truthy(item["category"]) then Some(item["category"]) else None
  }

  /** item.get("price", 0), when it is a number. */
  function PriceOf(item: Record): Option<int>
  {
    if "price" !in item then Some(0)
    else if item["price"].Int? then Some(item["price"].n)
    else None
  }

  /** The sum of the prices of the items that have category c and a price. */
  function PriceSum(items: seq<Record>, c: Value): int
    decreases |items|
  {
    if items == [] then 0
    else
      var last := items[|items| - 1];
      PriceSum(items[..|items| - 1], c)
      + if CategoryOf(last) == Some(c) && PriceOf(last).Some? then PriceOf(last).value else 0
  }

  /** The categories of the items that have both a truthy category and a price. */
  function PricedCategories(items: seq<Record>): set<Value>
    decreases |items|
  {
    if items == [] then {}
    else
      var last := items[|items| - 1];
      PricedCategories(items[..|items| - 1])
      + if CategoryOf(last).Some? && PriceOf(last).Some? then {CategoryOf(last).value} else {}
  }

  /** The number of items whose category is c. */
  function ItemCount(items: seq<Record>, c: Value): nat
    decreases |items|
  {
    if items == [] then 0
    else ItemCount(items[..|items| - 1], c) + if CategoryOf(items[|items| - 1]) == Some(c) then 1 else 0
  }

  /** The categories of the items that have a truthy category. */
  function CountedCategories(items: seq<Record>): set<Value>
    decreases |items|
  {
    if items == [] then {}
    else
      var last := items[|items| - 1];
      CountedCategories(items[..|items| - 1]) + if CategoryOf(last).Some? then {CategoryOf(last).value} else {}
  }

  /** The price loop: adds each numeric price to its truthy category's total. */
  method TotalPricePerCategory(items: seq<Record>) returns (totals: map<Value, int>)
    ensures totals.Keys == PricedCategories(items)
    ensures forall c :: c in totals ==> totals[c] == PriceSum(items, c)
  {
    totals := map[];
    for i := 0 to |items|
      invariant totals.Keys == PricedCategories(items[..i])
      invariant forall c :: c in totals ==> totals[c] == PriceSum(items[..i], c)
    {
      var item := items[i];
      assert (items[..i] + [item])[..i] == items[..i];
      assert items[..i + 1] == items[..i] + [item];
      var category := if "category" in item then item["category"] else Null;
      var price := if "price" in item then item["price"] else Int(0);
      if Truthy(category) && price.Int? {
        if category !in totals {
          PriceSumOutside(items[..i], category);
        }
        totals := totals[category := (if category in totals then totals[category] else 0) + price.n];
      }
    }
    assert items[..|items|] == items;
  }

  /** The count loop: adds one to each truthy category's count. */
  method TotalItemsPerCategory(items: seq<Record>) returns (counts: map<Value, int>)
    ensures counts.Keys == CountedCategories(items)
    ensures forall c :: c in counts ==> counts[c] == ItemCount(items, c) && counts[c] >= 1
  {
    counts := map[];
    for i := 0 to |items|
      invariant counts.Keys == CountedCategories(items[..i])
      invariant forall c :: c in counts ==> counts[c] == ItemCount(items[..i], c) && counts[c] >= 1
    {
      var item := items[i];
      assert (items[..i] + [item])[..i] == items[..i];
      assert items[..i + 1] == items[..i] + [item];
      var category := if "category" in item then item["category"] else Null;
      if Truthy(category) {
        ItemCountPositive(items[..i], category);
        counts := counts[category := (if category in counts then counts[category] else 0) + 1];
      }
    }
    assert items[..|items|] == items;
  }

  // ---------------------------------------------------------------------
  // Lemmas about the aggregate specification

  /** A category has a price total iff some item has it with a numeric price. */
  lemma {:induction false} PricedCategoriesWitness(items: seq<Record>, c: Value)
    ensures c in PricedCategories(items)
            <==> exists i :: 0 <= i < |items| && CategoryOf(items[i]) == Some(c) && PriceOf(items[i]).Some?
    decreases |items|
  {
    if items != [] {
      var init := items[..|items| - 1];
      PricedCategoriesWitness(init, c);
      assert forall i :: 0 <= i < |init| ==> init[i] == items[i];
    }
  }

  /** A category has an item count iff some item has it. */
  lemma {:induction false} CountedCategoriesWitness(items: seq<Record>, c: Value)
    ensures c in CountedCategories(items) <==> exists i :: 0 <= i < |items| && CategoryOf(items[i]) == Some(c)
    decreases |items|
  {
    if items != [] {
      var init := items[..|items| - 1];
      CountedCategoriesWitness(init, c);
      assert forall i :: 0 <= i < |init| ==> init[i] == items[i];
    }
  }

  /** Counted categories are exactly those with a positive count. */
  lemma {:induction false} ItemCountPositive(items: seq<Record>, c: Value)
    ensures c in CountedCategories(items) <==> ItemCount(items, c) >= 1
    decreases |items|
  {
    if items != [] {
      ItemCountPositive(items[..|items| - 1], c);
    }
  }

  /** Every category with a price total also has an item count. */
  lemma {:induction false} PricedAreCounted(items: seq<Record>)
    ensures PricedCategories(items) <= CountedCategories(items)
    decreases |items|
  {
    if items != [] {
      PricedAreCounted(items[..|items| - 1]);
    }
  }

  /** A category no item is priced under has a zero total. */
  lemma {:induction false} PriceSumOutside(items: seq<Record>, c: Value)
    requires c !in PricedCategories(items)
    ensures PriceSum(items, c) == 0
    decreases |items|
  {
    if items != [] {
      PriceSumOutside(items[..|items| - 1], c);
    }
  }

  /** Both aggregates, for one category, distribute over concatenation. */
  lemma {:induction false} AggregateConcat(a: seq<Record>, b: seq<Record>, c: Value)
    ensures c in PricedCategories(a + b) <==> c in PricedCategories(a) || c in PricedCategories(b)
    ensures c in CountedCategories(a + b) <==> c in CountedCategories(a) || c in CountedCategories(b)
    ensures PriceSum(a + b, c) == PriceSum(a, c) + PriceSum(b, c)
    ensures ItemCount(a + b, c) == ItemCount(a, c) + ItemCount(b, c)
    decreases |b|
  {
    if b == [] {
      assert a + b == a;
    } else {
      var b' := b[..|b| - 1];
      assert (a + b)[..|a + b| - 1] == a + b';
      AggregateConcat(a, b', c);
    }
  }

  /** Order independence, for one category: the aggregates depend only on the
      multiset of items. */
  lemma {:induction false} AggregatePermutationAt(a: seq<Record>, b: seq<Record>, c: Value)
    requires multiset(a) == multiset(b)
    ensures c in PricedCategories(a) <==> c in PricedCategories(b)
    ensures c in CountedCategories(a) <==> c in CountedCategories(b)
    ensures PriceSum(a, c) == PriceSum(b, c)
    ensures ItemCount(a, c) == ItemCount(b, c)
    decreases |a|
  {
    if a == [] {
      assert |b| == |multiset(b)| == 0;
    } else {
      var x, a' := a[|a| - 1], a[..|a| - 1];
      assert a == a' + [x];
      var b1, b2 := PermutationSplit(a, b);
      AggregatePermutationAt(a', b1 + b2, c);
      AggregateConcat(a', [x], c);
      AggregateConcat(b1, [x], c);
      AggregateConcat(b1 + [x], b2, c);
      AggregateConcat(b1, b2, c);
    }
  }

  /** Order independence: permuting the items changes neither aggregate. */
  lemma AggregatePermutation(a: seq<Record>, b: seq<Record>)
    requires multiset(a) == multiset(b)
    ensures PricedCategories(a) == PricedCategories(b)
    ensures CountedCategories(a) == CountedCategories(b)
    ensures forall c :: PriceSum(a, c) == PriceSum(b, c) && ItemCount(a, c) == ItemCount(b, c)
  {
    forall c
      ensures (c in PricedCategories(a) <==> c in PricedCategories(b))
      ensures (c in CountedCategories(a) <==> c in CountedCategories(b))
      ensures PriceSum(a, c) == PriceSum(b, c) && ItemCount(a, c) == ItemCount(b, c)
    {
      AggregatePermutationAt(a, b, c);
    }
  }

  /** An item without a truthy category, or with a non-numeric price, adds
      nothing to the price totals wherever it stands in the list. */
  lemma UnpricedItemIgnored(a: seq<Record>, e: Record, b: seq<Record>)
    requires CategoryOf(e).None? || PriceOf(e).None?
    ensures PricedCategories(a + [e] + b) == PricedCategories(a + b)
    ensures forall c :: PriceSum(a + [e] + b, c) == PriceSum(a + b, c)
  {
    assert [e][..0] == [];
    forall c
      ensures (c in PricedCategories(a + [e] + b) <==> c in PricedCategories(a + b))
      ensures PriceSum(a + [e] + b, c) == PriceSum(a + b, c)
    {
      AggregateConcat(a, [e], c);
      AggregateConcat(a + [e], b, c);
      AggregateConcat(a, b, c);
    }
  }

  /** An item with a truthy category is counted once for it, whatever its price. */
  lemma CategorisedItemCounted(a: seq<Record>, e: Record, b: seq<Record>)
    requires CategoryOf(e).Some?
    ensures CountedCategories(a + [e] + b) == CountedCategories(a + b) + {CategoryOf(e).value}
    ensures ItemCount(a + [e] + b, CategoryOf(e).value) == ItemCount(a + b, CategoryOf(e).value) + 1
  {
    assert [e][..0] == [];
    forall c
      ensures (c in CountedCategories(a + [e] + b) <==> c in CountedCategories(a + b) + {CategoryOf(e).value})
      ensures ItemCount(a + [e] + b, c) == ItemCount(a + b, c) + if c == CategoryOf(e).value then 1 else 0
    {
      AggregateConcat(a, [e], c);
      AggregateConcat(a + [e], b, c);
      AggregateConcat(a, b, c);
    }
  }
}
