/**
 * The fixed table of fifteen products the service is seeded with
 * (`setAllProducts`), and what is proved about it.
 */
module SeedData {
  import opened Wrappers
  import opened Sequences
  import opened Catalog

  /**
   * The literal seed table, in its original order. The table lists its
   * products grouped by their single tag, so it is written here as the
   * concatenation of those four groups.
   */
  function SeedProducts(): (r: seq<Product>)
    ensures |r| == 15
    ensures forall i :: 0 <= i < |r| ==> r[i].productId == i + 1
    ensures forall i :: 0 <= i < |r| ==> r[i].tags.Some? && |r[i].tags.value| == 1
  {
    BeverageItems() + BreakfastItems() + VegetableItems() + SaladItems()
  }

  /** The seed products with ids 1 to 3, each tagged "Beverages". */
  function BeverageItems(): (r: seq<Product>)
    ensures |r| == 3
    ensures forall i :: 0 <= i < |r| ==> r[i].productId == i + 1 && r[i].tags == Some(["Beverages"])
  {
    [
      Product(
        productId := 1,
        productName := "7 Up",
        price := 98.0,
        brand := "Coca Cola",
        rating := 4,
        numOfReviews := 9,
        organic := true,
        tags := Some(["Beverages"])),
      Product(
        productId := 2,
        productName := "Sprite",
        price := 87.0,
        brand := "Coca Cola",
        rating := 3,
        numOfReviews := 17,
        organic := true,
        tags := Some(["Beverages"])),
      Product(
        productId := 3,
        productName := "Appy Fizz",
        price := 49.0,
        brand := "Coca Cola",
        rating := 5,
        numOfReviews := 7,
        organic := true,
        tags := Some(["Beverages"]))
    ]
  }

  /** The seed products with ids 4 and 5, each tagged "Breakfast". */
  function BreakfastItems(): (r: seq<Product>)
    ensures |r| == 2
    ensures forall i :: 0 <= i < |r| ==> r[i].productId == i + 4 && r[i].tags == Some(["Breakfast"])
  {
    [
      Product(
        productId := 4,
        productName := "Milk (1 litre)",
        price := 56.0,
        brand := "Amul",
        rating := 4,
        numOfReviews := 70,
        organic := true,
        tags := Some(["Breakfast"])),
      Product(
        productId := 5,
        productName := "Bread",
        price := 87.0,
        brand := "Brittania",
        rating := 4,
        numOfReviews := 715,
        organic := true,
        tags := Some(["Breakfast"]))
    ]
  }

  /** The seed products with ids 6 to 12, each tagged "Vegetables". */
  function VegetableItems(): (r: seq<Product>)
    ensures |r| == 7
    ensures forall i :: 0 <= i < |r| ==> r[i].productId == i + 6 && r[i].tags == Some(["Vegetables"])
  {
    [
      Product(
        productId := 6,
        productName := "Capsicum(1 kg)",
        price := 53.5,
        brand := "FreshO",
        rating := 4,
        numOfReviews := 71,
        organic := true,
        tags := Some(["Vegetables"])),
      Product(
        productId := 7,
        productName := "Potato (2kg)",
        price := 55.0,
        brand := "FreshO",
        rating := 5,
        numOfReviews := 131,
        organic := true,
        tags := Some(["Vegetables"])),
      Product(
        productId := 8,
        productName := "Tomato (1kg)",
        price := 25.0,
        brand := "FreshO",
        rating := 4,
        numOfReviews := 11,
        organic := true,
        tags := Some(["Vegetables"])),
      Product(
        productId := 9,
        productName := "Coriander Leaves (250 g)",
        price := 16.0,
        brand := "FreshO",
        rating := 5,
        numOfReviews := 110,
        organic := true,
        tags := Some(["Vegetables"])),
      Product(
        productId := 10,
        productName := "Cauliflower (1 kg)",
        price := 41.0,
        brand := "FreshO",
        rating := 3,
        numOfReviews := 113,
        organic := true,
        tags := Some(["Vegetables"])),
      Product(
        productId := 11,
        productName := "Bottle gourd (1 kg)",
        price := 20.0,
        brand := "FreshO",
        rating := 4,
        numOfReviews := 104,
        organic := true,
        tags := Some(["Vegetables"])),
      Product(
        productId := 12,
        productName := "Broccoli (1 kg)",
        price := 54.0,
        brand := "FreshO",
        rating := 5,
        numOfReviews := 11,
        organic := true,
        tags := Some(["Vegetables"]))
    ]
  }

  /** The seed products with ids 13 to 15, each tagged "Salads". */
  function SaladItems(): (r: seq<Product>)
    ensures |r| == 3
    ensures forall i :: 0 <= i < |r| ==> r[i].productId == i + 13 && r[i].tags == Some(["Salads"])
  {
    [
      Product(
        productId := 13,
        productName := "Orange Carrots (1kg)",
        price := 54.0,
        brand := "FreshO",
        rating := 4,
        numOfReviews := 11,
        organic := true,
        tags := Some(["Salads"])),
      Product(
        productId := 14,
        productName := "Cucumber (1kg)",
        price := 42.0,
        brand := "FreshO",
        rating := 4,
        numOfReviews := 13,
        organic := true,
        tags := Some(["Salads"])),
      Product(
        productId := 15,
        productName := "Beetroot (1kg)",
        price := 38.0,
        brand := "FreshO",
        rating := 4,
        numOfReviews := 10,
        organic := true,
        tags := Some(["Salads"]))
    ]
  }

  /** No two seed products share an id. */
  lemma SeedIdsDistinct()
    ensures forall i, j :: 0 <= i < j < |SeedProducts()| ==>
      SeedProducts()[i].productId != SeedProducts()[j].productId
  {
    var s := SeedProducts();
    assert forall i :: 0 <= i < |s| ==> s[i].productId == i + 1;
  }

  /** Within one tag group, a label selects the whole group or nothing. */
  lemma {:induction false} GroupSelection(g: seq<Product>, t: string, tag: string)
    requires forall i :: 0 <= i < |g| ==> g[i].tags == Some([t])
    ensures tag == t ==> Filter(g, p => HasTag(p, tag)) == g
    ensures tag != t ==> Filter(g, p => HasTag(p, tag)) == []
  {
    if tag == t {
      FilterKeepsAll(g, p => HasTag(p, tag));
    } else {
      FilterKeepsNone(g, p => HasTag(p, tag));
    }
  }

  /** A table made of four single-tag groups is filtered group by group. */
  lemma ByGroups(a: seq<Product>, b: seq<Product>, c: seq<Product>, d: seq<Product>, tag: string)
    requires tag != AllLabel
    ensures ProductsByTag(a + b + c + d, tag) ==
      Filter(a, p => HasTag(p, tag)) + Filter(b, p => HasTag(p, tag)) +
      Filter(c, p => HasTag(p, tag)) + Filter(d, p => HasTag(p, tag))
  {
    FilterConcat(a + b + c, d, p => HasTag(p, tag));
    FilterConcat(a + b, c, p => HasTag(p, tag));
    FilterConcat(a, b, p => HasTag(p, tag));
  }

  /**
   * In a table laid out like the seed (a Beverages group, then Breakfast,
   * then Vegetables, then Salads), each of the four labels selects exactly
   * its own group.
   */
  lemma LayoutSelection(a: seq<Product>, b: seq<Product>, c: seq<Product>, d: seq<Product>)
    requires forall i :: 0 <= i < |a| ==> a[i].tags == Some(["Beverages"])
    requires forall i :: 0 <= i < |b| ==> b[i].tags == Some(["Breakfast"])
    requires forall i :: 0 <= i < |c| ==> c[i].tags == Some(["Vegetables"])
    requires forall i :: 0 <= i < |d| ==> d[i].tags == Some(["Salads"])
    ensures ProductsByTag(a + b + c + d, "Beverages") == a
    ensures ProductsByTag(a + b + c + d, "Breakfast") == b
    ensures ProductsByTag(a + b + c + d, "Vegetables") == c
    ensures ProductsByTag(a + b + c + d, "Salads") == d
  {
    assert ProductsByTag(a + b + c + d, "Beverages") == a + [] + [] + [] by {
      ByGroups(a, b, c, d, "Beverages");
      GroupSelection(a, "Beverages", "Beverages");
      GroupSelection(b, "Breakfast", "Beverages");
      GroupSelection(c, "Vegetables", "Beverages");
      GroupSelection(d, "Salads", "Beverages");
    }
    assert ProductsByTag(a + b + c + d, "Breakfast") == [] + b + [] + [] by {
      ByGroups(a, b, c, d, "Breakfast");
      GroupSelection(a, "Beverages", "Breakfast");
      GroupSelection(b, "Breakfast", "Breakfast");
      GroupSelection(c, "Vegetables", "Breakfast");
      GroupSelection(d, "Salads", "Breakfast");
    }
    assert ProductsByTag(a + b + c + d, "Vegetables") == [] + [] + c + [] by {
      ByGroups(a, b, c, d, "Vegetables");
      GroupSelection(a, "Beverages", "Vegetables");
      GroupSelection(b, "Breakfast", "Vegetables");
      GroupSelection(c, "Vegetables", "Vegetables");
      GroupSelection(d, "Salads", "Vegetables");
    }
    assert ProductsByTag(a + b + c + d, "Salads") == [] + [] + [] + d by {
      ByGroups(a, b, c, d, "Salads");
      GroupSelection(a, "Beverages", "Salads");
      GroupSelection(b, "Breakfast", "Salads");
      GroupSelection(c, "Vegetables", "Salads");
      GroupSelection(d, "Salads", "Salads");
    }
  }

  /** On the seed, each of the four labels selects exactly its group of the table, in order. */
  lemma SeedSelection()
    ensures ProductsByTag(SeedProducts(), "Beverages") == BeverageItems()
    ensures ProductsByTag(SeedProducts(), "Breakfast") == BreakfastItems()
    ensures ProductsByTag(SeedProducts(), "Vegetables") == VegetableItems()
    ensures ProductsByTag(SeedProducts(), "Salads") == SaladItems()
  {
    LayoutSelection(BeverageItems(), BreakfastItems(), VegetableItems(), SaladItems());
  }

  /** On the seed, the label "Beverages" selects the products with ids 1, 2 and 3, in that order. */
  lemma SeedBeverages()
    ensures |ProductsByTag(SeedProducts(), "Beverages")| == 3
    ensures ProductsByTag(SeedProducts(), "Beverages")[0].productId == 1
    ensures ProductsByTag(SeedProducts(), "Beverages")[1].productId == 2
    ensures ProductsByTag(SeedProducts(), "Beverages")[2].productId == 3
  {
    SeedSelection();
  }

  /**
   * On the seed, each fixed count of the tag summary table equals the number
   * of products the tag filter selects for that label (Salads 3, Breakfast 2,
   * Vegetables 7, Beverages 3).
   */
  lemma SeedTagCountsAgree()
    ensures forall k :: 1 <= k < 5 ==>
      TagSummaries(|SeedProducts()|)[k].count ==
      |ProductsByTag(SeedProducts(), TagSummaries(|SeedProducts()|)[k].name)|
  {
    LayoutCounts(BeverageItems(), BreakfastItems(), VegetableItems(), SaladItems());
  }

  /**
   * In a table laid out like the seed with groups of 3, 2, 7 and 3 products,
   * the fixed counts of the summary table are the live counts.
   */
  lemma LayoutCounts(a: seq<Product>, b: seq<Product>, c: seq<Product>, d: seq<Product>)
    requires forall i :: 0 <= i < |a| ==> a[i].tags == Some(["Beverages"])
    requires forall i :: 0 <= i < |b| ==> b[i].tags == Some(["Breakfast"])
    requires forall i :: 0 <= i < |c| ==> c[i].tags == Some(["Vegetables"])
    requires forall i :: 0 <= i < |d| ==> d[i].tags == Some(["Salads"])
    requires |a| == 3 && |b| == 2 && |c| == 7 && |d| == 3
    ensures forall k :: 1 <= k < 5 ==>
      TagSummaries(|a + b + c + d|)[k].count ==
      |ProductsByTag(a + b + c + d, TagSummaries(|a + b + c + d|)[k].name)|
  {
    LayoutSelection(a, b, c, d);
    var summary := TagSummaries(|a + b + c + d|);
    forall k | 1 <= k < 5
      ensures summary[k].count == |ProductsByTag(a + b + c + d, summary[k].name)|
    {
      if k == 1 {
        assert summary[k] == Tag("Salads", 3);
      } else if k == 2 {
        assert summary[k] == Tag("Breakfast", 2);
      } else if k == 3 {
        assert summary[k] == Tag("Vegetables", 7);
      } else {
        assert summary[k] == Tag("Beverages", 3);
      }
    }
  }

  /**
   * From the seed, the count is 15; removing id 5 leaves 14 products, and
   * id 5 is then no longer found.
   */
  lemma SeedRemoveFive()
    ensures |SeedProducts()| == 15
    ensures ProductById(SeedProducts(), 5) == Some(SeedProducts()[4])
    ensures |WithoutProductId(SeedProducts(), 5)| == 14
    ensures ProductById(WithoutProductId(SeedProducts(), 5), 5).None?
  {
    SeedIdsDistinct();
    RemoveUniqueIdDropsOne(SeedProducts(), 5);
    LookupAfterRemove(SeedProducts(), 5);
  }
}
