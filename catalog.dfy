/**
 * The catalog's records and the pure queries of ProductService, stated on a
 * plain sequence of products (the service applies them to its current list).
 */
module Catalog {
  import opened Wrappers
  import opened Sequences
  import opened Text

  /**
   * One catalog item. `tags` is optional in the record type: a product
   * without a tag list is never selected by a tag filter. The image path
   * and the description text are display data and are not carried.
   */
  datatype Product = Product(
    productId: int,
    productName: string,
    price: real,
    brand: string,
    rating: int,
    numOfReviews: int,
    organic: bool,
    tags: Option<seq<string>>)

  /** A tag label paired with the number shown beside it. */
  datatype Tag = Tag(name: string, count: int)

  /** The label that stands for "every product" in the tag filter. */
  const AllLabel: string := "All"

  /** The predicate of `product.productId == id` in the lookup: a product carries exactly one id. */
  predicate HasId(p: Product, id: int)
    ensures HasId(p, id) <==> id == p.productId
  {
    p.productId == id
  }

  /** The predicate of `item.productId !== productId` in the removal filter: the complement of HasId. */
  predicate KeepsId(p: Product, id: int)
    ensures KeepsId(p, id) <==> !HasId(p, id)
  {
    p.productId != id
  }

  /**
   * The name-search predicate: the lower-cased name contains the lower-cased
   * term. The empty term matches every product, and a matching term is never
   * longer than the name.
   */
  predicate MatchesTerm(p: Product, term: string)
    ensures term == "" ==> MatchesTerm(p, term)
    ensures MatchesTerm(p, term) ==> |term| <= |p.productName|
  {
    Includes(ToLower(p.productName), ToLower(term))
  }

  /**
   * `product.tags?.includes(tag)`: a product without a tag list never has
   * a tag; one with a list has exactly the tags listed in it.
   */
  predicate HasTag(p: Product, tag: string)
    ensures HasTag(p, tag) ==> p.tags.Some?
    ensures p.tags.Some? ==> (HasTag(p, tag) <==> tag in p.tags.value)
  {
    match p.tags
    case None => false
    case Some(ts) => tag in ts
  }

  /** The list that removing by id leaves behind: every product whose id differs. */
  function WithoutProductId(ps: seq<Product>, id: int): (r: seq<Product>)
    ensures forall i :: 0 <= i < |r| ==> r[i].productId != id
  {
    Filter(ps, p => KeepsId(p, id))
  }

  /** The first product of `ps` with the given id, or None when no product has it. */
  function ProductById(ps: seq<Product>, id: int): (r: Option<Product>)
    ensures r.Some? ==> exists i :: 0 <= i < |ps| && ps[i] == r.value && ps[i].productId == id && forall j :: 0 <= j < i ==> ps[j].productId != id
    ensures r.None? <==> forall i :: 0 <= i < |ps| ==> ps[i].productId != id
  {
    Find(ps, p => HasId(p, id))
  }

  /** The products whose name contains `term`, ignoring letter case. */
  function ProductsBySearchTerm(ps: seq<Product>, term: string): (r: seq<Product>)
    ensures forall i :: 0 <= i < |r| ==> MatchesTerm(r[i], term)
  {
    Filter(ps, p => MatchesTerm(p, term))
  }

  /** All products for the label "All"; otherwise the products tagged exactly `tag`. */
  function ProductsByTag(ps: seq<Product>, tag: string): (r: seq<Product>)
    ensures tag == AllLabel ==> r == ps
    ensures tag != AllLabel ==> forall i :: 0 <= i < |r| ==> HasTag(r[i], tag)
  {
    if tag == AllLabel then ps else Filter(ps, p => HasTag(p, tag))
  }

  /**
   * The tag summary table: "All" carries the given count, the other four
   * entries are fixed numbers.
   */
  function TagSummaries(allCount: int): (r: seq<Tag>)
    ensures |r| == 5 && r[0] == Tag(AllLabel, allCount)
    ensures forall k :: 1 <= k < |r| ==> r[k].name != AllLabel
  {
    [ Tag(AllLabel, allCount),
      Tag("Salads", 3),
      Tag("Breakfast", 2),
      Tag("Vegetables", 7),
      Tag("Beverages", 3) ]
  }

  /**
   * Entries 1 to 4 of the summary are the same fixed labels and counts
   * whatever the product count is.
   */
  lemma TagSummariesFixed(m: int, n: int)
    ensures TagSummaries(m)[1..] == TagSummaries(n)[1..]
    ensures TagSummaries(m)[1..] ==
      [Tag("Salads", 3), Tag("Breakfast", 2), Tag("Vegetables", 7), Tag("Beverages", 3)]
  {
  }

  // ---------------------------------------------------------------------
  // Removal by id

  /** The number of products of `ps` that carry the id. */
  function IdCount(ps: seq<Product>, id: int): (n: nat)
    ensures n <= |ps|
  {
    Count(ps, p => HasId(p, id))
  }

  /**
   * Removing by id removes every product with that id (duplicates included),
   * so the length drops by exactly the number of matches, and keeps the
   * others in their original relative order.
   */
  lemma RemoveByIdExact(ps: seq<Product>, id: int)
    ensures forall x :: x in WithoutProductId(ps, id) <==> x in ps && x.productId != id
    ensures |WithoutProductId(ps, id)| == |ps| - IdCount(ps, id)
    ensures |WithoutProductId(ps, id)| == |Selected(ps, p => KeepsId(p, id))|
    ensures forall k :: 0 <= k < |Selected(ps, p => KeepsId(p, id))| ==>
      WithoutProductId(ps, id)[k] == ps[Selected(ps, p => KeepsId(p, id))[k]]
  {
    FilterMembers(ps, p => KeepsId(p, id));
    FilterComplementLength(ps, p => HasId(p, id), p => KeepsId(p, id));
    FilterIsSelection(ps, p => KeepsId(p, id));
  }

  /** Removing an id that no product carries leaves the list as it was. */
  lemma RemoveAbsentIdUnchanged(ps: seq<Product>, id: int)
    requires forall i :: 0 <= i < |ps| ==> ps[i].productId != id
    ensures WithoutProductId(ps, id) == ps
  {
    FilterKeepsAll(ps, p => KeepsId(p, id));
  }

  /** After removing an id, looking it up finds nothing. */
  lemma LookupAfterRemove(ps: seq<Product>, id: int)
    ensures ProductById(WithoutProductId(ps, id), id).None?
  {
  }

  /** When ids are unique and the id is present, removal drops exactly one product. */
  lemma RemoveUniqueIdDropsOne(ps: seq<Product>, id: int)
    requires forall i, j :: 0 <= i < j < |ps| ==> ps[i].productId != ps[j].productId
    requires ProductById(ps, id).Some?
    ensures |WithoutProductId(ps, id)| == |ps| - 1
  {
    RemoveByIdExact(ps, id);
    CountSingle(ps, id);
  }

  /** With unique ids, an id that occurs occurs exactly once. */
  lemma {:induction false} CountSingle(ps: seq<Product>, id: int)
    requires forall i, j :: 0 <= i < j < |ps| ==> ps[i].productId != ps[j].productId
    requires exists i :: 0 <= i < |ps| && ps[i].productId == id
    ensures IdCount(ps, id) == 1
  {
    if ps[0].productId == id {
      CountNone(ps[1..], id);
    } else {
      var i :| 0 <= i < |ps| && ps[i].productId == id;
      assert ps[1..][i - 1].productId == id;
      CountSingle(ps[1..], id);
    }
  }

  /** An id that no product carries has count zero. */
  lemma {:induction false} CountNone(ps: seq<Product>, id: int)
    requires forall i :: 0 <= i < |ps| ==> ps[i].productId != id
    ensures IdCount(ps, id) == 0
  {
    if ps != [] {
      CountNone(ps[1..], id);
    }
  }

  // ---------------------------------------------------------------------
  // Name search

  /** The empty search term matches every product, so it returns the whole list. */
  lemma EmptyTermReturnsAll(ps: seq<Product>)
    ensures ProductsBySearchTerm(ps, "") == ps
  {
    FilterKeepsAll(ps, p => MatchesTerm(p, ""));
  }

  /** Two terms that lower-case to the same string give identical results. */
  lemma SearchIgnoresCase(ps: seq<Product>, t1: string, t2: string)
    requires ToLower(t1) == ToLower(t2)
    ensures ProductsBySearchTerm(ps, t1) == ProductsBySearchTerm(ps, t2)
  {
    FilterCongruence(ps, p => MatchesTerm(p, t1), p => MatchesTerm(p, t2));
  }

  /** Searching with the lower-cased term gives the same result as the term itself. */
  lemma SearchLowercasedTerm(ps: seq<Product>, term: string)
    ensures ProductsBySearchTerm(ps, ToLower(term)) == ProductsBySearchTerm(ps, term)
  {
    ToLowerIdempotent(term);
    SearchIgnoresCase(ps, ToLower(term), term);
  }

  /** In particular "milk" and "MILK" select the same products. */
  lemma SearchMilkIgnoresCase(ps: seq<Product>)
    ensures ProductsBySearchTerm(ps, "milk") == ProductsBySearchTerm(ps, "MILK")
  {
    assert ToLower("MILK") == "milk";
    SearchIgnoresCase(ps, "milk", "MILK");
  }

  /** A term matches a product exactly when the lower-cased term occurs at some position of the lower-cased name. */
  lemma MatchesTermIffOccurs(p: Product, term: string)
    ensures MatchesTerm(p, term) <==> exists i :: OccursAt(ToLower(p.productName), ToLower(term), i)
  {
    assert MatchesTerm(p, term) == Includes(ToLower(p.productName), ToLower(term));
    IncludesIffOccurs(ToLower(p.productName), ToLower(term));
  }

  /** The search result is the order-preserving subsequence of the matching products. */
  lemma SearchIsOrderedSelection(ps: seq<Product>, term: string)
    ensures forall x :: x in ProductsBySearchTerm(ps, term) <==> x in ps && MatchesTerm(x, term)
    ensures |ProductsBySearchTerm(ps, term)| == |Selected(ps, p => MatchesTerm(p, term))|
    ensures forall k :: 0 <= k < |Selected(ps, p => MatchesTerm(p, term))| ==>
      ProductsBySearchTerm(ps, term)[k] == ps[Selected(ps, p => MatchesTerm(p, term))[k]]
  {
    FilterMembers(ps, p => MatchesTerm(p, term));
    FilterIsSelection(ps, p => MatchesTerm(p, term));
  }

  // ---------------------------------------------------------------------
  // Tag filter

  /** Any label other than "All" selects the order-preserving subsequence of the products carrying it. */
  lemma TagFilterIsOrderedSelection(ps: seq<Product>, tag: string)
    requires tag != AllLabel
    ensures forall x :: x in ProductsByTag(ps, tag) <==> x in ps && HasTag(x, tag)
    ensures |ProductsByTag(ps, tag)| == |Selected(ps, p => HasTag(p, tag))|
    ensures forall k :: 0 <= k < |Selected(ps, p => HasTag(p, tag))| ==>
      ProductsByTag(ps, tag)[k] == ps[Selected(ps, p => HasTag(p, tag))[k]]
  {
    FilterMembers(ps, p => HasTag(p, tag));
    FilterIsSelection(ps, p => HasTag(p, tag));
  }

  /** A product without a tag list is never selected by a label other than "All". */
  lemma UntaggedNeverSelected(ps: seq<Product>, tag: string, x: Product)
    requires tag != AllLabel && x.tags.None?
    ensures x !in ProductsByTag(ps, tag)
  {
  }
}
