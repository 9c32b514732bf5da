/**
 * The product service itself: an object holding the current product list
 * and a cached count of it, seeded from the fixed table, with operations
 * that add and remove products and queries over the current list.
 */
module Service {
  import opened Wrappers
  import opened Sequences
  import opened Catalog
  import opened SeedData

  class ProductService {
    /** The current product list, in insertion order. */
    var products: seq<Product>
    /** The cached length of `products`, refreshed by every update. */
    var productCount: int

    /** The cached count agrees with the list. */
    ghost predicate Valid()
      reads this
    {
      productCount == |products|
    }

    /** A new service holds the fifteen seed products and a count of 15. */
    constructor ()
      ensures Valid()
      ensures products == SeedProducts()
      ensures productCount == 15
    {
      var seed := SeedProducts();
      products := seed;
      productCount := |seed|;
    }

    /** Appends one product at the end and refreshes the count. */
    method AddProduct(product: Product)
      modifies this
      ensures Valid()
      ensures products == old(products) + [product]
      ensures productCount == |old(products)| + 1
      ensures GetAllProductsCount() == old(GetAllProductsCount()) + 1
      ensures GetAllTags()[1..] == old(GetAllTags())[1..]
    {
      TagSummariesFixed(productCount, |products| + 1);
      products := products + [product];
      productCount := |products|;
    }

    /**
     * Drops every product with the id, keeping the others in order, and
     * refreshes the count. Afterwards the id is not found, the count fell
     * by the number of products that carried it, and an id nobody carried
     * leaves the list as it was.
     */
    method RemoveProductById(productId: int)
      modifies this
      ensures Valid()
      ensures products == WithoutProductId(old(products), productId)
      ensures forall x :: x in products <==> x in old(products) && x.productId != productId
      ensures productCount == |old(products)| - IdCount(old(products), productId)
      ensures GetProductById(productId).None?
      ensures (forall i :: 0 <= i < |old(products)| ==> old(products)[i].productId != productId) ==>
        products == old(products)
      ensures GetAllTags()[1..] == old(GetAllTags())[1..]
    {
      TagSummariesFixed(productCount, |WithoutProductId(products, productId)|);
      RemoveByIdExact(products, productId);
      if forall i :: 0 <= i < |products| ==> products[i].productId != productId {
        RemoveAbsentIdUnchanged(products, productId);
      }
      LookupAfterRemove(products, productId);
      products := WithoutProductId(products, productId);
      productCount := |products|;
    }

    /** The first product with the id, or None when no product carries it. */
    function GetProductById(id: int): (r: Option<Product>)
      reads this
      ensures r == ProductById(GetAllProducts(), id)
      ensures r.Some? ==> r.value in products && r.value.productId == id
      ensures r.None? <==> forall i :: 0 <= i < |products| ==> products[i].productId != id
    {
      ProductById(GetAllProducts(), id)
    }

    /** The products whose names contain the term, ignoring letter case, in list order. */
    function GetAllProductsBySearchTerm(searchTerm: string): (r: seq<Product>)
      reads this
      ensures r == ProductsBySearchTerm(products, searchTerm)
      ensures forall i :: 0 <= i < |r| ==> MatchesTerm(r[i], searchTerm)
      ensures |r| <= |products|
    {
      ProductsBySearchTerm(GetAllProducts(), searchTerm)
    }

    /** The tag summary table, with "All" showing the cached count. */
    function GetAllTags(): (r: seq<Tag>)
      reads this
      ensures r == TagSummaries(productCount)
      ensures |r| == 5
      ensures Valid() ==> r[0] == Tag(AllLabel, GetAllProductsCount())
    {
      TagSummaries(productCount)
    }

    /** Every product for "All", otherwise the products tagged exactly `tag`, in list order. */
    function GetAllProductsByTag(tag: string): (r: seq<Product>)
      reads this
      ensures r == ProductsByTag(products, tag)
      ensures tag == AllLabel ==> r == GetAllProducts()
      ensures tag != AllLabel ==> forall i :: 0 <= i < |r| ==> HasTag(r[i], tag)
    {
      if tag == AllLabel then GetAllProducts() else ProductsByTag(GetAllProducts(), tag)
    }

    /** The current product list. */
    function GetAllProducts(): (r: seq<Product>)
      reads this
      ensures r == products
    {
      products
    }

    /** The length of the current list (not the cached count). */
    function GetAllProductsCount(): (n: nat)
      reads this
      ensures n == |products|
    {
      |products|
    }
  }
}
