# KitchenStory product service, modelled in Dafny

KitchenStory is an online grocery front end. Its `ProductService` keeps
the store's product catalogue in memory. The catalogue starts as a fixed
table of fifteen products, and a cached product count is kept beside it.
The service offers these operations:

- add a product;
- remove products by id;
- look a product up by id;
- search names without regard to letter case;
- filter by tag, where "All" means every product;
- build the tag summary shown in the sidebar.

The project is organised as follows:

- `Service.ProductService` is a class with the same two fields as the
  source, `products` and `productCount`. `Valid()` states that the
  count is the list length. The constructor, `AddProduct` and
  `RemoveProductById` update those fields in place and re-establish
  `Valid()`. Every query is a function that reads the object.
- `Catalog` holds the `Product` and `Tag` records. It also states
  each query as a pure function over a product sequence, and proves what
  the service promises about those functions.
- `SeedData` is the fifteen-product seed table, with facts about it.
  These include the demonstration scenario: the count is 15, and removing
  id 5 leaves 14 products with id 5 gone.
- `Sequences` models the two array operations the queries use,
  `filter` and `find`. Beside them are independent descriptions: the
  set of kept elements, and the increasing list of selected positions.
- `Text` models `toLowerCase` and `includes`.
- `Wrappers` holds `Option`. A lookup returns `None` where the
  source returns `undefined`.

Three details of the source shape the model:

- **Lookup of an unknown id.** `getProductById` is declared to return a
  `Product` (lines 34 and 38) and ends its `find` call with `!`, but `!`
  is a compile-time assertion only: an unknown id yields `undefined` at
  run time. The model therefore returns an `Option` and has no
  precondition.
- **The "All" count in `getAllTags`.** It reads the cached
  `productCount` field (line 65), not the list length. The model does the
  same; the two agree whenever `Valid()` holds, and every operation keeps
  it.
- **The other four tag counts** are literals (lines 66-69).
  `SeedData.SeedTagCountsAgree` shows that they match the seed table;
  they stay the same after products are added or removed, and so can go
  stale.

## Model

| member | source | states |
|---|---|---|
| Service.ProductService.constructor | Module5_Project1_KitchenStory-main/KitchenStory_frontendproject/src/app/services/product/product.service.ts:15-18 | the new service holds exactly the seed table, its cached count is 15, and the invariant holds |
| Service.ProductService.AddProduct | Module5_Project1_KitchenStory-main/KitchenStory_frontendproject/src/app/services/product/product.service.ts:21-24 | the product is appended after every existing one, the count grows by one and agrees with the list again, and the four fixed tag entries are unchanged |
| Service.ProductService.RemoveProductById | Module5_Project1_KitchenStory-main/KitchenStory_frontendproject/src/app/services/product/product.service.ts:26-29 | the new list is the old one without the products carrying the id (membership both ways), the count drops by the number of such products, the id is no longer found, an absent id leaves the list unchanged, and the four fixed tag entries are unchanged |
| Service.ProductService.GetProductById | Module5_Project1_KitchenStory-main/KitchenStory_frontendproject/src/app/services/product/product.service.ts:38-40 | the result is the first product of the current list with the id, and None exactly when no product carries it |
| Service.ProductService.GetAllProductsBySearchTerm | Module5_Project1_KitchenStory-main/KitchenStory_frontendproject/src/app/services/product/product.service.ts:49-52 | every returned product matches the term case-insensitively and the result is the catalog search over the current list |
| Service.ProductService.GetAllTags | Module5_Project1_KitchenStory-main/KitchenStory_frontendproject/src/app/services/product/product.service.ts:62-73 | five entries, the first being "All" with the product count whenever the invariant holds; the summary function it returns has the fixed entries of Catalog.TagSummariesFixed |
| Service.ProductService.GetAllProductsByTag | Module5_Project1_KitchenStory-main/KitchenStory_frontendproject/src/app/services/product/product.service.ts:82-88 | "All" returns the current list itself; any other tag returns only products carrying that tag |
| Service.ProductService.GetAllProducts | Module5_Project1_KitchenStory-main/KitchenStory_frontendproject/src/app/services/product/product.service.ts:98-100 | the current product list |
| Service.ProductService.GetAllProductsCount | Module5_Project1_KitchenStory-main/KitchenStory_frontendproject/src/app/services/product/product.service.ts:102-104 | the length of the current list |
| Catalog.HasId | Module5_Project1_KitchenStory-main/KitchenStory_frontendproject/src/app/services/product/product.service.ts:39 | the lookup test holds exactly for the product's own id |
| Catalog.KeepsId | Module5_Project1_KitchenStory-main/KitchenStory_frontendproject/src/app/services/product/product.service.ts:27 | the removal test `!==` holds exactly when the lookup test does not |
| Catalog.MatchesTerm | Module5_Project1_KitchenStory-main/KitchenStory_frontendproject/src/app/services/product/product.service.ts:51 | the empty term matches every product, and a matching term is never longer than the product name |
| Catalog.HasTag | Module5_Project1_KitchenStory-main/KitchenStory_frontendproject/src/app/services/product/product.service.ts:87 | `tags?.includes(tag)`: a product without a tag list has no tag; one with a list has exactly the tags it lists |
| Catalog.TagSummariesFixed | Module5_Project1_KitchenStory-main/KitchenStory_frontendproject/src/app/services/product/product.service.ts:66-69 | entries 1 to 4 are Salads 3, Breakfast 2, Vegetables 7, Beverages 3, whatever the product count |
| Catalog.WithoutProductId | Module5_Project1_KitchenStory-main/KitchenStory_frontendproject/src/app/services/product/product.service.ts:27 | no remaining product carries the removed id |
| Catalog.ProductById | Module5_Project1_KitchenStory-main/KitchenStory_frontendproject/src/app/services/product/product.service.ts:39 | a found product is at some position of the list, carries the id, and no earlier product carries it; None exactly when no product carries the id |
| Catalog.ProductsBySearchTerm | Module5_Project1_KitchenStory-main/KitchenStory_frontendproject/src/app/services/product/product.service.ts:50-51 | every product kept has a name containing the term after both are lower-cased |
| Catalog.ProductsByTag | Module5_Project1_KitchenStory-main/KitchenStory_frontendproject/src/app/services/product/product.service.ts:84-87 | "All" gives back the whole list; any other tag keeps only products whose tag list contains it |
| Catalog.TagSummaries | Module5_Project1_KitchenStory-main/KitchenStory_frontendproject/src/app/services/product/product.service.ts:64-71 | five entries, "All" first with the given count, and no other entry labelled "All" |
| Catalog.IdCount | Module5_Project1_KitchenStory-main/KitchenStory_frontendproject/src/app/services/product/product.service.ts:27 | the number of products carrying an id is at most the list length |
| Catalog.RemoveByIdExact | Module5_Project1_KitchenStory-main/KitchenStory_frontendproject/src/app/services/product/product.service.ts:26-29 | removal keeps exactly the products whose id differs, shortens the list by the number of products with the id (so duplicates all go), and keeps the others in their original order |
| Catalog.RemoveAbsentIdUnchanged | Module5_Project1_KitchenStory-main/KitchenStory_frontendproject/src/app/services/product/product.service.ts:27 | removing an id that no product carries leaves the list unchanged |
| Catalog.LookupAfterRemove | Module5_Project1_KitchenStory-main/KitchenStory_frontendproject/src/app/services/product/product.service.ts:26-40 | after removing an id, looking it up finds nothing |
| Catalog.RemoveUniqueIdDropsOne | Module5_Project1_KitchenStory-main/KitchenStory_frontendproject/src/app/services/product/product.service.ts:26-29 | with unique ids, removing a present id shortens the list by exactly one |
| Catalog.CountSingle | Module5_Project1_KitchenStory-main/KitchenStory_frontendproject/src/app/services/product/product.service.ts:27 | with unique ids, a present id is carried by exactly one product |
| Catalog.CountNone | Module5_Project1_KitchenStory-main/KitchenStory_frontendproject/src/app/services/product/product.service.ts:27 | an id no product carries has count zero |
| Catalog.EmptyTermReturnsAll | Module5_Project1_KitchenStory-main/KitchenStory_frontendproject/src/app/services/product/product.service.ts:49-52 | the empty search term returns the whole list |
| Catalog.SearchIgnoresCase | Module5_Project1_KitchenStory-main/KitchenStory_frontendproject/src/app/services/product/product.service.ts:51 | two terms that lower-case to the same string give the same result |
| Catalog.SearchLowercasedTerm | Module5_Project1_KitchenStory-main/KitchenStory_frontendproject/src/app/services/product/product.service.ts:51 | searching with the lower-cased term gives the same result as searching with the term |
| Catalog.SearchMilkIgnoresCase | Module5_Project1_KitchenStory-main/KitchenStory_frontendproject/src/app/services/product/product.service.ts:51 | "milk" and "MILK" give the same result |
| Catalog.MatchesTermIffOccurs | Module5_Project1_KitchenStory-main/KitchenStory_frontendproject/src/app/services/product/product.service.ts:51 | a term matches exactly when its lower-cased form occurs at some position of the lower-cased name |
| Catalog.SearchIsOrderedSelection | Module5_Project1_KitchenStory-main/KitchenStory_frontendproject/src/app/services/product/product.service.ts:49-52 | the search result holds exactly the matching products, as the order-preserving subsequence of the list |
| Catalog.TagFilterIsOrderedSelection | Module5_Project1_KitchenStory-main/KitchenStory_frontendproject/src/app/services/product/product.service.ts:84-87 | for a tag other than "All", the result holds exactly the products carrying the tag, in list order |
| Catalog.UntaggedNeverSelected | Module5_Project1_KitchenStory-main/KitchenStory_frontendproject/src/app/services/product/product.service.ts:87 | a product without a tag list is never selected by a tag other than "All" |
| SeedData.SeedProducts | Module5_Project1_KitchenStory-main/KitchenStory_frontendproject/src/app/services/product/product.service.ts:114-297 | fifteen products, the product at position i has id i + 1, each has exactly one tag |
| SeedData.BeverageItems | Module5_Project1_KitchenStory-main/KitchenStory_frontendproject/src/app/services/product/product.service.ts:116-151 | the three "Beverages" products, ids 1 to 3 |
| SeedData.BreakfastItems | Module5_Project1_KitchenStory-main/KitchenStory_frontendproject/src/app/services/product/product.service.ts:152-175 | the two "Breakfast" products, ids 4 and 5 |
| SeedData.VegetableItems | Module5_Project1_KitchenStory-main/KitchenStory_frontendproject/src/app/services/product/product.service.ts:176-259 | the seven "Vegetables" products, ids 6 to 12 |
| SeedData.SaladItems | Module5_Project1_KitchenStory-main/KitchenStory_frontendproject/src/app/services/product/product.service.ts:260-296 | the three "Salads" products, ids 13 to 15 |
| SeedData.SeedIdsDistinct | Module5_Project1_KitchenStory-main/KitchenStory_frontendproject/src/app/services/product/product.service.ts:114-297 | no two seed products share an id |
| SeedData.GroupSelection | Module5_Project1_KitchenStory-main/KitchenStory_frontendproject/src/app/services/product/product.service.ts:84-87 | a run of products all tagged t is kept whole by tag t and dropped by any other tag |
| SeedData.ByGroups | Module5_Project1_KitchenStory-main/KitchenStory_frontendproject/src/app/services/product/product.service.ts:84-87 | the tag filter over four concatenated runs is the concatenation of the filtered runs |
| SeedData.LayoutSelection | Module5_Project1_KitchenStory-main/KitchenStory_frontendproject/src/app/services/product/product.service.ts:84-87 | over a table laid out like the seed, each of the four tags selects exactly its own run |
| SeedData.SeedSelection | Module5_Project1_KitchenStory-main/KitchenStory_frontendproject/src/app/services/product/product.service.ts:82-88 | on the seed, each of the four tags selects exactly its group, in table order |
| SeedData.SeedBeverages | Module5_Project1_KitchenStory-main/KitchenStory_frontendproject/src/app/services/product/product.service.ts:82-88 | on the seed, "Beverages" selects the products with ids 1, 2 and 3, in that order |
| SeedData.LayoutCounts | Module5_Project1_KitchenStory-main/KitchenStory_frontendproject/src/app/services/product/product.service.ts:62-73 | over a table laid out like the seed with runs of 3, 2, 7 and 3, each fixed count equals what the tag filter selects |
| SeedData.SeedTagCountsAgree | Module5_Project1_KitchenStory-main/KitchenStory_frontendproject/src/app/services/product/product.service.ts:62-73 | on the seed, each fixed tag count equals the number of products the tag filter selects for that label |
| SeedData.SeedRemoveFive | Module5_Project1_KitchenStory-main/KitchenStory_frontendproject/src/app/services/product/product.service.ts:15-40 | the seed has 15 products; id 5 is found, removing it leaves 14, and id 5 is then not found |
| Sequences.Filter | Module5_Project1_KitchenStory-main/KitchenStory_frontendproject/src/app/services/product/product.service.ts:50 | filter keeps only elements satisfying the predicate and never lengthens the array |
| Sequences.FilterMembers | Module5_Project1_KitchenStory-main/KitchenStory_frontendproject/src/app/services/product/product.service.ts:27 | an element is kept exactly when it occurs in the array and satisfies the predicate |
| Sequences.Count | Module5_Project1_KitchenStory-main/KitchenStory_frontendproject/src/app/services/product/product.service.ts:27 | the number of matching elements is at most the length |
| Sequences.CountIsFilterLength | Module5_Project1_KitchenStory-main/KitchenStory_frontendproject/src/app/services/product/product.service.ts:27 | the number of matching elements is the length of the filter result |
| Sequences.Selected | Module5_Project1_KitchenStory-main/KitchenStory_frontendproject/src/app/services/product/product.service.ts:87 | the increasing positions of exactly the elements satisfying the predicate |
| Sequences.FilterIsSelection | Module5_Project1_KitchenStory-main/KitchenStory_frontendproject/src/app/services/product/product.service.ts:87 | the k-th kept element is the element at the k-th selected position |
| Sequences.FilterConcat | Module5_Project1_KitchenStory-main/KitchenStory_frontendproject/src/app/services/product/product.service.ts:87 | filtering distributes over concatenation |
| Sequences.FilterComplementLength | Module5_Project1_KitchenStory-main/KitchenStory_frontendproject/src/app/services/product/product.service.ts:27 | filtering by the negation of p shortens the array by the number of elements satisfying p |
| Sequences.FilterCongruence | Module5_Project1_KitchenStory-main/KitchenStory_frontendproject/src/app/services/product/product.service.ts:50-51 | predicates agreeing on every element give the same filter result |
| Sequences.FilterKeepsAll | Module5_Project1_KitchenStory-main/KitchenStory_frontendproject/src/app/services/product/product.service.ts:50-51 | filter returns the whole array exactly when every element satisfies the predicate |
| Sequences.FilterKeepsNone | Module5_Project1_KitchenStory-main/KitchenStory_frontendproject/src/app/services/product/product.service.ts:87 | filter returns nothing when no element satisfies the predicate |
| Sequences.FindIndex | Module5_Project1_KitchenStory-main/KitchenStory_frontendproject/src/app/services/product/product.service.ts:39 | the position of the first element satisfying the predicate, None exactly when there is none |
| Sequences.Find | Module5_Project1_KitchenStory-main/KitchenStory_frontendproject/src/app/services/product/product.service.ts:39 | find returns an element that satisfies the predicate with no earlier match, and None exactly when no element matches |
| Text.LowerChar | Module5_Project1_KitchenStory-main/KitchenStory_frontendproject/src/app/services/product/product.service.ts:51 | upper-case ASCII letters move to their lower-case letters; every other character is unchanged |
| Text.ToLower | Module5_Project1_KitchenStory-main/KitchenStory_frontendproject/src/app/services/product/product.service.ts:51 | lower-casing keeps the length and maps every character |
| Text.ToLowerIdempotent | Module5_Project1_KitchenStory-main/KitchenStory_frontendproject/src/app/services/product/product.service.ts:51 | lower-casing twice equals lower-casing once |
| Text.IncludesIffOccurs | Module5_Project1_KitchenStory-main/KitchenStory_frontendproject/src/app/services/product/product.service.ts:51 | includes holds exactly when the term occurs at some position of the string |
| Text.Includes | Module5_Project1_KitchenStory-main/KitchenStory_frontendproject/src/app/services/product/product.service.ts:51 | a string includes each of its prefixes and the empty string, and nothing longer than itself |

## Left out

- The Angular `@Injectable` decorator and dependency injection: they are framework wiring. The class is modelled as a plain object.
- The `imageUrl` and `description` fields of each product: no operation reads them, and they are display text only.
- `price` is a `real`, and `rating` and `numOfReviews` are `int`s, where the source has JavaScript numbers. `addProduct` accepts, say, a rating of 4.5, which the model cannot hold. The seed values are exact, and no operation does arithmetic on these fields.
- Ids and counts are unbounded integers. Fractional or NaN ids and JavaScript's loose equality on non-numbers are not modelled.
- Text.ToLower: lower-cases only the ASCII letters A to Z. JavaScript's `toLowerCase` also maps the other Unicode letters.
- Text.LowerChar: the same ASCII-only restriction as Text.ToLower.
- Aliasing of the array: `getAllProducts` and `getAllProductsByTag("All")` return the live array, and `addProduct` pushes into that array. The model returns values, so a caller cannot change the list through a returned array.
- Aliasing of products: `getProductById`, every filter and `getAllProducts` hand out the store's own product objects, and `addProduct` stores the caller's object itself. In the source, a caller that changes a product's `productId` or `tags` therefore changes what later lookups, removals and filters return. Products here are values, so the model does not capture this.
- The `Product` and `Tag` model files are not part of this model beyond the record shapes given in `Catalog`. The components that call the service are not part of it either.
