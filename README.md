# MiniShoppingApp: cart bookkeeping and pagination in Dafny

This project models the two pieces of in-memory logic of MiniShoppingApp, a small ASP.NET shop
over a remote product catalog, and proves what their unit tests promise.

- **Session cart** (`CartService`, module `SessionCart`). A cart is an ordered list of
  (product, quantity) entries, one per product id. `AddToCart` looks the id up in the catalog.
  It fails on an unknown id. Otherwise it adds one unit to the existing entry or appends a new
  entry with quantity 1. `RemoveFromCart` takes one unit away and drops the entry when its last
  unit goes. It fails when the cart has no entry for the id. The getters report the total units
  and the quantity of one product. The session slot is the field `items` of a `CartService`
  object. The invariant `WellFormed` says every quantity is at least 1 and no id repeats; both
  operations preserve it.
- **Pagination** (`ProductService.GetProductsAsync`, module `Paging`). A page below 1 becomes 1.
  A page size below 1 becomes 5. The result is the Skip/Take slice at offset
  `(page - 1) * pageSize` plus the page count `ceil(count / pageSize)`.
- **Legacy controllers** at the repository root (modules `LegacyCart`, `LegacyPaging`). The
  older `CartController` keeps one process-wide list of products. Adding appends another copy,
  the count is the list length, and removing deletes the first copy. The older
  `ProductController.Index` pages without clamping.

Shared pieces: module `Catalog` holds the `Product` record (price in integer cents) and the
first-match lookup by id. Module `Linq` holds the .NET semantics the code relies on:
`Enumerable.Skip`/`Take` and unchecked 32-bit `int` arithmetic (`Wrap32`).

The catalog, which the source fetches over HTTP, is an input sequence that may be empty. The
session and the static list are object fields. Prices are whole cents.

Three behaviours of the code worth stating:
- An unclamped negative offset does not give an empty page. LINQ's `Skip` ignores a
  non-positive count, so the first page is shown (`LegacyPaging.PageBelowOneShowsFirstPage`) as long as
  `(page - 1) * pageSize` does not wrap.
- A page far below 1 does wrap. The legacy controller computes the offset in unchecked 32-bit
  arithmetic too, so page -1073741824 of size 2 gets the offset 2147483646 and shows nothing,
  while page -1 shows the first two products (`LegacyPaging.FarNegativePageWraps`). This is the
  legacy counterpart of the offset overflow listed under Findings.
- The unit tests build `CartService` from a repository alone, but the code's constructor also
  takes an HTTP context accessor. The model follows `CartService.cs`, with the session replaced
  by a field.

`Math.Ceiling(count / (double)pageSize)` is modelled as exact integer ceiling (`Paging.CeilDiv`).
The two agree for every count below 2^31. When the exact quotient is not a whole number k, it
lies at least 1/pageSize from k. That gap is larger than the rounding error of the double
quotient, which is below 2^-21/pageSize, so the rounded value never lands on a whole number.

## Model

| member | source | states |
|---|---|---|
| `Linq.Wrap32` | src/MiniShoppingApp.Infrastructure/Services/ProductService.cs:25 | an unchecked C# `int` result is the exact value reduced modulo 2^32 into the signed range, and equals the exact value when it fits |
| `Linq.Skip` | src/MiniShoppingApp.Infrastructure/Services/ProductService.cs:25 | `Skip(n)` keeps the whole list for n <= 0 and otherwise the suffix after n elements (empty past the end), in order |
| `Linq.Take` | src/MiniShoppingApp.Infrastructure/Services/ProductService.cs:25 | `Take(n)` is a prefix of the list of length min(n, count), empty for n <= 0 |
| `Linq.SkipTake` | src/MiniShoppingApp.Infrastructure/Services/ProductService.cs:25 | `Skip(offset).Take(count)` is the contiguous run of at most count elements from max(offset, 0), in order, empty past the end |
| `Catalog.IndexOfId` | Controllers/CartController.cs:48 | the position found is the first product with that id; no position exactly when no product has it |
| `Catalog.FindProduct` | src/MiniShoppingApp.Infrastructure/Services/CartService.cs:64-65 | the lookup yields a catalog product with that id, the first one, and yields nothing exactly when the id is not in the catalog |
| `SessionCart.WellFormed` | src/MiniShoppingApp.Infrastructure/Services/CartService.cs:73-105 | the cart invariant the service keeps: every quantity at least 1 and at most one entry per product id |
| `SessionCart.IndexOfItem` | src/MiniShoppingApp.Infrastructure/Services/CartService.cs:73 | the entry found is the first one for the id; nothing is found exactly when the cart has no entry for it |
| `SessionCart.QuantityOf` | src/MiniShoppingApp.Infrastructure/Services/CartService.cs:59-60 | the quantity of the first entry for the id, 0 when absent; on a well-formed cart it is at least 1 exactly when the id is present |
| `SessionCart.TotalQuantity` | src/MiniShoppingApp.Infrastructure/Services/CartService.cs:57 | the sum of quantities; on a well-formed cart it is at least the number of entries |
| `SessionCart.AddItem` | src/MiniShoppingApp.Infrastructure/Services/CartService.cs:73-82 | the existing entry for the product gains exactly one unit with every other entry and the length unchanged, or the product is appended at the end with quantity 1 |
| `SessionCart.RemoveItem` | src/MiniShoppingApp.Infrastructure/Services/CartService.cs:90-105 | with no entry the cart is unchanged; an entry above 1 loses one unit in place; an entry of 1 is removed and the others keep their order |
| `SessionCart.AddItemPreservesWellFormed` | src/MiniShoppingApp.Infrastructure/Services/CartService.cs:73-82 | adding keeps every quantity at least 1 and at most one entry per id |
| `SessionCart.RemoveItemPreservesWellFormed` | src/MiniShoppingApp.Infrastructure/Services/CartService.cs:98-105 | removing keeps every quantity at least 1 and at most one entry per id |
| `SessionCart.QuantityAfterAdd` | src/MiniShoppingApp.Infrastructure/Services/CartService.cs:73-82 | after adding product p the reported quantity of p rises by exactly 1 and every other id's quantity is unchanged |
| `SessionCart.QuantityAfterRemove` | src/MiniShoppingApp.Infrastructure/Services/CartService.cs:98-105 | after a remove the quantity of that id falls by 1 if it was in the cart, and every other id's quantity is unchanged |
| `SessionCart.TotalAfterAdd` | src/MiniShoppingApp.Infrastructure/Services/CartService.cs:73-82 | a successful add raises the item count by exactly one unit |
| `SessionCart.TotalAfterRemove` | src/MiniShoppingApp.Infrastructure/Services/CartService.cs:98-105 | a remove lowers the item count by one unit when the id is present, by none otherwise |
| `SessionCart.RemoveAllUnits` | src/MiniShoppingApp.Infrastructure/Services/CartService.cs:88-109 | removing a product as many times as its quantity succeeds each time, then leaves no entry for it, and leaves other products' quantities unchanged |
| `SessionCart.CartService.constructor` | src/MiniShoppingApp.Infrastructure/Services/CartService.cs:40-42 | a session without a stored cart reads as the empty cart, which satisfies the invariant |
| `SessionCart.CartService.GetCartItems` | src/MiniShoppingApp.Infrastructure/Services/CartService.cs:55 | the getter returns the stored entries, in first-add order |
| `SessionCart.CartService.GetCartItemCount` | src/MiniShoppingApp.Infrastructure/Services/CartService.cs:57 | the count is the sum of quantities (not the number of distinct products), at least the number of entries |
| `SessionCart.CartService.GetProductQuantity` | src/MiniShoppingApp.Infrastructure/Services/CartService.cs:59-60 | the quantity of the product's entry, 0 exactly when it has none |
| `SessionCart.CartService.AddToCart` | src/MiniShoppingApp.Infrastructure/Services/CartService.cs:62-86 | returns true exactly when the catalog has the id; on false nothing changes; on true the cart becomes `AddItem`, the product's quantity and the item count each rise by 1, and the invariant holds |
| `SessionCart.CartService.RemoveFromCart` | src/MiniShoppingApp.Infrastructure/Services/CartService.cs:88-109 | returns true exactly when the cart has an entry for the id; the cart becomes `RemoveItem`, the quantity and item count fall by 1 on success, and the invariant holds |
| `SessionCart.UnknownIdScenario` | test/MiniShoppingApp.Test.Unit/Services/CartServiceTests.cs:65-78 | adding an id the catalog lacks fails and leaves the cart empty |
| `SessionCart.RemoveFromEmptyScenario` | test/MiniShoppingApp.Test.Unit/Services/CartServiceTests.cs:113-126 | removing from an empty cart fails |
| `SessionCart.AddNewScenario` | test/MiniShoppingApp.Test.Unit/Services/CartServiceTests.cs:31-47 | adding a catalog product to an empty cart gives one entry of quantity 1 |
| `SessionCart.AddExistingScenario` | test/MiniShoppingApp.Test.Unit/Services/CartServiceTests.cs:48-64 | adding a product already in the cart raises its quantity to 2 without a second entry |
| `SessionCart.RemoveTwiceScenario` | test/MiniShoppingApp.Test.Unit/Services/CartServiceTests.cs:79-112 | removing from quantity 2 leaves quantity 1, and removing again empties the cart |
| `SessionCart.CountScenario` | test/MiniShoppingApp.Test.Unit/Services/CartServiceTests.cs:127-161 | two adds of product 1 and one of product 2 give a count of 3, quantities 2 and 1, and 0 for an unknown id |
| `Paging.ClampPage` | src/MiniShoppingApp.Infrastructure/Services/ProductService.cs:13-16 | the page used is at least 1, the requested one when valid and 1 otherwise |
| `Paging.ClampPageSize` | src/MiniShoppingApp.Infrastructure/Services/ProductService.cs:17-20 | the page size used is the requested one when at least 1 and otherwise the default 5 |
| `Paging.CeilDiv` | src/MiniShoppingApp.Infrastructure/Services/ProductService.cs:24 | the page count is 0 exactly for an empty catalog |
| `Paging.CeilDivIsCeiling` | src/MiniShoppingApp.Infrastructure/Services/ProductService.cs:24 | the page count is the ceiling of count / pageSize: the least r with count <= r * pageSize |
| `Paging.AsWrittenOffset` | src/MiniShoppingApp.Infrastructure/Services/ProductService.cs:25 | the offset of the clamped request in wrapping 32-bit arithmetic, exact whenever it fits in an int |
| `Paging.GetProductsAsWritten` | src/MiniShoppingApp.Infrastructure/Services/ProductService.cs:10-27 | with the offset in wrapping 32-bit arithmetic: exactly min(pageSize, rest) products from the wrapped offset (0 when negative, none past the end), contiguous and in catalog order, and the ceiling page count |
| `Paging.PageOf` | src/MiniShoppingApp.Infrastructure/Services/ProductService.cs:24-25 | page p of size s (both at least 1) is the contiguous, order-preserving run from (p-1)*s, of length min(s, rest) and empty past the end, with the ceiling page count |
| `Paging.GetProducts` | src/MiniShoppingApp.Infrastructure/Services/ProductService.cs:10-27 | with the offset computed exactly: the clamped page p of size s is the contiguous, order-preserving run from (p-1)*s, of length min(s, rest) and empty past the end, with the ceiling page count |
| `Paging.ClampedRequests` | src/MiniShoppingApp.Infrastructure/Services/ProductService.cs:13-20 | a page below 1 is answered as page 1, a page size below 1 as page size 5 |
| `Paging.PageNonEmptyIff` | src/MiniShoppingApp.Infrastructure/Services/ProductService.cs:24-25 | a page has products if and only if its number is at most the reported page count, so a page past the last is empty while the count is still reported |
| `Paging.EarlierPagesAreFull` | src/MiniShoppingApp.Infrastructure/Services/ProductService.cs:24-25 | every page before the last holds exactly pageSize products |
| `Paging.WholeCatalogOnFirstPage` | src/MiniShoppingApp.Infrastructure/Services/ProductService.cs:24-25 | when pageSize is at least the count, page 1 is the whole catalog and the page count is 1 (0 for an empty catalog) |
| `Paging.ItemOnPage` | src/MiniShoppingApp.Infrastructure/Services/ProductService.cs:25 | item m of a page is catalog product (page-1)*pageSize + m, and that page is within the page count |
| `Paging.PagesCoverCatalog` | src/MiniShoppingApp.Infrastructure/Services/ProductService.cs:24-25 | every catalog product appears on a page within the page count: product k is item k mod pageSize of page k div pageSize + 1 |
| `Paging.AsWrittenAgreesWithoutOverflow` | src/MiniShoppingApp.Infrastructure/Services/ProductService.cs:25 | when (page-1)*pageSize fits in an int the source's result is exactly the corrected one |
| `Paging.SixProducts` | test/MiniShoppingApp.Test.Unit/Services/ProductServiceTests.cs:20-28 | the unit tests' catalog of six products |
| `Paging.OffsetOverflowServesFirstPage` | src/MiniShoppingApp.Infrastructure/Services/ProductService.cs:25 | page 1073741825 of size 4 over six products returns the first four as written, where the corrected page is empty (2 pages) |
| `Paging.UnitTestCases` | test/MiniShoppingApp.Test.Unit/Services/ProductServiceTests.cs:31-113 | the six unit-test cases: (1,2) gives 2 items of 3 pages, empty catalog gives 0 pages, (1,10) gives 6 items of 1 page, (5,2) gives none of 3 pages, (-1,2) gives 2 items, (1,-5) gives 5 items of 2 pages |
| `LegacyCart.PriceSum` | Controllers/CartController.cs:19 | the sum of the prices of all entries, copies included; not negative when no price is |
| `LegacyCart.RemoveFirst` | Controllers/CartController.cs:48-51 | the first product with the id is taken out and nothing else moves; without one the list is unchanged |
| `LegacyCart.PriceSumAppend` | Controllers/CartController.cs:19 | appending a product, even one already present, raises the total price by its full price |
| `LegacyCart.PriceSumDelete` | Controllers/CartController.cs:19 | deleting one entry lowers the total price by that entry's price |
| `LegacyCart.RemoveFirstRemovesOneCopy` | Controllers/CartController.cs:48-53 | a remove takes exactly one copy of the first match out of the cart's multiset, shortens the list by one and lowers the total by its price; an absent id changes neither |
| `LegacyCart.CartController.constructor` | Controllers/CartController.cs:9 | the static list starts empty |
| `LegacyCart.CartController.Index` | Controllers/CartController.cs:17-21 | the view gets the list and the sum of all entries' prices, copies included |
| `LegacyCart.CartController.GetCartCount` | Controllers/CartController.cs:24-27 | the count is the number of list entries, copies counted separately |
| `LegacyCart.CartController.AddToCart` | Controllers/CartController.cs:31-43 | always answers success; a found product is appended even if present, so the count grows by exactly 1; an unknown id leaves the list unchanged |
| `LegacyCart.CartController.RemoveFromCart` | Controllers/CartController.cs:46-54 | the list becomes `RemoveFirst` of the old list |
| `LegacyCart.DuplicateScenario` | Controllers/CartController.cs:17-54 | two adds of a product give two entries and twice its price, one remove leaves one copy, and an unknown id still answers success |
| `LegacyPaging.TotalPages` | Controllers/ProductController.cs:20 | no modelled value exactly for page size 0; for a positive size the same count as `Paging.CeilDiv`; for a negative size 0 or less |
| `LegacyPaging.Offset` | Controllers/ProductController.cs:18 | the skip count is (page-1)*pageSize in wrapping 32-bit arithmetic, exact when it fits |
| `LegacyPaging.Index` | Controllers/ProductController.cs:15-24 | CurrentPage echoes the request; exactly min(pageSize, rest) products from the wrapped offset (0 when it is negative), none for a page size of 0 or less or past the end, contiguous and in order; the page count as for `TotalPages` |
| `LegacyPaging.PageBelowOneShowsFirstPage` | Controllers/ProductController.cs:18-21 | when (page-1)*pageSize does not wrap, a page of 0 or less shows the first min(pageSize, count) products while CurrentPage stays the requested page |
| `LegacyPaging.FarNegativePageWraps` | Controllers/ProductController.cs:18 | page -1073741824 of size 2 wraps to a huge positive offset and shows nothing, while page -1 shows the first two products |
| `LegacyPaging.TotalPagesIsCeiling` | Controllers/ProductController.cs:20 | for every non-zero page size, negative ones included, the page count is the exact ceiling of count / pageSize |
| `LegacyPaging.PageCountForPositiveSize` | Controllers/ProductController.cs:20 | for pageSize >= 1 the view's page count is the integer ceiling, 0 exactly for an empty catalog |
| `LegacyPaging.AgreesWithProductService` | Controllers/ProductController.cs:18-20 | for page and pageSize at least 1 the old controller shows the same page and page count as ProductService |

## Findings

| source | as written | input that shows it | evidently intended | confidence | as-written member | corrected member |
|---|---|---|---|---|---|---|
| src/MiniShoppingApp.Infrastructure/Services/ProductService.cs:25 | `(page - 1) * pageSize` is computed in unchecked 32-bit `int` arithmetic | six products, page 1073741825, pageSize 4: the offset 4294967296 wraps to 0, so the first four products come back although the catalog has only 2 pages | a page past the last is empty, as the unit test at test/MiniShoppingApp.Test.Unit/Services/ProductServiceTests.cs:73-85 expects | not executed; assumes the project does not enable checked arithmetic | `Paging.GetProductsAsWritten`, `Paging.OffsetOverflowServesFirstPage` | `Paging.GetProducts`, `Paging.PageNonEmptyIff` |

## Left out

- Session storage: the JSON round trip in `GetCartFromSession`/`SaveCartToSession`, `IHttpContextAccessor`, and the exception when no HTTP context exists (CartService.cs:23-53). The field `items` stands for the stored list.
- The product source (ProductRepository.cs, Services/ProductService.cs): the HTTP fetch, JSON parsing, logging and the catch-all that returns an empty list. The catalog is an input sequence. A JSON `null` body would make the repository return null. CartService would then treat every id as unknown, the same as an empty catalog, and ProductService would throw. That null case is not modelled.
- Async/await and the per-call re-fetch of the catalog: each operation takes the catalog as it was fetched for that call.
- Concurrency: lost updates between simultaneous requests on one session, and races on the static legacy list.
- CartItem objects are mutated in place (`existingItem.Quantity++`) inside a list freshly deserialised on each call. Nothing else holds a reference to them, so replacing the entry in a sequence loses no aliasing.
- SessionCart.CartService.AddToCart: quantities are unbounded integers. The wrap of `Quantity++` to a negative value after 2^31 - 1 adds of one product is not modelled.
- SessionCart.TotalQuantity: the `OverflowException` that LINQ's checked `Sum` throws beyond 2^31 - 1 units is not modelled.
- LegacyPaging.TotalPages: a page size of 0 divides by zero. The quotient is infinite or NaN, and its conversion to `int` is left to the runtime, so that result is `None`.
- LegacyCart.PriceSum: decimal prices are whole cents. Decimal rounding and overflow are not modelled.
- MVC glue and UI: the controllers under src/MiniShoppingApp.UI, Program.cs (dependency injection), both site.js files, and views and JSON serialisation of results.
- The pass-through Application ProductService, the interfaces and the integration test hosts have no logic of their own.
