/** ProductService.GetProductsAsync(page, pageSize): clamps the request,
    then cuts one page out of the fetched catalog and reports how many
    pages the catalog has. */
module Paging {
  import opened Linq
  import opened Catalog

  /** The page size used when the requested one is below 1. */
  const DefaultPageSize: int := 5

  /** A page below 1 is served as page 1. */
  function ClampPage(page: int): (p: int)
    ensures p >= 1
    ensures page >= 1 ==> p == page
    ensures page < 1 ==> p == 1
  {
    if page < 1 then 1 else page
  }

  /** A page size below 1 falls back to DefaultPageSize. */
  function ClampPageSize(pageSize: int): (s: int)
    ensures s >= 1
    ensures pageSize >= 1 ==> s == pageSize
    ensures pageSize < 1 ==> s == DefaultPageSize
  {
    if pageSize < 1 then DefaultPageSize else pageSize
  }

  /** (int)Math.Ceiling(count / (double)size) for a positive size: the
      least number of pages of that size that hold count items. */
  function CeilDiv(count: nat, size: int): (r: nat)
    requires size >= 1
    ensures r == 0 <==> count == 0
  {
    if count % size == 0 then count / size else count / size + 1
  }

  /** CeilDiv is the ceiling: the least r with count <= r * size. */
  lemma CeilDivIsCeiling(count: nat, size: int)
    requires size >= 1
    ensures count <= CeilDiv(count, size) * size
    ensures (CeilDiv(count, size) - 1) * size < count
  {
    var q, m := count / size, count % size;
    assert count == q * size + m;
  }

  /** What GetProductsAsync returns: the products on the page and the
      total page count. */
  datatype Page = Page(products: seq<Product>, totalPages: int)

  /** The offset (page - 1) * pageSize of the clamped request as the
      source computes it, in unchecked 32-bit arithmetic; exact when it
      fits in an int. */
  function AsWrittenOffset(page: Int32, pageSize: Int32): (o: Int32)
    ensures var exact := (ClampPage(page) - 1) * ClampPageSize(pageSize);
            exact <= MaxInt32 ==> o == exact
  {
    var p, s := ClampPage(page), ClampPageSize(pageSize);
    MulMono(0, p - 1, s);
    Wrap32((p - 1) * s)
  }

  /** GetProductsAsync with the offset computed as the source does. */
  function GetProductsAsWritten(catalog: seq<Product>, page: Int32, pageSize: Int32): (r: Page)
    ensures r.totalPages == CeilDiv(|catalog|, ClampPageSize(pageSize))
    ensures var o := AsWrittenOffset(page, pageSize);
            var start := if o < 0 then 0 else o;
            && |r.products| == (if start >= |catalog| then 0 else Min(ClampPageSize(pageSize), |catalog| - start))
            && forall i :: 0 <= i < |r.products| ==> start + i < |catalog| && r.products[i] == catalog[start + i]
  {
    var s := ClampPageSize(pageSize);
    Page(SkipTake(catalog, AsWrittenOffset(page, pageSize), s), CeilDiv(|catalog|, s))
  }

  /** Page number `page` of `size` products, both at least 1, with the
      offset (page - 1) * size computed exactly: the contiguous run of at
      most size catalog products starting at that offset, in catalog
      order, and the page count. */
  function PageOf(catalog: seq<Product>, page: int, size: int): (r: Page)
    requires page >= 1 && size >= 1
    ensures r.totalPages == CeilDiv(|catalog|, size)
    ensures (page - 1) * size >= 0
    ensures |r.products| == if (page - 1) * size >= |catalog| then 0 else Min(size, |catalog| - (page - 1) * size)
    ensures forall i :: 0 <= i < |r.products| ==>
              (page - 1) * size + i < |catalog| && r.products[i] == catalog[(page - 1) * size + i]
  {
    MulMono(0, page - 1, size);
    Page(SkipTake(catalog, (page - 1) * size, size), CeilDiv(|catalog|, size))
  }

  /** GetProductsAsync with the offset computed exactly: the request is
      clamped, then the page is cut. */
  function GetProducts(catalog: seq<Product>, page: int, pageSize: int): (r: Page)
    ensures var p, s := ClampPage(page), ClampPageSize(pageSize);
            && r.totalPages == CeilDiv(|catalog|, s)
            && (p - 1) * s >= 0
            && |r.products| == (if (p - 1) * s >= |catalog| then 0 else Min(s, |catalog| - (p - 1) * s))
            && forall i :: 0 <= i < |r.products| ==>
                 (p - 1) * s + i < |catalog| && r.products[i] == catalog[(p - 1) * s + i]
  {
    PageOf(catalog, ClampPage(page), ClampPageSize(pageSize))
  }

  lemma MulMono(a: int, b: int, c: int)
    requires c >= 0 && a <= b
    ensures a * c <= b * c
  {
    assert b * c - a * c == (b - a) * c;
  }

  /** Requests below the valid range are answered as the clamped request. */
  lemma ClampedRequests(catalog: seq<Product>, page: int, pageSize: int)
    ensures page < 1 ==> GetProducts(catalog, page, pageSize) == GetProducts(catalog, 1, pageSize)
    ensures pageSize < 1 ==> GetProducts(catalog, page, pageSize) == GetProducts(catalog, page, DefaultPageSize)
  {
  }

  /** A page holds products exactly when its number does not exceed the
      reported page count; past the last page the slice is empty while the
      page count is still reported. */
  lemma PageNonEmptyIff(catalog: seq<Product>, page: int, pageSize: int)
    ensures var r := GetProducts(catalog, page, pageSize);
            r.products != [] <==> ClampPage(page) <= r.totalPages
  {
    var r := GetProducts(catalog, page, pageSize);
    var p, s := ClampPage(page), ClampPageSize(pageSize);
    var t := r.totalPages;
    CeilDivIsCeiling(|catalog|, s);
    if p <= t {
      MulMono(p - 1, t - 1, s);
    } else {
      MulMono(t, p - 1, s);
    }
  }

  /** Every page before the last is full. */
  lemma EarlierPagesAreFull(catalog: seq<Product>, page: int, pageSize: int)
    requires ClampPage(page) < GetProducts(catalog, page, pageSize).totalPages
    ensures |GetProducts(catalog, page, pageSize).products| == ClampPageSize(pageSize)
  {
    var p, s := ClampPage(page), ClampPageSize(pageSize);
    var t := GetProducts(catalog, page, pageSize).totalPages;
    CeilDivIsCeiling(|catalog|, s);
    MulMono(p, t - 1, s);
  }

  /** When one page is large enough for the whole catalog, page 1 is the
      whole catalog and there is one page (none for an empty catalog). */
  lemma WholeCatalogOnFirstPage(catalog: seq<Product>, page: int, pageSize: int)
    requires page <= 1 && ClampPageSize(pageSize) >= |catalog|
    ensures GetProducts(catalog, page, pageSize).products == catalog
    ensures GetProducts(catalog, page, pageSize).totalPages == if catalog == [] then 0 else 1
  {
    var s := ClampPageSize(pageSize);
    assert (ClampPage(page) - 1) * s == 0;
    var t := CeilDiv(|catalog|, s);
    CeilDivIsCeiling(|catalog|, s);
    if t >= 2 {
      MulMono(1, t - 1, s);
    }
  }

  /** Item m of page `page` is catalog product (page - 1) * pageSize + m,
      and that page is within the reported page count. */
  lemma ItemOnPage(catalog: seq<Product>, page: int, pageSize: int, m: nat)
    requires page >= 1 && pageSize >= 1 && m < pageSize && (page - 1) * pageSize + m < |catalog|
    ensures var r := GetProducts(catalog, page, pageSize);
            && page <= r.totalPages
            && m < |r.products|
            && r.products[m] == catalog[(page - 1) * pageSize + m]
  {
    PageNonEmptyIff(catalog, page, pageSize);
  }

  /** The pages 1 .. totalPages cut the catalog into consecutive runs:
      product k is item k % pageSize of page k / pageSize + 1. */
  lemma PagesCoverCatalog(catalog: seq<Product>, pageSize: int, k: nat)
    requires pageSize >= 1 && k < |catalog|
    ensures var r := GetProducts(catalog, k / pageSize + 1, pageSize);
            && k / pageSize + 1 <= r.totalPages
            && k % pageSize < |r.products|
            && r.products[k % pageSize] == catalog[k]
  {
    DivModSplit(k, pageSize);
    ItemOnPage(catalog, k / pageSize + 1, pageSize, k % pageSize);
  }

  lemma DivModSplit(k: nat, size: int)
    requires size >= 1
    ensures k / size >= 0 && k % size < size
    ensures (k / size + 1 - 1) * size + k % size == k
  {
  }

  /** The offset of the source is exact as long as (page - 1) * pageSize
      fits in an int; then the two definitions agree. */
  lemma AsWrittenAgreesWithoutOverflow(catalog: seq<Product>, page: Int32, pageSize: Int32)
    requires (ClampPage(page) - 1) * ClampPageSize(pageSize) <= MaxInt32
    ensures GetProductsAsWritten(catalog, page, pageSize) == GetProducts(catalog, page, pageSize)
  {
    var p, s := ClampPage(page), ClampPageSize(pageSize);
    MulMono(0, p - 1, s);
    assert Wrap32((p - 1) * s) == (p - 1) * s;
  }

  /** The six-product catalog of the unit tests. */
  function SixProducts(): (c: seq<Product>)
    ensures |c| == 6
  {
    [Product(1, "Product 1", 1000), Product(2, "Product 2", 1500), Product(3, "Product 3", 2000),
     Product(4, "Product 4", 2500), Product(5, "Product 5", 3000), Product(6, "Product 6", 3500)]
  }

  /** Page 1073741825 of size 4: the offset 4294967296 wraps to 0 in
      32-bit arithmetic, so the source serves the first four products
      where the page is past the end and should be empty. */
  lemma OffsetOverflowServesFirstPage()
    ensures GetProductsAsWritten(SixProducts(), 1073741825, 4).products == SixProducts()[..4]
    ensures GetProducts(SixProducts(), 1073741825, 4).products == []
    ensures GetProducts(SixProducts(), 1073741825, 4).totalPages == 2
  {
    assert Wrap32((1073741825 - 1) * 4) == 0;
  }

  /** The cases of the unit tests. */
  lemma UnitTestCases()
    ensures var r := GetProducts(SixProducts(), 1, 2); |r.products| == 2 && r.totalPages == 3
    ensures GetProducts([], 1, 2) == Page([], 0)
    ensures var r := GetProducts(SixProducts(), 1, 10); |r.products| == 6 && r.totalPages == 1
    ensures var r := GetProducts(SixProducts(), 5, 2); r.products == [] && r.totalPages == 3
    ensures var r := GetProducts(SixProducts(), -1, 2); |r.products| == 2 && r.totalPages == 3
    ensures var r := GetProducts(SixProducts(), 1, -5); |r.products| == 5 && r.totalPages == 2
  {
    assert CeilDiv(6, 2) == 3;
    assert CeilDiv(6, 10) == 1;
    assert CeilDiv(6, 5) == 2;
  }
}
