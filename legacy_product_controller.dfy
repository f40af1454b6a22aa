/** The older ProductController.Index at the repository root: the same
    Skip/Take page and page count as ProductService, but with the request
    taken as it comes, without clamping. */
module LegacyPaging {
  import opened Linq
  import opened Catalog
  import Paging

  /** (int)Math.Ceiling(count / (double)pageSize). A page size of 0 divides
      by zero (an infinite or NaN quotient whose conversion to int the
      runtime leaves unspecified), which is None here; for any other page
      size the result is the exact ceiling of the quotient, negative sizes
      included. */
  function TotalPages(count: nat, pageSize: int): (r: Option<int>)
    ensures r.None? <==> pageSize == 0
    ensures pageSize > 0 ==> r == Some(Paging.CeilDiv(count, pageSize))
    ensures pageSize < 0 ==> r.value <= 0
  {
    if pageSize == 0 then None
    else if pageSize > 0 then Some(Paging.CeilDiv(count, pageSize))
    else Some(-(count / -pageSize))
  }

  /** For every non-zero page size TotalPages is the ceiling of the exact
      quotient count / pageSize: the r with r - 1 < count / pageSize <= r. */
  lemma TotalPagesIsCeiling(count: nat, pageSize: int)
    requires pageSize != 0
    ensures var r := TotalPages(count, pageSize).value;
            if pageSize > 0 then (r - 1) * pageSize < count <= r * pageSize
            else r * pageSize <= count < (r - 1) * pageSize
  {
    if pageSize > 0 {
      Paging.CeilDivIsCeiling(count, pageSize);
    } else {
      var d := -pageSize;
      var q, m := count / d, count % d;
      assert count == q * d + m && 0 <= m < d;
      assert -q * pageSize == q * d;
      assert (-q - 1) * pageSize == q * d + d;
    }
  }

  /** What the view receives: the products shown, ViewBag.TotalPages and
      ViewBag.CurrentPage. */
  datatype IndexView = IndexView(products: seq<Product>, totalPages: Option<int>, currentPage: int)

  /** The offset (page - 1) * pageSize as the source computes it, in
      unchecked 32-bit arithmetic. Wrapping page - 1 first and then the
      product gives the same value, as both are congruent modulo 2^32. */
  function Offset(page: Int32, pageSize: Int32): (o: Int32)
    ensures MinInt32 <= (page - 1) * pageSize <= MaxInt32 ==> o == (page - 1) * pageSize
  {
    Wrap32((page - 1) * pageSize)
  }

  /** ProductController.Index(page, pageSize). */
  function Index(catalog: seq<Product>, page: Int32, pageSize: Int32): (v: IndexView)
    ensures v.currentPage == page
    ensures v.totalPages == TotalPages(|catalog|, pageSize)
    ensures var start := if Offset(page, pageSize) < 0 then 0 else Offset(page, pageSize);
            |v.products| == if pageSize <= 0 || start >= |catalog| then 0 else Min(pageSize, |catalog| - start)
    ensures var start := if Offset(page, pageSize) < 0 then 0 else Offset(page, pageSize);
            forall i :: 0 <= i < |v.products| ==> start + i < |catalog| && v.products[i] == catalog[start + i]
  {
    var o := Offset(page, pageSize);
    IndexView(SkipTake(catalog, o, pageSize), TotalPages(|catalog|, pageSize), page)
  }

  lemma MulNonPositive(a: int, b: int)
    requires a <= 0 && b >= 0
    ensures a * b <= 0
  {
    assert (-a) * b >= 0;
  }

  /** Without clamping a page number of 0 or less gives an offset of 0 or
      less, which Skip treats as 0: the first pageSize products are shown
      while CurrentPage still echoes the page asked for. */
  lemma PageBelowOneShowsFirstPage(catalog: seq<Product>, page: Int32, pageSize: Int32)
    requires page <= 0 && pageSize >= 1 && (page - 1) * pageSize >= MinInt32
    ensures Index(catalog, page, pageSize).products == catalog[..Min(pageSize, |catalog|)]
    ensures Index(catalog, page, pageSize).currentPage == page
  {
    MulNonPositive(page - 1, pageSize);
    assert Offset(page, pageSize) <= 0;
  }

  /** The offset wraps for a page far below 1: page -1073741824 of size 2
      has the exact offset -2147483650, which wraps to 2147483646, past any
      catalog, so the page is empty although page -1 of size 2 is not. */
  lemma FarNegativePageWraps()
    ensures Offset(-1073741824, 2) == 2147483646
    ensures Index(Paging.SixProducts(), -1073741824, 2).products == []
    ensures Index(Paging.SixProducts(), -1, 2).products == Paging.SixProducts()[..2]
  {
  }

  /** For a positive page size the page count is the ceiling of count /
      pageSize, so 0 exactly for an empty catalog. */
  lemma PageCountForPositiveSize(catalog: seq<Product>, page: Int32, pageSize: Int32)
    requires pageSize >= 1
    ensures Index(catalog, page, pageSize).totalPages == Some(Paging.CeilDiv(|catalog|, pageSize))
    ensures Index(catalog, page, pageSize).totalPages == Some(0) <==> catalog == []
  {
  }

  /** On requests with page and page size at least 1 the old controller
      shows what the clamping ProductService (as written) returns. */
  lemma AgreesWithProductService(catalog: seq<Product>, page: Int32, pageSize: Int32)
    requires page >= 1 && pageSize >= 1
    ensures Index(catalog, page, pageSize).products == Paging.GetProductsAsWritten(catalog, page, pageSize).products
    ensures Index(catalog, page, pageSize).totalPages == Some(Paging.GetProductsAsWritten(catalog, page, pageSize).totalPages)
  {
    assert Paging.ClampPage(page) == page && Paging.ClampPageSize(pageSize) == pageSize;
    assert (Paging.ClampPage(page) - 1) * Paging.ClampPageSize(pageSize) == (page - 1) * pageSize;
  }
}
