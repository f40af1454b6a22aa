/** The product record shared by every part of the shop, and the
    FirstOrDefault lookup by id that both the carts and the catalog use.
    The catalog itself is whatever list the remote product source returned
    (possibly empty); it is always passed in as a value. */
module Catalog {
  import opened Linq

  /** A product as fetched from the remote source. The decimal price is
      modelled as a whole number of cents. */
  datatype Product = Product(id: int, title: string, price: int)

  /** The position of the first product with the given id, if any. */
  function IndexOfId(products: seq<Product>, id: int): (r: Option<nat>)
    ensures r.None? <==> forall k :: 0 <= k < |products| ==> products[k].id != id
    ensures r.Some? ==> r.value < |products| && products[r.value].id == id
    ensures r.Some? ==> forall k :: 0 <= k < r.value ==> products[k].id != id
  {
    if products == [] then None
    else if products[0].id == id then Some(0)
    else match IndexOfId(products[1..], id)
      case None => None
      case Some(k) => Some(k + 1)
  }

  /** products.FirstOrDefault(p => p.Id == id): the first product carrying
      that id, or nothing when no product does. */
  function FindProduct(products: seq<Product>, id: int): (r: Option<Product>)
    ensures r.None? <==> forall k :: 0 <= k < |products| ==> products[k].id != id
    ensures r.Some? ==> r.value in products && r.value.id == id
    ensures r.Some? ==> exists i :: 0 <= i < |products| && products[i] == r.value
                                    && forall k :: 0 <= k < i ==> products[k].id != id
  {
    match IndexOfId(products, id)
    case None => None
    case Some(i) => Some(products[i])
  }
}
