/** The older CartController at the repository root: one process-wide
    list of products, where adding a product appends another copy of it
    and removing deletes the first copy. */
module LegacyCart {
  import opened Linq
  import opened Catalog

  /** Cart.Sum(p => p.Price), in cents. */
  function PriceSum(products: seq<Product>): (r: int)
    ensures (forall i :: 0 <= i < |products| ==> products[i].price >= 0) ==> r >= 0
  {
    if products == [] then 0 else products[0].price + PriceSum(products[1..])
  }

  /** Cart.Remove(Cart.FirstOrDefault(p => p.Id == id)) as a list
      function: the first product with that id is taken out, nothing
      else moves; without such a product the list is unchanged. */
  function RemoveFirst(products: seq<Product>, id: int): (r: seq<Product>)
    ensures IndexOfId(products, id).None? ==> r == products
    ensures IndexOfId(products, id).Some? ==>
              var i := IndexOfId(products, id).value;
              r == products[..i] + products[i + 1..]
  {
    if products == [] then []
    else if products[0].id == id then products[1..]
    else
      match IndexOfId(products[1..], id)
      case None => [products[0]] + RemoveFirst(products[1..], id)
      case Some(j) =>
        DeleteAfterHead(products, j);
        [products[0]] + RemoveFirst(products[1..], id)
  }

  lemma DeleteAfterHead(products: seq<Product>, j: nat)
    requires j + 1 < |products|
    ensures products[..j + 1] + products[j + 2..] == [products[0]] + (products[1..][..j] + products[1..][j + 1..])
  {
    assert products[..j + 1] == [products[0]] + products[1..][..j];
    assert products[j + 2..] == products[1..][j + 1..];
  }

  /** Adding a product adds its full price, whether or not a copy of it
      is already in the cart. */
  lemma {:induction false} PriceSumAppend(products: seq<Product>, p: Product)
    ensures PriceSum(products + [p]) == PriceSum(products) + p.price
  {
    if products != [] {
      assert (products + [p])[1..] == products[1..] + [p];
      PriceSumAppend(products[1..], p);
    }
  }

  /** Taking out the entry at position k takes out exactly its price. */
  lemma {:induction false} PriceSumDelete(products: seq<Product>, k: nat)
    requires k < |products|
    ensures PriceSum(products[..k] + products[k + 1..]) == PriceSum(products) - products[k].price
  {
    if k == 0 {
      assert products[..0] + products[1..] == products[1..];
    } else {
      var rest := products[1..];
      assert (products[..k] + products[k + 1..])[1..] == rest[..k - 1] + rest[k..];
      PriceSumDelete(rest, k - 1);
    }
  }

  /** RemoveFirst takes one copy of the first product carrying id out of
      the cart's multiset of products, and lowers the total price by its
      price; with no such product both stay. */
  lemma RemoveFirstRemovesOneCopy(products: seq<Product>, id: int)
    ensures match IndexOfId(products, id)
            case None =>
              && multiset(RemoveFirst(products, id)) == multiset(products)
              && PriceSum(RemoveFirst(products, id)) == PriceSum(products)
            case Some(i) =>
              && multiset(RemoveFirst(products, id)) == multiset(products) - multiset{products[i]}
              && PriceSum(RemoveFirst(products, id)) == PriceSum(products) - products[i].price
              && |RemoveFirst(products, id)| == |products| - 1
  {
    match IndexOfId(products, id)
    case None =>
    case Some(i) =>
      PriceSumDelete(products, i);
      assert products == products[..i] + [products[i]] + products[i + 1..];
  }

  /** CartController with its static Cart list as the field `cart`: one
      object stands for the process, shared by every request. */
  class CartController {
    var cart: seq<Product>

    /** Process start: the static list is empty. */
    constructor ()
      ensures cart == []
    {
      cart := [];
    }

    /** Index: the cart's products and their total price, every copy
        counted. */
    method Index() returns (view: seq<Product>, totalPrice: int)
      ensures view == cart
      ensures totalPrice == PriceSum(cart)
    {
      view := cart;
      totalPrice := PriceSum(cart);
    }

    /** GetCartCount: the number of list entries, copies included. */
    method GetCartCount() returns (cartCount: int)
      ensures cartCount == |cart|
    {
      cartCount := |cart|;
    }

    /** AddToCart: appends the catalog product with this id (another copy
        if one is already there); an unknown id changes nothing. Either
        way the answer reports success. */
    method AddToCart(catalog: seq<Product>, productId: int) returns (success: bool, cartCount: int)
      modifies this
      ensures success
      ensures FindProduct(catalog, productId).Some? ==> cart == old(cart) + [FindProduct(catalog, productId).value]
      ensures FindProduct(catalog, productId).None? ==> cart == old(cart)
      ensures cartCount == |cart|
      ensures cartCount == |old(cart)| + (if FindProduct(catalog, productId).Some? then 1 else 0)
    {
      var product := FindProduct(catalog, productId);
      if product.Some? {
        cart := cart + [product.value];
      }
      success, cartCount := true, |cart|;
    }

    /** RemoveFromCart: deletes the first entry with this id, if any. */
    method RemoveFromCart(productId: int)
      modifies this
      ensures cart == RemoveFirst(old(cart), productId)
    {
      var found := IndexOfId(cart, productId);
      if found.Some? {
        var i := found.value;
        cart := cart[..i] + cart[i + 1..];
      }
    }
  }

  /** Two adds of the same product give two entries and twice its price;
      one remove then leaves one copy. */
  method DuplicateScenario()
  {
    var p := Product(1, "Product 1", 1000);
    var controller := new CartController();
    var success, count := controller.AddToCart([p], 1);
    success, count := controller.AddToCart([p], 1);
    assert success && count == 2;
    var view, total := controller.Index();
    PriceSumAppend([p], p);
    assert view == [p, p] && total == 2000;
    controller.RemoveFromCart(1);
    count := controller.GetCartCount();
    assert count == 1;
    success, count := controller.AddToCart([p], 7);
    assert success && count == 1;
  }
}
