/** The session-scoped cart of CartService: an ordered list of
    (product, quantity) entries kept at most one per product id, every
    quantity at least 1. The session slot "ShoppingCart" that the service
    reads and rewrites around every operation is the field `items` of a
    CartService object. */
module SessionCart {
  import opened Linq
  import opened Catalog

  datatype CartItem = CartItem(product: Product, quantity: int)

  /** The cart invariant: every quantity is at least 1 and no product id
      has two entries. */
  ghost predicate WellFormed(items: seq<CartItem>) {
    && (forall i :: 0 <= i < |items| ==> items[i].quantity >= 1)
    && (forall i, j :: 0 <= i < j < |items| ==> items[i].product.id != items[j].product.id)
  }

  /** No entry of the cart is for this product id. */
  ghost predicate Absent(items: seq<CartItem>, id: int) {
    forall k :: 0 <= k < |items| ==> items[k].product.id != id
  }

  /** k is the first entry for this product id, the one FirstOrDefault picks. */
  ghost predicate FirstEntry(items: seq<CartItem>, id: int, k: int) {
    && 0 <= k < |items|
    && items[k].product.id == id
    && forall j :: 0 <= j < k ==> items[j].product.id != id
  }

  /** cart.FirstOrDefault(item => item.Product.Id == id), as a position. */
  function IndexOfItem(items: seq<CartItem>, id: int): (r: Option<nat>)
    ensures r.None? <==> Absent(items, id)
    ensures r.Some? ==> FirstEntry(items, id, r.value)
  {
    if items == [] then None
    else if items[0].product.id == id then Some(0)
    else match IndexOfItem(items[1..], id)
      case None => None
      case Some(k) => Some(k + 1)
  }

  /** The quantity of the entry for id, or 0 when the cart has none. */
  function QuantityOf(items: seq<CartItem>, id: int): (q: int)
    ensures Absent(items, id) ==> q == 0
    ensures forall k :: FirstEntry(items, id, k) ==> q == items[k].quantity
    ensures WellFormed(items) ==> (q >= 1 <==> !Absent(items, id)) && q >= 0
  {
    match IndexOfItem(items, id)
    case None => 0
    case Some(i) => items[i].quantity
  }

  /** The sum of all quantities: units in the cart, not distinct products. */
  function TotalQuantity(items: seq<CartItem>): (n: int)
    ensures WellFormed(items) ==> n >= |items|
  {
    if items == [] then 0 else items[0].quantity + TotalQuantity(items[1..])
  }

  /** The new list of a successful AddToCart of catalog product p: the
      entry for p.id gains one unit, or p is appended with quantity 1. */
  function AddItem(items: seq<CartItem>, p: Product): (r: seq<CartItem>)
    ensures forall k :: FirstEntry(items, p.id, k) ==>
              r == items[k := CartItem(items[k].product, items[k].quantity + 1)]
    ensures Absent(items, p.id) ==> r == items + [CartItem(p, 1)]
  {
    match IndexOfItem(items, p.id)
    case Some(i) => items[i := CartItem(items[i].product, items[i].quantity + 1)]
    case None => items + [CartItem(p, 1)]
  }

  /** The new list of RemoveFromCart(id): the entry for id loses one
      unit, or is dropped when it held a single one; with no entry for
      id the list is unchanged. */
  function RemoveItem(items: seq<CartItem>, id: int): (r: seq<CartItem>)
    ensures Absent(items, id) ==> r == items
    ensures forall k :: FirstEntry(items, id, k) && items[k].quantity > 1 ==>
              r == items[k := CartItem(items[k].product, items[k].quantity - 1)]
    ensures forall k :: FirstEntry(items, id, k) && items[k].quantity <= 1 ==>
              r == items[..k] + items[k + 1..]
  {
    match IndexOfItem(items, id)
    case None => items
    case Some(i) =>
      if items[i].quantity > 1 then items[i := CartItem(items[i].product, items[i].quantity - 1)]
      else items[..i] + items[i + 1..]
  }

  /** RemoveItem applied n times for the same id. */
  function RemoveTimes(items: seq<CartItem>, id: int, n: nat): seq<CartItem>
    decreases n
  {
    if n == 0 then items else RemoveTimes(RemoveItem(items, id), id, n - 1)
  }

  // ---- TotalQuantity under the three list edits ----

  lemma {:induction false} TotalAppend(items: seq<CartItem>, x: CartItem)
    ensures TotalQuantity(items + [x]) == TotalQuantity(items) + x.quantity
  {
    if items != [] {
      assert (items + [x])[1..] == items[1..] + [x];
      TotalAppend(items[1..], x);
    }
  }

  lemma {:induction false} TotalUpdate(items: seq<CartItem>, k: nat, x: CartItem)
    requires k < |items|
    ensures TotalQuantity(items[k := x]) == TotalQuantity(items) - items[k].quantity + x.quantity
  {
    if k > 0 {
      assert items[k := x][1..] == items[1..][k - 1 := x];
      TotalUpdate(items[1..], k - 1, x);
    }
  }

  lemma {:induction false} TotalDelete(items: seq<CartItem>, k: nat)
    requires k < |items|
    ensures TotalQuantity(items[..k] + items[k + 1..]) == TotalQuantity(items) - items[k].quantity
  {
    if k == 0 {
      assert items[..0] + items[1..] == items[1..];
    } else {
      var rest := items[1..];
      assert (items[..k] + items[k + 1..])[1..] == rest[..k - 1] + rest[k..];
      TotalDelete(rest, k - 1);
    }
  }

  // ---- The cart invariant is preserved ----

  lemma AddItemPreservesWellFormed(items: seq<CartItem>, p: Product)
    requires WellFormed(items)
    ensures WellFormed(AddItem(items, p))
  {
    var r := AddItem(items, p);
    match IndexOfItem(items, p.id)
    case Some(i) =>
      assert forall k :: 0 <= k < |r| ==> r[k].product == items[k].product;
    case None =>
      assert forall k :: 0 <= k < |items| ==> r[k] == items[k];
  }

  lemma RemoveItemPreservesWellFormed(items: seq<CartItem>, id: int)
    requires WellFormed(items)
    ensures WellFormed(RemoveItem(items, id))
  {
    var r := RemoveItem(items, id);
    match IndexOfItem(items, id)
    case None =>
    case Some(i) =>
      if items[i].quantity > 1 {
        assert forall k :: 0 <= k < |r| ==> r[k].product == items[k].product;
      } else {
        assert forall k :: 0 <= k < |r| ==> r[k] == items[if k < i then k else k + 1];
      }
  }

  // ---- What GetProductQuantity and GetCartItemCount report after an edit ----

  /** Adding product p raises the quantity reported for p.id by exactly
      one and leaves every other id's quantity alone. */
  lemma QuantityAfterAdd(items: seq<CartItem>, p: Product, id: int)
    requires WellFormed(items)
    ensures QuantityOf(AddItem(items, p), id) == QuantityOf(items, id) + (if id == p.id then 1 else 0)
  {
    var r := AddItem(items, p);
    AddItemPreservesWellFormed(items, p);
    match IndexOfItem(items, p.id)
    case Some(i) =>
      assert r[i].product.id == p.id;
      if id != p.id {
        match IndexOfItem(items, id)
        case None =>
          assert Absent(r, id) by {
            assert forall k :: 0 <= k < |r| ==> r[k].product == items[k].product;
          }
        case Some(j) =>
          assert r[j] == items[j];
      }
    case None =>
      assert r[|items|] == CartItem(p, 1);
      if id != p.id {
        match IndexOfItem(items, id)
        case None =>
          assert Absent(r, id) by {
            assert forall k :: 0 <= k < |items| ==> r[k] == items[k];
          }
        case Some(j) =>
          assert r[j] == items[j];
      }
  }

  lemma QuantityAfterDecrement(items: seq<CartItem>, i: nat, x: int)
    requires i < |items|
    ensures QuantityOf(items[i := CartItem(items[i].product, items[i].quantity - 1)], x) ==
            QuantityOf(items, x) - (if FirstEntry(items, x, i) then 1 else 0)
  {
    var r := items[i := CartItem(items[i].product, items[i].quantity - 1)];
    assert forall k :: 0 <= k < |r| ==> r[k].product == items[k].product;
    match IndexOfItem(items, x)
    case None =>
    case Some(j) =>
      assert FirstEntry(r, x, j);
  }

  lemma QuantityAfterDelete(items: seq<CartItem>, i: nat, x: int)
    requires WellFormed(items) && i < |items|
    ensures QuantityOf(items[..i] + items[i + 1..], x) ==
            if x == items[i].product.id then 0 else QuantityOf(items, x)
  {
    var r := items[..i] + items[i + 1..];
    assert forall k :: 0 <= k < |r| ==> r[k] == items[if k < i then k else k + 1];
    if x == items[i].product.id {
      assert Absent(r, x);
    } else {
      match IndexOfItem(items, x)
      case None =>
        assert Absent(r, x);
      case Some(j) =>
        assert FirstEntry(r, x, if j < i then j else j - 1);
    }
  }

  /** Removing id lowers the quantity reported for id by one when the
      cart has an entry for it; every other id is unaffected. */
  lemma QuantityAfterRemove(items: seq<CartItem>, id: int, x: int)
    requires WellFormed(items)
    ensures QuantityOf(RemoveItem(items, id), x) ==
            QuantityOf(items, x) - (if x == id && !Absent(items, id) then 1 else 0)
  {
    match IndexOfItem(items, id)
    case None =>
    case Some(i) =>
      if items[i].quantity > 1 {
        QuantityAfterDecrement(items, i, x);
        assert FirstEntry(items, x, i) <==> x == id;
      } else {
        QuantityAfterDelete(items, i, x);
      }
  }

  /** A successful add puts exactly one more unit in the cart. */
  lemma TotalAfterAdd(items: seq<CartItem>, p: Product)
    ensures TotalQuantity(AddItem(items, p)) == TotalQuantity(items) + 1
  {
    match IndexOfItem(items, p.id)
    case Some(i) => TotalAfterAddExisting(items, p, i);
    case None => TotalAfterAddNew(items, p);
  }

  lemma TotalAfterAddExisting(items: seq<CartItem>, p: Product, i: nat)
    requires FirstEntry(items, p.id, i)
    ensures TotalQuantity(AddItem(items, p)) == TotalQuantity(items) + 1
  {
    TotalUpdate(items, i, CartItem(items[i].product, items[i].quantity + 1));
  }

  lemma TotalAfterAddNew(items: seq<CartItem>, p: Product)
    requires Absent(items, p.id)
    ensures TotalQuantity(AddItem(items, p)) == TotalQuantity(items) + 1
  {
    TotalAppend(items, CartItem(p, 1));
  }

  /** A remove takes exactly one unit out of the cart when the id has an
      entry, and none otherwise. */
  lemma TotalAfterRemove(items: seq<CartItem>, id: int)
    requires WellFormed(items)
    ensures TotalQuantity(RemoveItem(items, id)) == TotalQuantity(items) - (if Absent(items, id) then 0 else 1)
  {
    match IndexOfItem(items, id)
    case None =>
    case Some(i) =>
      if items[i].quantity > 1 {
        TotalUpdate(items, i, CartItem(items[i].product, items[i].quantity - 1));
      } else {
        TotalDelete(items, i);
      }
  }

  /** Removing a product as many times as its quantity succeeds every
      time, then leaves no entry for it, and leaves every other product's
      quantity as it was. */
  lemma {:induction false} RemoveAllUnits(items: seq<CartItem>, id: int)
    requires WellFormed(items)
    ensures forall m :: 0 <= m < QuantityOf(items, id) ==> !Absent(RemoveTimes(items, id, m), id)
    ensures Absent(RemoveTimes(items, id, QuantityOf(items, id)), id)
    ensures forall x :: x != id ==> QuantityOf(RemoveTimes(items, id, QuantityOf(items, id)), x) == QuantityOf(items, x)
    decreases QuantityOf(items, id)
  {
    var q := QuantityOf(items, id);
    if q > 0 {
      var next := RemoveItem(items, id);
      RemoveItemPreservesWellFormed(items, id);
      QuantityAfterRemove(items, id, id);
      assert QuantityOf(next, id) == q - 1;
      RemoveAllUnits(next, id);
      forall x | x != id
        ensures QuantityOf(RemoveTimes(items, id, q), x) == QuantityOf(items, x)
      {
        QuantityAfterRemove(items, id, x);
      }
      forall m | 0 <= m < q
        ensures !Absent(RemoveTimes(items, id, m), id)
      {
        if m > 0 {
          assert RemoveTimes(items, id, m) == RemoveTimes(next, id, m - 1);
        }
      }
    }
  }

  /** CartService: the cart of one session. */
  class CartService {
    /** The list stored under the session key "ShoppingCart". */
    var items: seq<CartItem>

    ghost predicate Valid()
      reads this
    {
      WellFormed(items)
    }

    /** A new session starts with an empty cart. */
    constructor ()
      ensures Valid() && items == []
    {
      items := [];
    }

    /** GetCartItems: the entries in the order their products were first added. */
    function GetCartItems(): (r: seq<CartItem>)
      reads this
      ensures r == items
    {
      items
    }

    /** GetCartItemCount: the units in the cart, summed over all entries. */
    function GetCartItemCount(): (n: int)
      reads this
      ensures n == TotalQuantity(items)
      ensures Valid() ==> n >= |items|
    {
      TotalQuantity(items)
    }

    /** GetProductQuantity: the quantity of the entry for productId, or 0. */
    function GetProductQuantity(productId: int): (q: int)
      reads this
      ensures q == QuantityOf(items, productId)
      ensures Valid() ==> (q == 0 <==> Absent(items, productId))
    {
      QuantityOf(items, productId)
    }

    /** AddToCart: fails, changing nothing, when the catalog has no product
        with this id; otherwise bumps the existing entry or appends a new
        one with quantity 1. */
    method AddToCart(catalog: seq<Product>, productId: int) returns (ok: bool)
      requires Valid()
      modifies this
      ensures Valid()
      ensures ok <==> exists k :: 0 <= k < |catalog| && catalog[k].id == productId
      ensures !ok ==> items == old(items)
      ensures ok ==> items == AddItem(old(items), FindProduct(catalog, productId).value)
      ensures GetProductQuantity(productId) == old(GetProductQuantity(productId)) + (if ok then 1 else 0)
      ensures GetCartItemCount() == old(GetCartItemCount()) + (if ok then 1 else 0)
    {
      var product := FindProduct(catalog, productId);
      if product.None? {
        return false;
      }
      var p := product.value;
      QuantityAfterAdd(items, p, productId);
      TotalAfterAdd(items, p);
      AddItemPreservesWellFormed(items, p);
      var existing := IndexOfItem(items, productId);
      if existing.Some? {
        var i := existing.value;
        items := items[i := CartItem(items[i].product, items[i].quantity + 1)];
      } else {
        items := items + [CartItem(p, 1)];
      }
      ok := true;
    }

    /** RemoveFromCart: fails, changing nothing, when the cart has no entry
        for this id; otherwise removes one unit of it. */
    method RemoveFromCart(productId: int) returns (ok: bool)
      requires Valid()
      modifies this
      ensures Valid()
      ensures ok <==> !Absent(old(items), productId)
      ensures items == RemoveItem(old(items), productId)
      ensures GetProductQuantity(productId) == old(GetProductQuantity(productId)) - (if ok then 1 else 0)
      ensures GetCartItemCount() == old(GetCartItemCount()) - (if ok then 1 else 0)
    {
      var existing := IndexOfItem(items, productId);
      if existing.None? {
        return false;
      }
      QuantityAfterRemove(items, productId, productId);
      TotalAfterRemove(items, productId);
      RemoveItemPreservesWellFormed(items, productId);
      var i := existing.value;
      if items[i].quantity > 1 {
        items := items[i := CartItem(items[i].product, items[i].quantity - 1)];
      } else {
        items := items[..i] + items[i + 1..];
      }
      ok := true;
    }
  }

  /** The unit-test scenarios of the cart service, stated as obligations
      on a client that knows only the contracts above. */
  function TestCatalog(): seq<Product> {
    [Product(1, "Product 1", 1000), Product(2, "Product 2", 1500), Product(3, "Product 3", 2000)]
  }

  method UnknownIdScenario()
  {
    var catalog := TestCatalog();
    var cart := new CartService();
    var ok := cart.AddToCart(catalog, 999);
    assert !ok && cart.GetCartItems() == [];
  }

  method RemoveFromEmptyScenario()
  {
    var cart := new CartService();
    var ok := cart.RemoveFromCart(1);
    assert !ok;
  }

  method AddNewScenario()
  {
    var catalog := TestCatalog();
    var p := catalog[0];
    assert p.id == 1 && FindProduct(catalog, 1) == Some(p);
    var cart := new CartService();
    var ok := cart.AddToCart(catalog, 1);
    assert ok && cart.GetCartItems() == [CartItem(p, 1)];
  }

  method AddExistingScenario()
  {
    var catalog := TestCatalog();
    var p := catalog[0];
    assert p.id == 1 && FindProduct(catalog, 1) == Some(p);
    var cart := new CartService();
    cart.items := [CartItem(p, 1)];
    assert FirstEntry(cart.items, 1, 0);
    var ok := cart.AddToCart(catalog, 1);
    assert ok && cart.GetCartItems() == [CartItem(p, 2)];
  }

  method RemoveTwiceScenario()
  {
    var cart := new CartService();
    var p := TestCatalog()[0];
    cart.items := [CartItem(p, 2)];
    assert FirstEntry(cart.items, 1, 0);
    var ok := cart.RemoveFromCart(1);
    assert ok && cart.GetCartItems() == [CartItem(p, 1)];
    assert FirstEntry(cart.items, 1, 0);
    ok := cart.RemoveFromCart(1);
    assert ok && cart.GetCartItems() == [];
  }

  method CountScenario()
  {
    var catalog := TestCatalog();
    assert catalog[0].id == 1 && catalog[1].id == 2;
    var cart := new CartService();
    var ok := cart.AddToCart(catalog, 1);
    ok := cart.AddToCart(catalog, 1);
    ok := cart.AddToCart(catalog, 2);
    assert cart.GetCartItemCount() == 3;
    assert cart.GetProductQuantity(1) == 2 && cart.GetProductQuantity(2) == 1;
    assert cart.GetProductQuantity(999) == 0;
  }
}
