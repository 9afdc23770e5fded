/** The client-side cart store: an ordered list of items keyed by product id,
    with add, update-quantity, remove, clear and a derived total, plus the
    customer details held beside it. */
module Cart {
  import opened Seqs

  /** A JavaScript value in a numeric slot: a number, or `NaN`. `NaN` also
      stands for a value that is not of type number at all, since the store
      treats both alike. Amounts are whole Rupiah. */
  datatype Num = Finite(value: int) | NaN

  /** `typeof x === "number" && !isNaN(x) ? x : fallback` */
  function OrDefault(x: Num, fallback: int): int
  {
    if x.Finite? then x.value else fallback
  }

  /** A cart line: a product with a quantity. Colour, size and material ride
      along with the line but play no part in its identity. */
  datatype CartItem = CartItem(
    id: string,
    name: string,
    price: Num,
    description: string,
    image: string,
    color: Option<string>,
    size: Option<string>,
    material: Option<string>,
    quantity: Num)

  datatype CustomerInfo = CustomerInfo(name: string, email: string, address: string, phone: string)

  /** Both numeric fields of the item are numbers. */
  predicate IsFinite(item: CartItem)
  {
    item.price.Finite? && item.quantity.Finite?
  }

  /** Every item of the cart has numeric price and quantity. */
  ghost predicate AllFinite(cart: seq<CartItem>)
  {
    forall i :: 0 <= i < |cart| ==> IsFinite(cart[i])
  }

  /** No two items of the cart share an id. */
  ghost predicate DistinctIds(cart: seq<CartItem>)
  {
    forall i, j :: 0 <= i < j < |cart| ==> cart[i].id != cart[j].id
  }

  /** The cart holds an item with this id. */
  ghost predicate HasId(cart: seq<CartItem>, id: string)
  {
    exists i :: 0 <= i < |cart| && cart[i].id == id
  }

  /** The product as `addToCart` stores it: a price that is not a number
      becomes 0, a quantity that is not a number becomes 1, all else is kept. */
  function Sanitized(item: CartItem): (r: CartItem)
    ensures IsFinite(r)
    ensures r.price == (if item.price.Finite? then item.price else Finite(0))
    ensures r.quantity == (if item.quantity.Finite? then item.quantity else Finite(1))
    ensures r.(price := item.price, quantity := item.quantity) == item
  {
    item.(price := Finite(OrDefault(item.price, 0)), quantity := Finite(OrDefault(item.quantity, 1)))
  }

  /** `cart.find(item => item.id === id)` */
  function Find(cart: seq<CartItem>, id: string): (r: Option<CartItem>)
    ensures r.Some? <==> HasId(cart, id)
    ensures r.Some? ==> r.value.id == id && r.value in cart
  {
    if cart == [] then None
    else if cart[0].id == id then Some(cart[0])
    else
      var r := Find(cart[1..], id);
      assert r.Some? ==> r.value in cart;
      assert HasId(cart[1..], id) ==> HasId(cart, id) by {
        if HasId(cart[1..], id) {
          var i :| 0 <= i < |cart[1..]| && cart[1..][i].id == id;
          assert cart[i + 1].id == id;
        }
      }
      assert HasId(cart, id) ==> HasId(cart[1..], id) by {
        if HasId(cart, id) {
          var i :| 0 <= i < |cart| && cart[i].id == id;
          assert i != 0 && cart[1..][i - 1].id == id;
        }
      }
      r
  }

  /** The `prevCart.map(...)` branch of `addToCart`: each item with the id
      gets `added` more units (a quantity that is not a number counts as 0). */
  function MergeQuantity(cart: seq<CartItem>, id: string, added: int): seq<CartItem>
  {
    seq(|cart|, i requires 0 <= i < |cart| =>
      if cart[i].id == id then cart[i].(quantity := Finite(OrDefault(cart[i].quantity, 0) + added))
      else cart[i])
  }

  /** The cart after `addToCart(product)`. */
  function Added(cart: seq<CartItem>, product: CartItem): seq<CartItem>
  {
    var safe := Sanitized(product);
    if Find(cart, safe.id).Some? then MergeQuantity(cart, safe.id, OrDefault(safe.quantity, 1))
    else cart + [safe]
  }

  /** The cart after `updateQuantity(id, quantity)`: every item with the id
      gets the new quantity (1 when it is not a number); zero and negative
      quantities are stored as given. */
  function Updated(cart: seq<CartItem>, id: string, quantity: Num): seq<CartItem>
  {
    seq(|cart|, i requires 0 <= i < |cart| =>
      if cart[i].id == id then cart[i].(quantity := Finite(OrDefault(quantity, 1))) else cart[i])
  }

  /** The cart after `removeFromCart(id)`. */
  function Removed(cart: seq<CartItem>, id: string): seq<CartItem>
  {
    Filter(cart, (item: CartItem) => item.id != id)
  }

  /** What one item adds to the total: price times quantity, a price or
      quantity that is not a number counting as 0. */
  function LineTotal(item: CartItem): int
  {
    OrDefault(item.price, 0) * OrDefault(item.quantity, 0)
  }

  /** The `totalPrice` reduce, folded from the left. */
  function Total(cart: seq<CartItem>): int
  {
    if cart == [] then 0 else Total(cart[..|cart| - 1]) + LineTotal(cart[|cart| - 1])
  }

  // ---------------------------------------------------------------------------
  // addToCart

  /** Adding an item whose id is present keeps the length, the order and every
      other item; the matching item's quantity grows by the added quantity. */
  lemma AddExisting(cart: seq<CartItem>, product: CartItem)
    requires HasId(cart, product.id)
    ensures |Added(cart, product)| == |cart|
    ensures forall i :: 0 <= i < |cart| ==>
      Added(cart, product)[i] ==
        if cart[i].id == product.id
        then cart[i].(quantity := Finite(OrDefault(cart[i].quantity, 0) + OrDefault(product.quantity, 1)))
        else cart[i]
  {
  }

  /** Adding an item whose id is absent appends its sanitised form. */
  lemma AddAbsent(cart: seq<CartItem>, product: CartItem)
    requires !HasId(cart, product.id)
    ensures Added(cart, product) == cart + [Sanitized(product)]
  {
  }

  /** Colour, size and material do not split lines: adding the same product
      twice with different options leaves a single line holding both quantities. */
  lemma OptionsDoNotSplitLines(red: CartItem, blue: CartItem)
    requires red.id == blue.id && red.color != blue.color
    requires red.quantity == Finite(1) && blue.quantity == Finite(2)
    ensures |Added(Added([], red), blue)| == 1
    ensures Added(Added([], red), blue)[0].quantity == Finite(3)
    ensures Added(Added([], red), blue)[0].color == red.color
  {
    var once := Added([], red);
    assert once == [Sanitized(red)];
    assert HasId(once, blue.id) by { assert once[0].id == blue.id; }
  }

  lemma AddPreservesInvariant(cart: seq<CartItem>, product: CartItem)
    requires AllFinite(cart) && DistinctIds(cart)
    ensures AllFinite(Added(cart, product)) && DistinctIds(Added(cart, product))
  {
    if !HasId(cart, product.id) {
      var r := cart + [Sanitized(product)];
      forall i, j | 0 <= i < j < |r| ensures r[i].id != r[j].id {
        if j == |cart| {
          assert cart[i].id != product.id;
        }
      }
    }
  }

  // ---------------------------------------------------------------------------
  // updateQuantity

  /** `updateQuantity` keeps length, order and every field but the quantity
      of the items with the id; a quantity that is not a number becomes 1,
      any number (zero and negatives included) is stored as given. */
  lemma UpdateSpec(cart: seq<CartItem>, id: string, quantity: Num)
    ensures |Updated(cart, id, quantity)| == |cart|
    ensures forall i :: 0 <= i < |cart| ==>
      Updated(cart, id, quantity)[i].(quantity := cart[i].quantity) == cart[i]
    ensures forall i :: 0 <= i < |cart| ==>
      Updated(cart, id, quantity)[i].quantity ==
        if cart[i].id != id then cart[i].quantity
        else if quantity.Finite? then quantity else Finite(1)
  {
  }

  /** Zero and negative quantities are not rejected. */
  lemma UpdateAcceptsNonPositive(cart: seq<CartItem>, k: nat)
    requires k < |cart|
    ensures Updated(cart, cart[k].id, Finite(0))[k].quantity == Finite(0)
    ensures Updated(cart, cart[k].id, Finite(-3))[k].quantity == Finite(-3)
  {
  }

  lemma UpdatePreservesInvariant(cart: seq<CartItem>, id: string, quantity: Num)
    requires AllFinite(cart) && DistinctIds(cart)
    ensures AllFinite(Updated(cart, id, quantity)) && DistinctIds(Updated(cart, id, quantity))
  {
  }

  // ---------------------------------------------------------------------------
  // removeFromCart

  /** `removeFromCart` deletes exactly the items with the id and keeps the
      rest, each as often as before, in their original order. */
  lemma RemoveSpec(cart: seq<CartItem>, id: string)
    ensures IsSubsequence(Removed(cart, id), cart)
    ensures forall x :: multiset(Removed(cart, id))[x] == if x.id == id then 0 else multiset(cart)[x]
    ensures !HasId(Removed(cart, id), id)
  {
    var keep := (item: CartItem) => item.id != id;
    FilterIsSubsequence(cart, keep);
    forall x ensures multiset(Removed(cart, id))[x] == if x.id == id then 0 else multiset(cart)[x] {
      FilterCount(cart, keep, x);
    }
  }

  /** Removing an id the cart does not hold changes nothing. */
  lemma RemoveAbsent(cart: seq<CartItem>, id: string)
    requires !HasId(cart, id)
    ensures Removed(cart, id) == cart
  {
    FilterKeepsAll(cart, (item: CartItem) => item.id != id);
  }

  lemma RemovePreservesInvariant(cart: seq<CartItem>, id: string)
    requires AllFinite(cart) && DistinctIds(cart)
    ensures AllFinite(Removed(cart, id)) && DistinctIds(Removed(cart, id))
  {
    var keep := (item: CartItem) => item.id != id;
    FilterEmbedding(cart, keep);
  }

  // ---------------------------------------------------------------------------
  // totalPrice

  /** The plain sum of price times quantity, for carts of numeric items. */
  ghost function Sum(cart: seq<CartItem>): int
    requires AllFinite(cart)
  {
    if cart == [] then 0 else cart[0].price.value * cart[0].quantity.value + Sum(cart[1..])
  }

  /** For a cart whose items are all numeric, `totalPrice` is the sum of
      price times quantity; the empty cart totals 0. */
  lemma {:induction false} TotalIsSum(cart: seq<CartItem>)
    requires AllFinite(cart)
    ensures Total(cart) == Sum(cart)
  {
    if cart != [] {
      var n := |cart| - 1;
      TotalIsSum(cart[..n]);
      if n > 0 {
        TotalIsSum(cart[1..]);
        TotalIsSum(cart[1..][..n - 1]);
        assert cart[1..][..n - 1] == cart[..n][1..];
        assert cart[1..][n - 1] == cart[n];
      }
    }
  }

  /** The total of two carts side by side is the sum of their totals. */
  lemma {:induction false} TotalAppend(a: seq<CartItem>, b: seq<CartItem>)
    ensures Total(a + b) == Total(a) + Total(b)
  {
    if b == [] {
      assert a + b == a;
    } else {
      TotalAppend(a, b[..|b| - 1]);
      assert (a + b)[..|a + b| - 1] == a + b[..|b| - 1];
    }
  }

  /** In a cart with distinct ids, adding `q` units of a product already in
      the cart raises the total by `q` times that line's price; adding a new
      product raises it by the new line's price times quantity. */
  lemma TotalAfterAdd(cart: seq<CartItem>, product: CartItem)
    requires AllFinite(cart) && DistinctIds(cart)
    ensures Total(Added(cart, product)) ==
      Total(cart) + match Find(cart, product.id)
        case Some(line) => line.price.value * OrDefault(product.quantity, 1)
        case None => OrDefault(product.price, 0) * OrDefault(product.quantity, 1)
  {
    var safe := Sanitized(product);
    match Find(cart, product.id)
    case None =>
      TotalAppend(cart, [safe]);
      assert Total([safe]) == Total([]) + LineTotal(safe);
    case Some(line) =>
      var k :| 0 <= k < |cart| && cart[k].id == product.id;
      MergeTotal(cart, product.id, OrDefault(safe.quantity, 1), k);
      assert line == cart[k];
  }

  lemma {:induction false} MergeTotal(cart: seq<CartItem>, id: string, added: int, k: nat)
    requires AllFinite(cart) && DistinctIds(cart)
    requires k < |cart| && cart[k].id == id
    ensures Total(MergeQuantity(cart, id, added)) == Total(cart) + cart[k].price.value * added
  {
    var n := |cart| - 1;
    var m := MergeQuantity(cart, id, added);
    assert m[..n] == MergeQuantity(cart[..n], id, added);
    if k == n {
      assert !HasId(cart[..n], id);
      assert m[..n] == cart[..n];
      assert m[n].quantity.value == cart[n].quantity.value + added;
      assert LineTotal(m[n]) == cart[n].price.value * (cart[n].quantity.value + added);
    } else {
      MergeTotal(cart[..n], id, added, k);
      assert cart[n].id != id;
    }
  }

  /** In a cart with distinct ids, the item with an id is the last one when
      that carries the id, and otherwise the one found in the rest. */
  lemma FindLast(cart: seq<CartItem>, id: string)
    requires DistinctIds(cart) && cart != []
    ensures Find(cart, id) ==
      if cart[|cart| - 1].id == id then Some(cart[|cart| - 1]) else Find(cart[..|cart| - 1], id)
  {
    var n := |cart| - 1;
    if cart[n].id == id {
      assert HasId(cart, id);
      var line := Find(cart, id).value;
      var j :| 0 <= j < |cart| && cart[j] == line;
      assert cart[j].id == id;
    } else {
      assert HasId(cart, id) <==> HasId(cart[..n], id) by {
        if HasId(cart, id) {
          var j :| 0 <= j < |cart| && cart[j].id == id;
          assert cart[..n][j].id == id;
        }
      }
      if Find(cart, id).Some? {
        var line := Find(cart, id).value;
        var line' := Find(cart[..n], id).value;
        var j :| 0 <= j < |cart| && cart[j] == line;
        var j' :| 0 <= j' < n && cart[..n][j'] == line';
        assert cart[j].id == id && cart[j'].id == id;
        assert j == j';
      }
    }
  }

  /** In a cart with distinct ids, removing an item lowers the total by that
      item's line total; removing an absent id leaves it unchanged. */
  lemma {:induction false} TotalAfterRemove(cart: seq<CartItem>, id: string)
    requires DistinctIds(cart)
    ensures Total(Removed(cart, id)) ==
      Total(cart) - match Find(cart, id) case Some(line) => LineTotal(line) case None => 0
  {
    if cart != [] {
      var n := |cart| - 1;
      assert DistinctIds(cart[..n]);
      TotalAfterRemove(cart[..n], id);
      FindLast(cart, id);
      if cart[n].id == id {
        assert Removed(cart, id) == Removed(cart[..n], id);
        assert !HasId(cart[..n], id);
      } else {
        assert Removed(cart, id) == Removed(cart[..n], id) + [cart[n]];
        TotalAppend(Removed(cart[..n], id), [cart[n]]);
        assert Total([cart[n]]) == Total([]) + LineTotal(cart[n]);
      }
    }
  }

  // ---------------------------------------------------------------------------
  // The store itself

  /** The `CartProvider` state: the cart and the customer details. */
  class CartStore {
    var cart: seq<CartItem>
    var customerInfo: Option<CustomerInfo>

    /** Items are always stored with numeric price and quantity, and ids are
        never repeated. */
    ghost predicate Valid()
      reads this
    {
      AllFinite(cart) && DistinctIds(cart)
    }

    constructor ()
      ensures Valid()
      ensures cart == [] && customerInfo == None
    {
      cart := [];
      customerInfo := None;
    }

    /** `totalPrice`, recomputed from the current cart on every read. */
    function TotalPrice(): int
      reads this
    {
      Total(cart)
    }

    method AddToCart(product: CartItem)
      requires Valid()
      modifies this
      ensures Valid()
      ensures cart == Added(old(cart), product)
      ensures customerInfo == old(customerInfo)
    {
      AddPreservesInvariant(cart, product);
      cart := Added(cart, product);
    }

    method UpdateQuantity(id: string, quantity: Num)
      requires Valid()
      modifies this
      ensures Valid()
      ensures cart == Updated(old(cart), id, quantity)
      ensures customerInfo == old(customerInfo)
    {
      UpdatePreservesInvariant(cart, id, quantity);
      cart := Updated(cart, id, quantity);
    }

    method RemoveFromCart(id: string)
      requires Valid()
      modifies this
      ensures Valid()
      ensures cart == Removed(old(cart), id)
      ensures customerInfo == old(customerInfo)
    {
      RemovePreservesInvariant(cart, id);
      cart := Removed(cart, id);
    }

    /** Empties the cart and drops the customer details. */
    method ClearCart()
      modifies this
      ensures Valid()
      ensures cart == [] && customerInfo == None
      ensures TotalPrice() == 0
    {
      cart := [];
      customerInfo := None;
    }

    method SetCustomerInfo(info: CustomerInfo)
      modifies this
      ensures customerInfo == Some(info)
      ensures cart == old(cart)
    {
      customerInfo := Some(info);
    }
  }
}
