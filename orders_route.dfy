/** `/api/orders`: GET lists orders (all of them for an admin, the caller's
    own otherwise), POST validates an order, checks its products exist, prices
    each item from the catalogue and stores the order with the amounts the
    client supplied. */
module OrdersRoute {
  import opened Seqs
  import opened Store

  datatype OrderItemInput = OrderItemInput(
    productId: string,
    quantity: real,
    color: Option<string>,
    size: Option<string>,
    material: Option<string>)

  datatype OrderInput = OrderInput(items: seq<OrderItemInput>, paidAmount: int, totalAmount: int)

  /** `orderItemSchema`: the quantity is a positive integer. */
  predicate ValidItem(item: OrderItemInput)
  {
    IsInteger(item.quantity) && item.quantity > 0.0
  }

  /** `orderSchema`: every item is valid and both amounts are positive. */
  predicate ValidOrderInput(input: OrderInput)
  {
    && (forall i :: 0 <= i < |input.items| ==> ValidItem(input.items[i]))
    && input.paidAmount > 0
    && input.totalAmount > 0
  }

  /** `items.map(item => item.productId)` */
  function ProductIds(items: seq<OrderItemInput>): seq<string>
  {
    seq(|items|, i requires 0 <= i < |items| => items[i].productId)
  }

  /** `findMany({ where: { id: { in: productIds } } })`: the catalogue rows
      whose id is requested, each once. */
  function FoundProducts(products: seq<ProductRow>, ids: seq<string>): seq<ProductRow>
  {
    Filter(products, (p: ProductRow) => p.id in ids)
  }

  /** `products.find(p => p.id === id)` */
  function FindProduct(rows: seq<ProductRow>, id: string): (r: Option<ProductRow>)
    ensures r.Some? <==> HasKey(rows, ProductId, id)
    ensures r.Some? ==> r.value.id == id && r.value in rows
  {
    if rows == [] then None
    else if rows[0].id == id then Some(rows[0])
    else
      var r := FindProduct(rows[1..], id);
      assert HasKey(rows[1..], ProductId, id) <==> HasKey(rows, ProductId, id) by {
        if HasKey(rows, ProductId, id) {
          var i :| 0 <= i < |rows| && ProductId(rows[i]) == id;
          assert ProductId(rows[1..][i - 1]) == id;
        }
        if HasKey(rows[1..], ProductId, id) {
          var i :| 0 <= i < |rows[1..]| && ProductId(rows[1..][i]) == id;
          assert ProductId(rows[i + 1]) == id;
        }
      }
      r
  }

  /** The unit price stored for an item: the catalogue price, reduced by the
      discount percentage when a non-zero discount is set. */
  function UnitPrice(p: ProductRow): real
  {
    if p.discount.Some? && p.discount.value != 0.0
    then p.price * (1.0 - p.discount.value / 100.0)
    else p.price
  }

  /** The stored form of one item, or `None` when its product is not among the
      rows found (the lookup's `!` then fails and the handler answers 500). */
  function PriceItem(found: seq<ProductRow>, item: OrderItemInput): Option<OrderItemRow>
  {
    match FindProduct(found, item.productId)
    case None => None
    case Some(p) =>
      Some(OrderItemRow(item.productId, item.quantity.Floor, UnitPrice(p), item.color, item.size, item.material))
  }

  function PriceItems(found: seq<ProductRow>, items: seq<OrderItemInput>): Option<seq<OrderItemRow>>
  {
    if items == [] then Some([])
    else match (PriceItem(found, items[0]), PriceItems(found, items[1..]))
      case (Some(first), Some(rest)) => Some([first] + rest)
      case _ => None
  }

  /** The POST handler's decision: the reply, whose body on 201 is the order
      row to insert. `newId` is the id the store assigns and `now` its clock;
      an id already in use makes the insert throw, which the handler answers
      with 500. */
  function CreateOrder(
    products: seq<ProductRow>, orders: seq<OrderRow>,
    token: Option<Token>, body: Parsed<OrderInput>, newId: string, now: int): Response<OrderRow>
  {
    if token.None? then Fail(UNAUTHORIZED)
    else if body.Misshapen? || !ValidOrderInput(body.value) then Fail(BAD_REQUEST)
    else
      var input := body.value;
      var ids := ProductIds(input.items);
      var found := FoundProducts(products, ids);
      if |found| != |ids| then Fail(BAD_REQUEST)
      else match PriceItems(found, input.items)
        case None => Fail(SERVER_ERROR)
        case Some(rows) =>
          if HasKey(orders, OrderId, newId) then Fail(SERVER_ERROR)
          else Response(CREATED, Some(OrderRow(newId, token.value.id, input.paidAmount, input.totalAmount, rows, now)))
  }

  /** Every requested product id is in the catalogue. */
  ghost predicate AllProductsExist(products: seq<ProductRow>, ids: seq<string>)
  {
    forall i :: 0 <= i < |ids| ==> HasKey(products, ProductId, ids[i])
  }

  // ---------------------------------------------------------------------------
  // POST properties

  /** With unique catalogue ids, the count check passes exactly when every
      requested product exists and no product id is requested twice. */
  lemma FoundCountIff(products: seq<ProductRow>, ids: seq<string>)
    requires UniqueKeys(products, ProductId)
    ensures |FoundProducts(products, ids)| == |ids| <==> NoDuplicates(ids) && AllProductsExist(products, ids)
  {
    var wanted := set x | x in ids;
    var keys := KeySet(products, ProductId);
    var keep := (p: ProductRow) => p.id in ids;
    FilterByKeyCount(products, ProductId, wanted, keep);
    ElementsCard(ids);
    if |FoundProducts(products, ids)| == |ids| {
      SubsetCard(keys * wanted, wanted);
      forall i | 0 <= i < |ids| ensures HasKey(products, ProductId, ids[i]) {
        assert ids[i] in wanted;
        HasKeyIffInKeySet(products, ProductId, ids[i]);
      }
    }
    if NoDuplicates(ids) && AllProductsExist(products, ids) {
      forall x | x in wanted ensures x in keys {
        var i :| 0 <= i < |ids| && ids[i] == x;
        HasKeyIffInKeySet(products, ProductId, x);
      }
      assert keys * wanted == wanted;
    }
  }

  /** When every item's product is among the rows found, pricing succeeds and
      each stored item copies the request's item, priced from its product. */
  lemma {:induction false} PriceItemsSpec(found: seq<ProductRow>, items: seq<OrderItemInput>)
    requires forall i :: 0 <= i < |items| ==> HasKey(found, ProductId, items[i].productId)
    ensures PriceItems(found, items).Some?
    ensures |PriceItems(found, items).value| == |items|
    ensures forall i :: 0 <= i < |items| ==>
      var row := PriceItems(found, items).value[i];
      var p := FindProduct(found, items[i].productId).value;
      && row == OrderItemRow(items[i].productId, items[i].quantity.Floor, UnitPrice(p),
                             items[i].color, items[i].size, items[i].material)
  {
    if items != [] {
      PriceItemsSpec(found, items[1..]);
      assert HasKey(found, ProductId, items[0].productId);
    }
  }

  /** The POST outcome for every request, when catalogue ids are unique:
      401 without a token; else 400 for a body that fails the schema; else 400
      when a requested product is missing or a product id is repeated; else
      500 only if the new id is taken; else 201. */
  lemma CreateOrderStatus(
    products: seq<ProductRow>, orders: seq<OrderRow>,
    token: Option<Token>, body: Parsed<OrderInput>, newId: string, now: int)
    requires UniqueKeys(products, ProductId)
    ensures var r := CreateOrder(products, orders, token, body, newId, now);
      && (r.status == UNAUTHORIZED <==> token.None?)
      && (r.status == BAD_REQUEST <==>
            token.Some? &&
            (body.Misshapen? || !ValidOrderInput(body.value) ||
             !NoDuplicates(ProductIds(body.value.items)) ||
             !AllProductsExist(products, ProductIds(body.value.items))))
      && (r.status == SERVER_ERROR <==>
            token.Some? && body.Shaped? && ValidOrderInput(body.value) &&
            NoDuplicates(ProductIds(body.value.items)) &&
            AllProductsExist(products, ProductIds(body.value.items)) &&
            HasKey(orders, OrderId, newId))
      && (r.status == CREATED <==> r.body.Some?)
      && (r.status in {UNAUTHORIZED, BAD_REQUEST, SERVER_ERROR, CREATED})
  {
    if token.Some? && body.Shaped? && ValidOrderInput(body.value) {
      var ids := ProductIds(body.value.items);
      var found := FoundProducts(products, ids);
      FoundCountIff(products, ids);
      if |found| == |ids| {
        forall i | 0 <= i < |body.value.items| ensures HasKey(found, ProductId, body.value.items[i].productId) {
          var id := body.value.items[i].productId;
          assert ids[i] == id;
          var p := FindProduct(products, id).value;
          FilterMembership(products, (p: ProductRow) => p.id in ids, p);
          var j :| 0 <= j < |found| && found[j] == p;
          assert ProductId(found[j]) == id;
        }
        PriceItemsSpec(found, body.value.items);
      }
    }
  }

  /** A created order belongs to the caller, stores `paidAmount` and
      `totalAmount` exactly as supplied (no total is recomputed), and keeps
      the request's items in order with their product, quantity and options;
      each item's unit price is that of the catalogue row with its id. */
  lemma CreatedOrderContents(
    products: seq<ProductRow>, orders: seq<OrderRow>,
    token: Option<Token>, body: Parsed<OrderInput>, newId: string, now: int)
    requires UniqueKeys(products, ProductId)
    requires CreateOrder(products, orders, token, body, newId, now).status == CREATED
    ensures var o := CreateOrder(products, orders, token, body, newId, now).body.value;
      && token.Some? && body.Shaped?
      && o.id == newId && o.userId == token.value.id && o.createdAt == now
      && o.paidAmount == body.value.paidAmount && o.totalAmount == body.value.totalAmount
      && |o.items| == |body.value.items|
      && forall i :: 0 <= i < |o.items| ==>
           var item := body.value.items[i];
           && o.items[i].productId == item.productId
           && o.items[i].quantity as real == item.quantity
           && o.items[i].color == item.color && o.items[i].size == item.size
           && o.items[i].material == item.material
           && exists p :: p in products && p.id == item.productId && o.items[i].price == UnitPrice(p)
  {
    CreateOrderStatus(products, orders, token, body, newId, now);
    var items := body.value.items;
    var ids := ProductIds(items);
    var found := FoundProducts(products, ids);
    FoundCountIff(products, ids);
    forall i | 0 <= i < |items| ensures HasKey(found, ProductId, items[i].productId) {
      assert ids[i] == items[i].productId;
      var p := FindProduct(products, ids[i]).value;
      FilterMembership(products, (p: ProductRow) => p.id in ids, p);
      var j :| 0 <= j < |found| && found[j] == p;
      assert ProductId(found[j]) == ids[i];
    }
    PriceItemsSpec(found, items);
    var o := CreateOrder(products, orders, token, body, newId, now).body.value;
    forall i | 0 <= i < |o.items|
      ensures exists p :: p in products && p.id == items[i].productId && o.items[i].price == UnitPrice(p)
    {
      var p := FindProduct(found, items[i].productId).value;
      FilterMembership(products, (p: ProductRow) => p.id in ids, p);
    }
  }

  /** A discount in [0, 100] never raises the price and never makes it
      negative; the price is unchanged exactly when no discount, or a zero
      discount, is set. */
  lemma UnitPriceBounds(p: ProductRow)
    requires WellFormedProduct(p)
    ensures 0.0 <= UnitPrice(p) <= p.price
    ensures UnitPrice(p) == p.price <==> p.discount.None? || p.discount.value == 0.0
  {
    if p.discount.Some? && p.discount.value != 0.0 {
      var base, d := p.price, p.discount.value;
      assert 0.0 <= 1.0 - d / 100.0 < 1.0;
      assert base * (1.0 - d / 100.0) < base * 1.0;
    }
  }

  /** Nothing ties the paid amount to the total: an order paying more than
      its total is accepted. */
  lemma OverpaymentAccepted(p: ProductRow, token: Token)
    ensures var body := Shaped(OrderInput([OrderItemInput(p.id, 1.0, None, None, None)], 2, 1));
      && CreateOrder([p], [], Some(token), body, "o1", 0).status == CREATED
      && CreateOrder([p], [], Some(token), body, "o1", 0).body.value.paidAmount >
         CreateOrder([p], [], Some(token), body, "o1", 0).body.value.totalAmount
  {
    var items := [OrderItemInput(p.id, 1.0, None, None, None)];
    assert ValidItem(items[0]);
    assert ProductIds(items) == [p.id];
    assert FoundProducts([p], [p.id]) == [p];
    assert FindProduct([p], p.id) == Some(p);
    assert PriceItems([p], items[1..]) == Some([]);
    assert !HasKey([], OrderId, "o1");
  }

  // ---------------------------------------------------------------------------
  // Repeated product ids

  /** Two lines for the same existing product (say, two colours) are
      rejected with 400, since the store finds one row for two ids. */
  lemma RepeatedProductRejected(p: ProductRow, token: Token)
    ensures var body := Shaped(OrderInput(
              [OrderItemInput(p.id, 1.0, Some("red"), None, None),
               OrderItemInput(p.id, 2.0, Some("blue"), None, None)], 3, 3));
      CreateOrder([p], [], Some(token), body, "o1", 0).status == BAD_REQUEST
  {
    var items := [OrderItemInput(p.id, 1.0, Some("red"), None, None),
                  OrderItemInput(p.id, 2.0, Some("blue"), None, None)];
    assert ProductIds(items) == [p.id, p.id];
    assert FoundProducts([p], [p.id, p.id]) == [p];
  }

  // ---------------------------------------------------------------------------
  // GET

  /** The GET handler: 401 without a token; otherwise every order for an
      admin and the caller's own orders for anyone else, newest first. */
  function ListOrders(orders: seq<OrderRow>, token: Option<Token>): Response<seq<OrderRow>>
  {
    if token.None? then Fail(UNAUTHORIZED)
    else if token.value.role == "ADMIN" then Response(OK, Some(SortDesc(orders, OrderCreatedAt)))
    else
      var uid := token.value.id;
      Response(OK, Some(SortDesc(Filter(orders, (o: OrderRow) => o.userId == uid), OrderCreatedAt)))
  }

  /** GET answers 401 exactly when there is no token; otherwise it returns,
      newest first, each order as often as it is stored if the caller is an
      admin or owns it, and no other order. */
  lemma ListOrdersSpec(orders: seq<OrderRow>, token: Option<Token>)
    ensures ListOrders(orders, token).status == UNAUTHORIZED <==> token.None?
    ensures token.Some? ==>
      var r := ListOrders(orders, token);
      && r.status == OK && r.body.Some?
      && SortedDesc(r.body.value, OrderCreatedAt)
      && forall o :: multiset(r.body.value)[o] ==
           if token.value.role == "ADMIN" || o.userId == token.value.id then multiset(orders)[o] else 0
  {
    if token.Some? {
      var uid := token.value.id;
      var mine := Filter(orders, (o: OrderRow) => o.userId == uid);
      if token.value.role == "ADMIN" {
        SortDescSorted(orders, OrderCreatedAt);
      } else {
        SortDescSorted(mine, OrderCreatedAt);
        forall o: OrderRow ensures multiset(mine)[o] == if o.userId == uid then multiset(orders)[o] else 0 {
          FilterCount(orders, (o: OrderRow) => o.userId == uid, o);
        }
      }
    }
  }

  // ---------------------------------------------------------------------------
  // The handler against the store

  /** POST `/api/orders`: the guards in the handler's order, then the insert. */
  method PostOrder(db: Database, token: Option<Token>, body: Parsed<OrderInput>, newId: string, now: int)
    returns (r: Response<OrderRow>)
    requires db.Valid()
    modifies db
    ensures db.Valid()
    ensures r == CreateOrder(old(db.products), old(db.orders), token, body, newId, now)
    ensures db.orders == if r.status == CREATED then old(db.orders) + [r.body.value] else old(db.orders)
    ensures db.products == old(db.products) && db.invoices == old(db.invoices) && db.users == old(db.users)
  {
    if token.None? {
      return Fail(UNAUTHORIZED);
    }
    if body.Misshapen? || !ValidOrderInput(body.value) {
      return Fail(BAD_REQUEST);
    }
    var input := body.value;
    var ids := ProductIds(input.items);
    var found := FoundProducts(db.products, ids);
    if |found| != |ids| {
      return Fail(BAD_REQUEST);
    }
    var rows := PriceItems(found, input.items);
    if rows.None? || HasKey(db.orders, OrderId, newId) {
      return Fail(SERVER_ERROR);
    }
    var order := OrderRow(newId, token.value.id, input.paidAmount, input.totalAmount, rows.value, now);
    AppendKeepsKeysUnique(db.orders, order, OrderId);
    db.orders := db.orders + [order];
    r := Response(CREATED, Some(order));
  }
}
