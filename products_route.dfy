/** `/api/products`: GET lists the catalogue newest first for anyone; POST,
    for admins only, validates a product and stores it as given. */
module ProductsRoute {
  import opened Seqs
  import opened Strings
  import opened Store
  import opened OrdersRoute

  /** The request body. `stock` is any JSON number until the schema checks
      that it is an integer. */
  datatype ProductInput = ProductInput(
    name: string,
    description: string,
    price: real,
    imageUrl: string,
    stock: real,
    colors: seq<string>,
    sizes: seq<string>,
    materials: seq<string>,
    discount: Option<real>)

  /** `productSchema`. String minimums count UTF-16 code units, as
      JavaScript's `length` does. Whether a string is a URL is decided by
      `isUrl`. */
  predicate ValidProductInput(input: ProductInput, isUrl: string -> bool)
  {
    && Utf16Length(input.name) >= 2
    && Utf16Length(input.description) >= 10
    && input.price > 0.0
    && isUrl(input.imageUrl)
    && IsInteger(input.stock) && input.stock >= 0.0
    && (input.discount.Some? ==> 0.0 <= input.discount.value <= 100.0)
  }

  /** The row the store builds from a validated body. */
  function ToRow(input: ProductInput, id: string, now: int): ProductRow
  {
    ProductRow(id, input.name, input.description, input.price, input.imageUrl, input.stock.Floor,
               input.colors, input.sizes, input.materials, input.discount, now)
  }

  /** The POST handler's decision; on 201 the body is the row to insert. */
  function CreateProduct(
    products: seq<ProductRow>, token: Option<Token>, body: Parsed<ProductInput>,
    isUrl: string -> bool, newId: string, now: int): Response<ProductRow>
  {
    if !IsAdmin(token) then Fail(UNAUTHORIZED)
    else if body.Misshapen? || !ValidProductInput(body.value, isUrl) then Fail(BAD_REQUEST)
    else if HasKey(products, ProductId, newId) then Fail(SERVER_ERROR)
    else Response(CREATED, Some(ToRow(body.value, newId, now)))
  }

  /** POST answers 401 exactly to non-admins, 400 exactly to admins whose
      body fails the schema and 500 exactly when the store refuses the id;
      every other request is created. A created product stores every field as sent,
      and is well formed, so its unit price lies between 0 and its price. */
  lemma CreateProductSpec(
    products: seq<ProductRow>, token: Option<Token>, body: Parsed<ProductInput>,
    isUrl: string -> bool, newId: string, now: int)
    ensures var r := CreateProduct(products, token, body, isUrl, newId, now);
      && (r.status == UNAUTHORIZED <==> !IsAdmin(token))
      && (r.status == BAD_REQUEST <==> IsAdmin(token) && (body.Misshapen? || !ValidProductInput(body.value, isUrl)))
      && (r.status == SERVER_ERROR <==>
            IsAdmin(token) && body.Shaped? && ValidProductInput(body.value, isUrl) && HasKey(products, ProductId, newId))
      && (r.status in {UNAUTHORIZED, BAD_REQUEST, SERVER_ERROR, CREATED})
      && (r.status == CREATED <==> r.body.Some?)
      && (r.status == CREATED ==>
            var p := r.body.value;
            && body.Shaped?
            && p.id == newId && !HasKey(products, ProductId, newId) && p.createdAt == now
            && p.name == body.value.name && p.description == body.value.description
            && p.price == body.value.price && p.imageUrl == body.value.imageUrl
            && p.stock as real == body.value.stock
            && p.colors == body.value.colors && p.sizes == body.value.sizes
            && p.materials == body.value.materials && p.discount == body.value.discount
            && WellFormedProduct(p)
            && 0.0 <= UnitPrice(p) <= p.price)
  {
    var r := CreateProduct(products, token, body, isUrl, newId, now);
    if r.status == CREATED {
      UnitPriceBounds(r.body.value);
    }
  }

  /** The GET handler: the whole catalogue, newest first, to anyone. */
  function ListProducts(products: seq<ProductRow>): Response<seq<ProductRow>>
  {
    Response(OK, Some(SortDesc(products, ProductCreatedAt)))
  }

  /** GET returns each product as often as stored, newest first. */
  lemma ListProductsSpec(products: seq<ProductRow>)
    ensures ListProducts(products).status == OK
    ensures SortedDesc(ListProducts(products).body.value, ProductCreatedAt)
    ensures multiset(ListProducts(products).body.value) == multiset(products)
  {
    SortDescSorted(products, ProductCreatedAt);
  }

  /** POST `/api/products` against the store. */
  method PostProduct(
    db: Database, token: Option<Token>, body: Parsed<ProductInput>,
    isUrl: string -> bool, newId: string, now: int)
    returns (r: Response<ProductRow>)
    requires db.Valid()
    modifies db
    ensures db.Valid()
    ensures r == CreateProduct(old(db.products), token, body, isUrl, newId, now)
    ensures db.products == if r.status == CREATED then old(db.products) + [r.body.value] else old(db.products)
    ensures db.orders == old(db.orders) && db.invoices == old(db.invoices) && db.users == old(db.users)
  {
    if !IsAdmin(token) {
      return Fail(UNAUTHORIZED);
    }
    if body.Misshapen? || !ValidProductInput(body.value, isUrl) {
      return Fail(BAD_REQUEST);
    }
    if HasKey(db.products, ProductId, newId) {
      return Fail(SERVER_ERROR);
    }
    var product := ToRow(body.value, newId, now);
    AppendKeepsKeysUnique(db.products, product, ProductId);
    db.products := db.products + [product];
    r := Response(CREATED, Some(product));
  }
}
