/** The relational store the API routes read and write, as a snapshot of its
    four tables, plus what every route shares: the caller's token, the reply
    and whether the request body had the JSON shape the schema expects. */
module Store {
  import opened Seqs

  /** The session token the auth layer decodes from the request. */
  datatype Token = Token(id: string, role: string)

  /** The caller carries a token whose role is exactly "ADMIN". */
  predicate IsAdmin(token: Option<Token>)
  {
    token.Some? && token.value.role == "ADMIN"
  }

  const OK: int := 200
  const CREATED: int := 201
  const BAD_REQUEST: int := 400
  const UNAUTHORIZED: int := 401
  const NOT_FOUND: int := 404
  const CONFLICT: int := 409
  const SERVER_ERROR: int := 500

  /** An HTTP reply: a status and, for 200 and 201, the JSON body. */
  datatype Response<T> = Response(status: int, body: Option<T>)

  /** A reply that carries no body. */
  function Fail<T>(status: int): Response<T>
  {
    Response(status, None)
  }

  /** A parsed request body: the fields the schema names, with the JSON types
      it asks for, or something else (a missing field, a string where a number
      belongs, ...), which every schema rejects. */
  datatype Parsed<T> = Shaped(value: T) | Misshapen

  /** A number the schema checks with `.int()`. */
  predicate IsInteger(x: real)
  {
    x.Floor as real == x
  }

  datatype ProductRow = ProductRow(
    id: string,
    name: string,
    description: string,
    price: real,
    imageUrl: string,
    stock: int,
    colors: seq<string>,
    sizes: seq<string>,
    materials: seq<string>,
    discount: Option<real>,
    createdAt: int)

  datatype OrderItemRow = OrderItemRow(
    productId: string,
    quantity: int,
    price: real,
    color: Option<string>,
    size: Option<string>,
    material: Option<string>)

  datatype OrderRow = OrderRow(
    id: string,
    userId: string,
    paidAmount: int,
    totalAmount: int,
    items: seq<OrderItemRow>,
    createdAt: int)

  datatype InvoiceRow = InvoiceRow(
    id: string,
    orderId: string,
    invoiceNumber: string,
    dueDate: int,
    createdAt: int)

  datatype UserRow = UserRow(
    id: string,
    name: string,
    email: string,
    passwordHash: string,
    role: string,
    createdAt: int)

  /** What the product schema guarantees of a catalogue row: a positive
      price, a stock of at least 0 and a discount, when set, in [0, 100]. */
  predicate WellFormedProduct(p: ProductRow)
  {
    && p.price > 0.0
    && p.stock >= 0
    && (p.discount.Some? ==> 0.0 <= p.discount.value <= 100.0)
  }

  function ProductId(p: ProductRow): string { p.id }
  function ProductCreatedAt(p: ProductRow): int { p.createdAt }
  function OrderId(o: OrderRow): string { o.id }
  function OrderCreatedAt(o: OrderRow): int { o.createdAt }
  function InvoiceId(i: InvoiceRow): string { i.id }
  function InvoiceOrderId(i: InvoiceRow): string { i.orderId }
  function InvoiceCreatedAt(i: InvoiceRow): int { i.createdAt }
  function UserId(u: UserRow): string { u.id }
  function UserEmail(u: UserRow): string { u.email }

  /** The table holds a row with this key. */
  predicate HasKey<T>(rows: seq<T>, key: T -> string, k: string)
  {
    exists i :: 0 <= i < |rows| && key(rows[i]) == k
  }

  /** A table has a row with key `k` exactly when `k` is among its keys. */
  lemma HasKeyIffInKeySet<T>(rows: seq<T>, key: T -> string, k: string)
    ensures HasKey(rows, key, k) <==> k in KeySet(rows, key)
  {
    if k in KeySet(rows, key) {
      var i :| 0 <= i < |rows| && key(rows[i]) == k;
    }
  }

  /** The store's tables. */
  class Database {
    var products: seq<ProductRow>
    var orders: seq<OrderRow>
    var invoices: seq<InvoiceRow>
    var users: seq<UserRow>

    /** Primary keys are unique, each order has at most one invoice, and no
        two users share an email. */
    ghost predicate Valid()
      reads this
    {
      && UniqueKeys(products, ProductId)
      && UniqueKeys(orders, OrderId)
      && UniqueKeys(invoices, InvoiceId)
      && UniqueKeys(invoices, InvoiceOrderId)
      && UniqueKeys(users, UserId)
      && UniqueKeys(users, UserEmail)
    }

    constructor ()
      ensures Valid()
      ensures products == [] && orders == [] && invoices == [] && users == []
    {
      products, orders, invoices, users := [], [], [], [];
    }
  }
}
