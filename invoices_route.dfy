/** `/api/invoices`: admin only. GET lists every invoice, newest first; POST
    checks the due date lies in the future, that the order exists and has no
    invoice yet, and stores an invoice numbered from the clock. */
module InvoicesRoute {
  import opened Seqs
  import opened Strings
  import opened Store

  /** The request body. The due date string is read twice: `checkedDue` is
      the instant `dayjs` reads it as when the schema checks it, or `None`
      when `dayjs` finds it invalid; `storedDue` is the instant `new Date`
      reads it as when the row is stored, or `None` for an invalid date. The
      two differ for a date-only string such as "2025-06-30", which `dayjs`
      reads as local midnight and `new Date` as UTC midnight. */
  datatype InvoiceInput = InvoiceInput(orderId: string, checkedDue: Option<int>, storedDue: Option<int>)

  /** `invoiceSchema`: `dayjs` reads the due date as a valid instant strictly
      after `checkedAt`, the clock as the schema reads it. */
  predicate ValidInvoiceInput(input: InvoiceInput, checkedAt: int)
  {
    input.checkedDue.Some? && input.checkedDue.value > checkedAt
  }

  /** `INV-` followed by the last eight digits of the millisecond clock. */
  function InvoiceNumber(now: nat): string
  {
    "INV-" + TakeLast(DecimalString(now), 8)
  }

  /** The number is `INV-` and then digits whose value is the clock modulo
      10^8; any clock from 10^7 on gives exactly eight of them. */
  lemma InvoiceNumberFormat(now: nat)
    ensures var r := InvoiceNumber(now);
      && |r| <= 12 && r[..4] == "INV-" && IsDigits(r[4..])
      && DecimalValue(r[4..]) == now % Pow10(8)
      && (now >= Pow10(7) ==> |r| == 12)
  {
    var t := TakeLast(DecimalString(now), 8);
    LastDigitsFormat(now, 8);
    var r := InvoiceNumber(now);
    assert r == "INV-" + t;
    assert r[4..] == t;
  }

  /** Two invoices with the same number were created at clocks equal modulo
      10^8: the number carries nothing but the clock's last eight digits. */
  lemma SameNumberSameLastDigits(a: nat, b: nat)
    requires InvoiceNumber(a) == InvoiceNumber(b)
    ensures a % Pow10(8) == b % Pow10(8)
  {
    InvoiceNumberFormat(a);
    InvoiceNumberFormat(b);
  }

  /** The POST handler's decision; on 201 the body is the invoice row to
      insert. The handler reads the clock three times: `checkedAt` when the
      schema checks the due date, `numberedAt` when it numbers the invoice,
      and `now` when the store stamps the row; `newId` is the id the store
      assigns. The store refuses an invalid `Date` or a taken id, and the
      handler answers that with 500. */
  function CreateInvoice(
    orders: seq<OrderRow>, invoices: seq<InvoiceRow>, token: Option<Token>, body: Parsed<InvoiceInput>,
    newId: string, checkedAt: int, numberedAt: nat, now: int): Response<InvoiceRow>
  {
    if !IsAdmin(token) then Fail(UNAUTHORIZED)
    else if body.Misshapen? || !ValidInvoiceInput(body.value, checkedAt) then Fail(BAD_REQUEST)
    else if !HasKey(orders, OrderId, body.value.orderId) then Fail(NOT_FOUND)
    else if HasKey(invoices, InvoiceOrderId, body.value.orderId) then Fail(CONFLICT)
    else if body.value.storedDue.None? || HasKey(invoices, InvoiceId, newId) then Fail(SERVER_ERROR)
    else Response(CREATED, Some(InvoiceRow(newId, body.value.orderId, InvoiceNumber(numberedAt), body.value.storedDue.value, now)))
  }

  /** The POST outcome, guard by guard, and what a created invoice holds: a
      request passing every guard is created unless the store refuses it; the
      invoice is for an existing order that had no invoice, stores the due
      date as `new Date` reads it, carries the number of the clock read for
      numbering and the store's creation time. The due date falls after the
      schema's clock reading when both parses of the string agree. */
  lemma CreateInvoiceSpec(
    orders: seq<OrderRow>, invoices: seq<InvoiceRow>, token: Option<Token>, body: Parsed<InvoiceInput>,
    newId: string, checkedAt: int, numberedAt: nat, now: int)
    ensures var r := CreateInvoice(orders, invoices, token, body, newId, checkedAt, numberedAt, now);
      && (r.status == UNAUTHORIZED <==> !IsAdmin(token))
      && (r.status == BAD_REQUEST <==> IsAdmin(token) && (body.Misshapen? || !ValidInvoiceInput(body.value, checkedAt)))
      && (r.status == NOT_FOUND <==>
            IsAdmin(token) && body.Shaped? && ValidInvoiceInput(body.value, checkedAt) &&
            !HasKey(orders, OrderId, body.value.orderId))
      && (r.status == CONFLICT <==>
            IsAdmin(token) && body.Shaped? && ValidInvoiceInput(body.value, checkedAt) &&
            HasKey(orders, OrderId, body.value.orderId) &&
            HasKey(invoices, InvoiceOrderId, body.value.orderId))
      && (r.status == SERVER_ERROR <==>
            IsAdmin(token) && body.Shaped? && ValidInvoiceInput(body.value, checkedAt) &&
            HasKey(orders, OrderId, body.value.orderId) &&
            !HasKey(invoices, InvoiceOrderId, body.value.orderId) &&
            (body.value.storedDue.None? || HasKey(invoices, InvoiceId, newId)))
      && (r.status in {UNAUTHORIZED, BAD_REQUEST, NOT_FOUND, CONFLICT, SERVER_ERROR, CREATED})
      && (r.status == CREATED <==> r.body.Some?)
      && (r.status == CREATED ==>
            && body.Shaped? && body.value.storedDue.Some?
            && HasKey(orders, OrderId, r.body.value.orderId)
            && !HasKey(invoices, InvoiceOrderId, r.body.value.orderId)
            && r.body.value.orderId == body.value.orderId
            && r.body.value.dueDate == body.value.storedDue.value
            && (body.value.storedDue == body.value.checkedDue ==> r.body.value.dueDate > checkedAt)
            && r.body.value.createdAt == now
            && r.body.value.invoiceNumber == InvoiceNumber(numberedAt)
            && r.body.value.id == newId)
  {
  }

  /** A date-only due date on a server five hours west of UTC. At 01:00 UTC
      on 30 June 2025 the schema compares "2025-06-30" read as local
      midnight (05:00 UTC) with the clock and accepts it; the row then
      stores UTC midnight, an hour before the schema's clock reading. */
  lemma DueDateStoredInPast()
    ensures var checkedAt := 1751245200000;
      var body := Shaped(InvoiceInput("o", Some(1751259600000), Some(1751241600000)));
      var r := CreateInvoice([OrderRow("o", "u", 0, 0, [], 0)], [], Some(Token("a", "ADMIN")), body, "i", checkedAt, 0, checkedAt);
      r.status == CREATED && r.body.value.dueDate < checkedAt
  {
    var orders := [OrderRow("o", "u", 0, 0, [], 0)];
    assert OrderId(orders[0]) == "o";
  }

  /** The handler as evidently intended: it stores the instant the schema
      checked, as `dayjs(dueDate).toDate()` would. */
  function CreateInvoiceIntended(
    orders: seq<OrderRow>, invoices: seq<InvoiceRow>, token: Option<Token>, body: Parsed<InvoiceInput>,
    newId: string, checkedAt: int, numberedAt: nat, now: int): Response<InvoiceRow>
  {
    match body
    case Misshapen => CreateInvoice(orders, invoices, token, body, newId, checkedAt, numberedAt, now)
    case Shaped(input) =>
      CreateInvoice(orders, invoices, token, Shaped(input.(storedDue := input.checkedDue)), newId, checkedAt, numberedAt, now)
  }

  /** Storing the checked instant, every created invoice falls due after the
      schema's clock reading, and every request the handler as written
      accepts is still accepted. */
  lemma IntendedDueDateInFuture(
    orders: seq<OrderRow>, invoices: seq<InvoiceRow>, token: Option<Token>, body: Parsed<InvoiceInput>,
    newId: string, checkedAt: int, numberedAt: nat, now: int)
    ensures var r := CreateInvoiceIntended(orders, invoices, token, body, newId, checkedAt, numberedAt, now);
      r.status == CREATED ==>
        r.body.Some? && body.Shaped? && r.body.value.dueDate == body.value.checkedDue.value &&
        r.body.value.dueDate > checkedAt
    ensures CreateInvoice(orders, invoices, token, body, newId, checkedAt, numberedAt, now).status == CREATED ==>
      CreateInvoiceIntended(orders, invoices, token, body, newId, checkedAt, numberedAt, now).status == CREATED
  {
    if body.Shaped? {
      var fixed := Shaped(body.value.(storedDue := body.value.checkedDue));
      CreateInvoiceSpec(orders, invoices, token, fixed, newId, checkedAt, numberedAt, now);
    }
  }

  /** The GET handler: 401 unless the caller is an admin, otherwise every
      invoice, newest first. */
  function ListInvoices(invoices: seq<InvoiceRow>, token: Option<Token>): Response<seq<InvoiceRow>>
  {
    if !IsAdmin(token) then Fail(UNAUTHORIZED)
    else Response(OK, Some(SortDesc(invoices, InvoiceCreatedAt)))
  }

  /** GET answers 401 exactly to non-admins, and otherwise returns all the
      invoices, each as often as stored, newest first. */
  lemma ListInvoicesSpec(invoices: seq<InvoiceRow>, token: Option<Token>)
    ensures ListInvoices(invoices, token).status == UNAUTHORIZED <==> !IsAdmin(token)
    ensures IsAdmin(token) ==>
      var r := ListInvoices(invoices, token);
      && r.status == OK && r.body.Some?
      && SortedDesc(r.body.value, InvoiceCreatedAt)
      && multiset(r.body.value) == multiset(invoices)
  {
    if IsAdmin(token) {
      SortDescSorted(invoices, InvoiceCreatedAt);
    }
  }

  /** POST `/api/invoices` against the store. */
  method PostInvoice(
    db: Database, token: Option<Token>, body: Parsed<InvoiceInput>,
    newId: string, checkedAt: int, numberedAt: nat, now: int)
    returns (r: Response<InvoiceRow>)
    requires db.Valid()
    modifies db
    ensures db.Valid()
    ensures r == CreateInvoice(old(db.orders), old(db.invoices), token, body, newId, checkedAt, numberedAt, now)
    ensures db.invoices == if r.status == CREATED then old(db.invoices) + [r.body.value] else old(db.invoices)
    ensures db.products == old(db.products) && db.orders == old(db.orders) && db.users == old(db.users)
  {
    if !IsAdmin(token) {
      return Fail(UNAUTHORIZED);
    }
    if body.Misshapen? || !ValidInvoiceInput(body.value, checkedAt) {
      return Fail(BAD_REQUEST);
    }
    var input := body.value;
    if !HasKey(db.orders, OrderId, input.orderId) {
      return Fail(NOT_FOUND);
    }
    if HasKey(db.invoices, InvoiceOrderId, input.orderId) {
      return Fail(CONFLICT);
    }
    if input.storedDue.None? || HasKey(db.invoices, InvoiceId, newId) {
      return Fail(SERVER_ERROR);
    }
    var invoice := InvoiceRow(newId, input.orderId, InvoiceNumber(numberedAt), input.storedDue.value, now);
    AppendKeepsKeysUnique(db.invoices, invoice, InvoiceId);
    AppendKeepsKeysUnique(db.invoices, invoice, InvoiceOrderId);
    db.invoices := db.invoices + [invoice];
    r := Response(CREATED, Some(invoice));
  }

  /** Once an order has an invoice, every further POST for it by an admin
      with a due date still in the future is answered 409 and stores
      nothing. The two requests carry their own clock readings. */
  method InvoiceTwice(
    db: Database, token: Option<Token>, body: Parsed<InvoiceInput>, id1: string, id2: string,
    checked1: int, numbered1: nat, now1: int, checked2: int, numbered2: nat, now2: int)
    returns (first: Response<InvoiceRow>, second: Response<InvoiceRow>)
    requires db.Valid()
    requires IsAdmin(token) && body.Shaped? && ValidInvoiceInput(body.value, checked2)
    modifies db
    ensures db.Valid()
    ensures first.status == CREATED ==> second.status == CONFLICT
  {
    first := PostInvoice(db, token, body, id1, checked1, numbered1, now1);
    if first.status == CREATED {
      assert InvoiceOrderId(db.invoices[|db.invoices| - 1]) == body.value.orderId;
    }
    second := PostInvoice(db, token, body, id2, checked2, numbered2, now2);
  }
}
