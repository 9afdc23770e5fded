/** The admin order list: a search over customer name, email and order id, a
    status filter, a colour per status and a "Generate Invoice" link for
    orders without an invoice. */
module AdminOrders {
  import opened Seqs
  import opened Strings

  /** An order as the admin list receives it, with its customer and, if any,
      the id of its invoice. */
  datatype OrderView = OrderView(
    id: string,
    status: string,
    userName: string,
    userEmail: string,
    paidAmount: int,
    totalAmount: int,
    invoice: Option<string>)

  /** `matchesSearch && matchesStatus` for one order. */
  predicate OrderMatches(o: OrderView, term: string, statusFilter: string)
  {
    var t := Lower(term);
    && (Includes(Lower(o.userName), t) || Includes(Lower(o.userEmail), t) || Includes(Lower(o.id), t))
    && (statusFilter != "" ==> o.status == statusFilter)
  }

  /** The filter's test, as one function value. */
  function KeepOrder(term: string, statusFilter: string): OrderView -> bool
  {
    o => OrderMatches(o, term, statusFilter)
  }

  /** `filteredOrders` */
  function FilterOrders(orders: seq<OrderView>, term: string, statusFilter: string): seq<OrderView>
  {
    Filter(orders, KeepOrder(term, statusFilter))
  }

  /** The list shown keeps the fetched order, and holds each order exactly as
      often as fetched when the lowercased term occurs in its lowercased
      customer name, email or id and the status filter is empty or equal to
      its status, and not at all otherwise. */
  lemma FilterOrdersSpec(orders: seq<OrderView>, term: string, statusFilter: string)
    ensures IsSubsequence(FilterOrders(orders, term, statusFilter), orders)
    ensures forall o :: multiset(FilterOrders(orders, term, statusFilter))[o] ==
                        if OrderMatches(o, term, statusFilter) then multiset(orders)[o] else 0
  {
    FilterIsSubsequence(orders, KeepOrder(term, statusFilter));
    forall o ensures multiset(FilterOrders(orders, term, statusFilter))[o] ==
      if OrderMatches(o, term, statusFilter) then multiset(orders)[o] else 0
    {
      FilterCount(orders, KeepOrder(term, statusFilter), o);
    }
  }

  /** An empty search and an empty status filter show every order. */
  lemma EmptyFiltersKeepAll(orders: seq<OrderView>)
    ensures FilterOrders(orders, "", "") == orders
  {
    forall i | 0 <= i < |orders| ensures OrderMatches(orders[i], "", "") {
      IncludesEmpty(Lower(orders[i].userName));
    }
    FilterKeepsAll(orders, KeepOrder("", ""));
  }

  /** The search ignores case: searching for a term or its lowercase form
      shows the same orders. */
  lemma SearchIgnoresCase(orders: seq<OrderView>, term: string, statusFilter: string)
    ensures FilterOrders(orders, term, statusFilter) == FilterOrders(orders, Lower(term), statusFilter)
  {
    LowerIdempotent(term);
    FilterSameTest(orders, KeepOrder(term, statusFilter), KeepOrder(Lower(term), statusFilter));
  }

  // ---------------------------------------------------------------------------
  // The "All Statuses" choice

  const AllStatuses: string := "ALL"

  /** As written, choosing "All Statuses" sets the filter to "ALL", which no
      order status equals: every real order is hidden. */
  lemma AllChoiceHidesEverything(orders: seq<OrderView>, term: string)
    requires forall i :: 0 <= i < |orders| ==> orders[i].status != AllStatuses
    ensures FilterOrders(orders, term, AllStatuses) == []
  {
    FilterKeepsNone(orders, KeepOrder(term, AllStatuses));
  }

  /** "All Statuses" read as no status filter. */
  predicate OrderMatchesIntended(o: OrderView, term: string, statusFilter: string)
  {
    OrderMatches(o, term, if statusFilter == AllStatuses then "" else statusFilter)
  }

  function KeepOrderIntended(term: string, statusFilter: string): OrderView -> bool
  {
    o => OrderMatchesIntended(o, term, statusFilter)
  }

  function FilterOrdersIntended(orders: seq<OrderView>, term: string, statusFilter: string): seq<OrderView>
  {
    Filter(orders, KeepOrderIntended(term, statusFilter))
  }

  /** With "All Statuses" read as no filter, choosing it shows what the
      empty filter shows (so with an empty search, every order), and every
      other choice filters as written. */
  lemma FilterOrdersIntendedSpec(orders: seq<OrderView>, term: string, statusFilter: string)
    ensures FilterOrdersIntended(orders, term, AllStatuses) == FilterOrders(orders, term, "")
    ensures FilterOrdersIntended(orders, "", AllStatuses) == orders
    ensures statusFilter != AllStatuses ==>
      FilterOrdersIntended(orders, term, statusFilter) == FilterOrders(orders, term, statusFilter)
  {
    FilterSameTest(orders, KeepOrderIntended(term, AllStatuses), KeepOrder(term, ""));
    FilterSameTest(orders, KeepOrderIntended("", AllStatuses), KeepOrder("", ""));
    EmptyFiltersKeepAll(orders);
    if statusFilter != AllStatuses {
      FilterSameTest(orders, KeepOrderIntended(term, statusFilter), KeepOrder(term, statusFilter));
    }
  }

  // ---------------------------------------------------------------------------
  // Badge colour and invoice link

  const PendingColor: string := "bg-yellow-100 text-yellow-800 dark:bg-yellow-900/20 dark:text-yellow-500"
  const ProcessingColor: string := "bg-blue-100 text-blue-800 dark:bg-blue-900/20 dark:text-blue-500"
  const ShippedColor: string := "bg-purple-100 text-purple-800 dark:bg-purple-900/20 dark:text-purple-500"
  const DeliveredColor: string := "bg-green-100 text-green-800 dark:bg-green-900/20 dark:text-green-500"
  const CancelledColor: string := "bg-red-100 text-red-800 dark:bg-red-900/20 dark:text-red-500"
  const DefaultColor: string := "bg-gray-100 text-gray-800 dark:bg-gray-900/20 dark:text-gray-500"

  const KnownStatuses: seq<string> := ["PENDING", "PROCESSING", "SHIPPED", "DELIVERED", "CANCELLED"]
  const StatusColors: seq<string> := [PendingColor, ProcessingColor, ShippedColor, DeliveredColor, CancelledColor]

  /** `getStatusColor` */
  function StatusColor(status: string): string
  {
    match status
    case "PENDING" => PendingColor
    case "PROCESSING" => ProcessingColor
    case "SHIPPED" => ShippedColor
    case "DELIVERED" => DeliveredColor
    case "CANCELLED" => CancelledColor
    case _ => DefaultColor
  }

  /** Each known status has its own colour, none of them grey; any other
      status is grey. */
  lemma StatusColorSpec(status: string)
    ensures forall i :: 0 <= i < |KnownStatuses| ==> StatusColor(KnownStatuses[i]) == StatusColors[i]
    ensures forall i, j :: 0 <= i < j < |StatusColors| ==> StatusColors[i] != StatusColors[j]
    ensures forall i :: 0 <= i < |StatusColors| ==> StatusColors[i] != DefaultColor
    ensures status !in KnownStatuses ==> StatusColor(status) == DefaultColor
  {
  }

  /** The "Generate Invoice" link: offered exactly for an order without an
      invoice, and pointing at the new-invoice page for that order. */
  function GenerateInvoiceLink(o: OrderView): (link: Option<string>)
    ensures link.Some? <==> o.invoice.None?
    ensures link.Some? ==> link.value == "/admin/invoices/new?orderId=" + o.id
  {
    if o.invoice.None? then Some("/admin/invoices/new?orderId=" + o.id) else None
  }
}
