/** The admin invoice list: a search over invoice number and customer, the
    amount still owed, and the view, print and download links. */
module AdminInvoices {
  import opened Seqs
  import opened Strings

  /** An invoice as the admin list receives it, with its order's amounts and
      customer. */
  datatype InvoiceView = InvoiceView(
    id: string,
    invoiceNumber: string,
    userName: string,
    userEmail: string,
    paidAmount: int,
    totalAmount: int)

  predicate InvoiceMatches(inv: InvoiceView, term: string)
  {
    var t := Lower(term);
    Includes(Lower(inv.invoiceNumber), t) || Includes(Lower(inv.userName), t) || Includes(Lower(inv.userEmail), t)
  }

  function KeepInvoice(term: string): InvoiceView -> bool
  {
    inv => InvoiceMatches(inv, term)
  }

  /** `filteredInvoices` */
  function FilterInvoices(invoices: seq<InvoiceView>, term: string): seq<InvoiceView>
  {
    Filter(invoices, KeepInvoice(term))
  }

  /** The list shown keeps the fetched order and holds each invoice exactly as
      often as fetched when the lowercased term occurs in its lowercased
      number, customer name or email, and not at all otherwise; an empty
      term shows all. */
  lemma FilterInvoicesSpec(invoices: seq<InvoiceView>, term: string)
    ensures IsSubsequence(FilterInvoices(invoices, term), invoices)
    ensures forall inv :: multiset(FilterInvoices(invoices, term))[inv] ==
                          if InvoiceMatches(inv, term) then multiset(invoices)[inv] else 0
    ensures FilterInvoices(invoices, "") == invoices
  {
    FilterIsSubsequence(invoices, KeepInvoice(term));
    forall inv ensures multiset(FilterInvoices(invoices, term))[inv] ==
      if InvoiceMatches(inv, term) then multiset(invoices)[inv] else 0
    {
      FilterCount(invoices, KeepInvoice(term), inv);
    }
    forall i | 0 <= i < |invoices| ensures InvoiceMatches(invoices[i], "") {
      IncludesEmpty(Lower(invoices[i].invoiceNumber));
    }
    FilterKeepsAll(invoices, KeepInvoice(""));
  }

  /** The "Remaining" amount: what is left once the paid amount is taken off
      the total. Nothing clamps it: an overpaid order shows a negative amount. */
  function Remaining(inv: InvoiceView): (r: int)
    ensures r + inv.paidAmount == inv.totalAmount
    ensures r < 0 <==> inv.paidAmount > inv.totalAmount
    ensures r == 0 <==> inv.paidAmount == inv.totalAmount
  {
    inv.totalAmount - inv.paidAmount
  }

  /** The card's view, print and download links. */
  function InvoiceLinks(inv: InvoiceView): (links: seq<string>)
    ensures |links| == 3
    ensures forall i :: 0 <= i < 3 ==> "/admin/invoices/" + inv.id <= links[i]
    ensures links[0] == "/admin/invoices/" + inv.id
    ensures links[1][|links[0]|..] == "/print" && links[2][|links[0]|..] == "/download"
  {
    var base := "/admin/invoices/" + inv.id;
    [base, base + "/print", base + "/download"]
  }
}
