/** The admin product list: a search over name and description, deletion
    that drops the product from the list once the server confirms it, and a
    discount badge. */
module AdminProducts {
  import opened Seqs
  import opened Strings
  import opened Store
  import opened OrdersRoute

  /** The search test for one product. */
  predicate ProductMatches(p: ProductRow, term: string)
  {
    var t := Lower(term);
    Includes(Lower(p.name), t) || Includes(Lower(p.description), t)
  }

  function KeepProduct(term: string): ProductRow -> bool
  {
    p => ProductMatches(p, term)
  }

  /** `product.id !== id` */
  function KeepOtherThan(id: string): ProductRow -> bool
  {
    (p: ProductRow) => p.id != id
  }

  /** `filteredProducts` */
  function FilterProducts(products: seq<ProductRow>, term: string): seq<ProductRow>
  {
    Filter(products, KeepProduct(term))
  }

  /** The list shown keeps the fetched order and holds each product exactly as
      often as fetched when the lowercased term occurs in its lowercased name
      or description, and not at all otherwise; an empty term shows all. */
  lemma FilterProductsSpec(products: seq<ProductRow>, term: string)
    ensures IsSubsequence(FilterProducts(products, term), products)
    ensures forall p :: multiset(FilterProducts(products, term))[p] ==
                        if ProductMatches(p, term) then multiset(products)[p] else 0
    ensures FilterProducts(products, "") == products
  {
    FilterIsSubsequence(products, KeepProduct(term));
    forall p ensures multiset(FilterProducts(products, term))[p] ==
      if ProductMatches(p, term) then multiset(products)[p] else 0
    {
      FilterCount(products, KeepProduct(term), p);
    }
    forall i | 0 <= i < |products| ensures ProductMatches(products[i], "") {
      IncludesEmpty(Lower(products[i].name));
    }
    FilterKeepsAll(products, KeepProduct(""));
  }

  /** The page's state: the fetched products and the search box. */
  class AdminProductsPage {
    var products: seq<ProductRow>
    var searchTerm: string

    constructor (fetched: seq<ProductRow>)
      ensures products == fetched && searchTerm == ""
    {
      products := fetched;
      searchTerm := "";
    }

    /** The products shown. */
    function Shown(): seq<ProductRow>
      reads this
    {
      FilterProducts(products, searchTerm)
    }

    method SetSearchTerm(term: string)
      modifies this
      ensures searchTerm == term && products == old(products)
    {
      searchTerm := term;
    }

    /** `handleDeleteProduct`: `confirmed` is the answer to the confirmation
        dialog and `ok` whether the DELETE request answered with a success
        status (false when it failed outright). Only a confirmed, successful
        deletion touches the list, and then it drops exactly the rows with
        that id. */
    method HandleDelete(id: string, confirmed: bool, ok: bool)
      modifies this
      ensures products == if confirmed && ok then Filter(old(products), KeepOtherThan(id)) else old(products)
      ensures searchTerm == old(searchTerm)
      ensures IsSubsequence(products, old(products))
      ensures forall p :: multiset(products)[p] ==
                if confirmed && ok && p.id == id then 0 else multiset(old(products))[p]
    {
      if confirmed && ok {
        var before := products;
        products := Filter(products, KeepOtherThan(id));
        FilterIsSubsequence(before, KeepOtherThan(id));
        forall p ensures multiset(products)[p] == if p.id == id then 0 else multiset(before)[p] {
          FilterCount(before, KeepOtherThan(id), p);
        }
      } else {
        var same := products;
        assert Embedding(same, same, seq(|same|, i requires 0 <= i < |same| => i as nat));
      }
    }
  }

  // ---------------------------------------------------------------------------
  // The discount badge

  /** What the badge position renders: nothing, the bare text of a number,
      or the "% OFF" badge for a discount. */
  datatype BadgeSlot = Nothing | BareNumber(n: real) | Badge(discount: real)

  /** `{product.discount && (<badge/>)}` as written: a missing discount
      renders nothing, but a discount of 0 is rendered as the number 0. */
  function DiscountSlot(p: ProductRow): BadgeSlot
  {
    match p.discount
    case None => Nothing
    case Some(d) => if d == 0.0 then BareNumber(d) else Badge(d)
  }

  /** As written, a product at 0% discount shows a stray "0" on its image. */
  lemma ZeroDiscountRendersZero(p: ProductRow)
    requires p.discount == Some(0.0)
    ensures DiscountSlot(p) == BareNumber(0.0)
  {
  }

  /** The badge slot as intended: nothing unless the discount is non-zero. */
  function DiscountSlotIntended(p: ProductRow): BadgeSlot
  {
    match p.discount
    case None => Nothing
    case Some(d) => if d == 0.0 then Nothing else Badge(d)
  }

  /** The intended slot never renders bare text, agrees with the code
      wherever the code shows a badge, and, for a well-formed product, shows
      a badge exactly when the product is sold below its price. */
  lemma DiscountSlotIntendedSpec(p: ProductRow)
    ensures !DiscountSlotIntended(p).BareNumber?
    ensures DiscountSlot(p).Badge? ==> DiscountSlotIntended(p) == DiscountSlot(p)
    ensures DiscountSlotIntended(p).Badge? <==> p.discount.Some? && p.discount.value != 0.0
    ensures WellFormedProduct(p) ==> (DiscountSlotIntended(p).Badge? <==> UnitPrice(p) < p.price)
  {
    if WellFormedProduct(p) {
      UnitPriceBounds(p);
    }
  }
}
