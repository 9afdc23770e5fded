/** One line of the cart page: the price, quantity and subtotal it shows and
    its increase, decrease and remove buttons, which call into the cart store. */
module CartItemView {
  import opened Seqs
  import opened Cart

  /** The price shown: 0 when the stored price is not a number. */
  function ShownPrice(item: CartItem): int
  {
    OrDefault(item.price, 0)
  }

  /** The quantity shown and stepped: 1 when the stored quantity is not a number. */
  function ShownQuantity(item: CartItem): int
  {
    OrDefault(item.quantity, 1)
  }

  /** The subtotal shown: shown price times shown quantity. For a line with
      numeric fields it is exactly what the line adds to the cart total. */
  function Subtotal(item: CartItem): (r: int)
    ensures IsFinite(item) ==> r == LineTotal(item)
    ensures item.price.NaN? ==> r == 0
    ensures item.price.Finite? && item.quantity.NaN? ==> r == item.price.value
  {
    ShownPrice(item) * ShownQuantity(item)
  }

  /** The minus button is disabled exactly when the shown quantity is at most 1. */
  predicate DecreaseDisabled(item: CartItem)
  {
    ShownQuantity(item) <= 1
  }

  /** The quantity the plus button asks the store for. */
  function IncreaseRequest(item: CartItem): (q: int)
    ensures q == ShownQuantity(item) + 1
    ensures q > ShownQuantity(item)
  {
    ShownQuantity(item) + 1
  }

  /** The quantity the minus button asks the store for, if any: one less,
      only when the shown quantity is above 1, so never below 1. */
  function DecreaseRequest(item: CartItem): (r: Option<int>)
    ensures r.Some? <==> !DecreaseDisabled(item)
    ensures r.Some? ==> r.value >= 1 && r.value + 1 == ShownQuantity(item)
  {
    var q := ShownQuantity(item);
    if q > 1 then Some(q - 1) else None
  }

  /** The subtotals shown for a cart whose items are all numeric add up to
      the cart's `totalPrice`. */
  lemma {:induction false} SubtotalsAddUpToTotal(cart: seq<CartItem>)
    requires AllFinite(cart)
    ensures Total(cart) == SumOfSubtotals(cart)
  {
    if cart != [] {
      var n := |cart| - 1;
      SubtotalsAddUpToTotal(cart[..n]);
      assert IsFinite(cart[n]);
    }
  }

  function SumOfSubtotals(cart: seq<CartItem>): int
  {
    if cart == [] then 0 else SumOfSubtotals(cart[..|cart| - 1]) + Subtotal(cart[|cart| - 1])
  }

  /** `handleIncrease`: sets this line's id to the shown quantity plus one. */
  method HandleIncrease(store: CartStore, item: CartItem)
    requires store.Valid()
    modifies store
    ensures store.Valid()
    ensures store.cart == Updated(old(store.cart), item.id, Finite(ShownQuantity(item) + 1))
    ensures store.customerInfo == old(store.customerInfo)
  {
    store.UpdateQuantity(item.id, Finite(IncreaseRequest(item)));
  }

  /** `handleDecrease`: sets this line's id to the shown quantity minus one
      when that quantity is above 1, and otherwise does nothing. */
  method HandleDecrease(store: CartStore, item: CartItem)
    requires store.Valid()
    modifies store
    ensures store.Valid()
    ensures store.cart ==
      if ShownQuantity(item) > 1 then Updated(old(store.cart), item.id, Finite(ShownQuantity(item) - 1))
      else old(store.cart)
    ensures store.customerInfo == old(store.customerInfo)
  {
    match DecreaseRequest(item)
    case Some(q) => store.UpdateQuantity(item.id, Finite(q));
    case None =>
  }

  /** `handleRemove`: removes exactly this line's id. */
  method HandleRemove(store: CartStore, item: CartItem)
    requires store.Valid()
    modifies store
    ensures store.Valid()
    ensures store.cart == Removed(old(store.cart), item.id)
    ensures !HasId(store.cart, item.id)
    ensures store.customerInfo == old(store.customerInfo)
  {
    store.RemoveFromCart(item.id);
    RemoveSpec(old(store.cart), item.id);
  }

  /** A line's own decrease never takes a line of the cart from at least 1 to
      below 1: whatever it stores for that id is at least 1. */
  lemma DecreaseKeepsAtLeastOne(cart: seq<CartItem>, item: CartItem, k: nat)
    requires k < |cart| && cart[k].id == item.id
    requires DecreaseRequest(item).Some?
    ensures Updated(cart, item.id, Finite(DecreaseRequest(item).value))[k].quantity.value >= 1
  {
  }
}
