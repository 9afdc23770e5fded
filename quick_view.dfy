/** The product quick-view dialog: a quantity stepper that starts at 1 and
    never goes below it, and an add-to-cart button that hands the product and
    the current quantity to the cart store and then closes the dialog. */
module QuickView {
  import opened Seqs
  import opened Cart

  /** The product the dialog shows (the catalogue's product shape). */
  datatype Product = Product(id: string, name: string, price: Num, description: string, image: string)

  /** `{ ...product, quantity }`: the product as a cart item. The catalogue
      product carries no colour, size or material. */
  function WithQuantity(p: Product, quantity: int): (item: CartItem)
    ensures item.id == p.id && item.price == p.price && item.quantity == Finite(quantity)
    ensures item.color == None && item.size == None && item.material == None
  {
    CartItem(p.id, p.name, p.price, p.description, p.image, None, None, None, Finite(quantity))
  }

  /** The price shown: 0 when it is not a number. */
  function ShownPrice(p: Product): (r: int)
    ensures p.price.Finite? ==> r == p.price.value
    ensures p.price.NaN? ==> r == 0
  {
    OrDefault(p.price, 0)
  }

  class ProductQuickView {
    const product: Product
    const store: CartStore
    var quantity: int
    /** Set once `onClose` has been called. */
    var closeRequested: bool

    /** The stepper never shows less than 1. */
    ghost predicate Valid()
      reads this
    {
      quantity >= 1
    }

    constructor (product: Product, store: CartStore)
      ensures Valid()
      ensures this.product == product && this.store == store
      ensures quantity == 1 && !closeRequested
    {
      this.product := product;
      this.store := store;
      quantity := 1;
      closeRequested := false;
    }

    /** `increaseQuantity`: exactly one more. */
    method IncreaseQuantity()
      requires Valid()
      modifies this
      ensures Valid()
      ensures quantity == old(quantity) + 1
      ensures closeRequested == old(closeRequested)
    {
      quantity := quantity + 1;
    }

    /** `decreaseQuantity`: one less while above 1, otherwise 1. */
    method DecreaseQuantity()
      requires Valid()
      modifies this
      ensures Valid()
      ensures quantity == if old(quantity) > 1 then old(quantity) - 1 else 1
      ensures closeRequested == old(closeRequested)
    {
      quantity := if quantity > 1 then quantity - 1 else 1;
    }

    /** `handleAddToCart`: adds the product with the current quantity, then
        closes the dialog; the stepper keeps its value. */
    method HandleAddToCart()
      requires Valid() && store.Valid()
      modifies this, store
      ensures Valid() && store.Valid()
      ensures store.cart == Added(old(store.cart), WithQuantity(product, quantity))
      ensures store.customerInfo == old(store.customerInfo)
      ensures quantity == old(quantity) && closeRequested
    {
      store.AddToCart(WithQuantity(product, quantity));
      closeRequested := true;
    }
  }

  /** What the dialog adds always carries a quantity of at least 1, so a new
      line starts at that quantity and an existing one grows by it. */
  lemma AddedFromDialog(cart: seq<CartItem>, p: Product, quantity: int)
    requires quantity >= 1
    requires AllFinite(cart) && DistinctIds(cart)
    ensures Total(Added(cart, WithQuantity(p, quantity))) ==
      Total(cart) + match Find(cart, p.id)
        case Some(line) => line.price.value * quantity
        case None => ShownPrice(p) * quantity
  {
    TotalAfterAdd(cart, WithQuantity(p, quantity));
  }
}
