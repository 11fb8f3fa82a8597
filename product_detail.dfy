/** The decisions of frontend/src/pages/ProductDetailPage.jsx: the colour
    chosen on load, the related products shown, the guards of "Add to
    Cart" and "Buy Now", the quantity stepper and the wishlist button. */
module ProductDetail {
  import opened Wrappers
  import opened Seqs
  import opened ProductModel
  import opened Shapes
  import Text
  import ProductRoutes
  import WishlistContext

  /** The colour selected once the product has loaded: its first colour;
      a product without colours leaves the selection as it was, which is
      none on the first mount and the previous product's colour when a
      related card led here. */
  function InitialColor(p: Product, previous: Option<Color>): (c: Option<Color>)
    ensures |p.colors| > 0 ==> c == Some(p.colors[0]) && c.value in p.colors
    ensures |p.colors| == 0 ==> c == previous
  {
    if |p.colors| > 0 then Some(p.colors[0]) else previous
  }

  /** Opening a product without colours from a related card of one with
      colours keeps the old colour selected, so "Add to Cart" sends that
      colour with the new product instead of asking for one. */
  lemma StaleColorIsSent(a: Product, b: Product, quantity: int, size: string)
    requires |a.colors| > 0 && |b.colors| == 0 && size != ""
    ensures var c := InitialColor(b, InitialColor(a, None));
      && c == Some(a.colors[0])
      && c.value !in b.colors
      && AddToCart(b, quantity, size, c) == Add(b.id, quantity, size, a.colors[0], Full(b), false)
  {
  }

  /** `relatedResponse.data.products.filter(p => p._id !== id)`. */
  function Related(listed: seq<Product>, id: string): (r: seq<Product>)
    ensures |r| <= |listed|
    ensures forall i :: 0 <= i < |r| ==> r[i].id != id && r[i] in listed
    ensures forall i :: 0 <= i < |listed| && listed[i].id != id ==> listed[i] in r
  {
    Filter(listed, (p: Product) => p.id != id)
  }

  /** The related products come from the category route with `limit=4`:
      at most four, none of them the product itself, all active and of the
      product's category. */
  lemma RelatedFromCategory(products: seq<Product>, p: Product)
    requires p.category != ""
    ensures var l := ProductRoutes.ListByCategory(products, p.category, Some(4), None);
      l.Ok? &&
      var r := Related(l.value.products, p.id);
      && |r| <= 4
      && forall i :: 0 <= i < |r| ==>
           r[i].id != p.id && r[i].isActive && r[i].category == Text.Capitalize(p.category)
  {
    var l := ProductRoutes.ListByCategory(products, p.category, Some(4), None);
    var r := Related(l.value.products, p.id);
    forall i | 0 <= i < |r|
      ensures r[i].isActive && r[i].category == Text.Capitalize(p.category)
    {
      var j :| 0 <= j < |l.value.products| && l.value.products[j] == r[i];
    }
  }

  /** What a cart button asks for. */
  datatype CartStep =
    | NeedSize
    | NeedColor
    | NeedSizeAndColor
    | Add(productId: string, quantity: int, size: string, color: Color, productData: ProductRef, goToCart: bool)

  /** `handleAddToCart`: a size first, then a colour; then the add with the
      full product. */
  function AddToCart(p: Product, quantity: int, size: string, color: Option<Color>): (r: CartStep)
    ensures size == "" ==> r == NeedSize
    ensures size != "" && color.None? ==> r == NeedColor
    ensures r.Add? <==> size != "" && color.Some?
    ensures r.Add? ==> r == Add(p.id, quantity, size, color.value, Full(p), false)
  {
    if size == "" then NeedSize
    else if color.None? then NeedColor
    else Add(p.id, quantity, size, color.value, Full(p), false)
  }

  /** `handleBuyNow`: both at once, then the same add and a move to /cart. */
  function BuyNow(p: Product, quantity: int, size: string, color: Option<Color>): (r: CartStep)
    ensures r.Add? <==> size != "" && color.Some?
    ensures !r.Add? ==> r == NeedSizeAndColor
    ensures r.Add? ==> r.goToCart
  {
    if size == "" || color.None? then NeedSizeAndColor
    else Add(p.id, quantity, size, color.value, Full(p), true)
  }

  /** Both buttons refuse in the same states and, when they go ahead, send
      the same add; only "Buy Now" then opens the cart. */
  lemma BuyNowIsAddThenCart(p: Product, quantity: int, size: string, color: Option<Color>)
    ensures AddToCart(p, quantity, size, color).Add? <==> BuyNow(p, quantity, size, color).Add?
    ensures BuyNow(p, quantity, size, color).Add? ==>
      BuyNow(p, quantity, size, color) == AddToCart(p, quantity, size, color).(goToCart := true)
  {
  }

  /** `Math.max(1, quantity - 1)`. */
  function Decrement(quantity: int): (q: int)
    ensures q >= 1
    ensures quantity >= 2 ==> q == quantity - 1
    ensures quantity < 2 ==> q == 1
  {
    if quantity - 1 < 1 then 1 else quantity - 1
  }

  /** `Math.min(product.stock, quantity + 1)`, as written. */
  function Increment(stock: int, quantity: int): (q: int)
    ensures q <= stock && q <= quantity + 1
    ensures quantity + 1 <= stock ==> q == quantity + 1
  {
    if stock < quantity + 1 then stock else quantity + 1
  }

  /** As written, "+" on a product that is out of stock turns the initial
      quantity 1 into 0, which the cart then receives. */
  lemma IncrementOutOfStock()
    ensures Increment(0, 1) == 0
    ensures AddToCart(OutOfStock(), Increment(0, 1), "M", Some(Color("Black", "#000000"))).Add?
    ensures AddToCart(OutOfStock(), Increment(0, 1), "M", Some(Color("Black", "#000000"))).quantity == 0
  {
  }

  /** A product with no stock, for the lemma above. */
  function OutOfStock(): (p: Product)
    ensures p.stock == 0
  {
    NewProduct("p", "Tee", "Cotton tee", 499.0, 799.0, "Men", "Brand", [], [], ["M"], Some(0), None)
  }

  /** The stepper as evidently intended: up to the stock, never below 1. */
  function IncrementWithinStock(stock: int, quantity: int): (q: int)
    ensures q >= 1
    ensures 1 <= quantity < stock ==> q == quantity + 1
    ensures 1 <= quantity <= stock ==> quantity <= q <= stock
  {
    var up := if stock < quantity + 1 then stock else quantity + 1;
    if up < 1 then 1 else up
  }

  /** With the intended increment, a quantity that starts in 1..stock stays
      there under any mix of presses, so the cart never receives less than
      1 or more than the stock. */
  lemma StepperStaysInRange(stock: int, quantity: int)
    requires 1 <= quantity <= stock
    ensures 1 <= IncrementWithinStock(stock, quantity) <= stock
    ensures 1 <= Decrement(quantity) <= stock
  {
  }

  /** The heart button asks for the product as a full document. */
  function WishlistButton(items: seq<WishEntry>, p: Product): (a: WishlistContext.WishAction)
    ensures a.RemoveWish? <==> WishlistContext.IsIn(items, p.id)
    ensures a.productId == p.id
  {
    WishlistContext.ToggleRequest(items, p.id, Full(p))
  }

  /** Pressing it as a guest flips whether the product is in the wishlist. */
  lemma WishlistButtonFlips(items: seq<WishEntry>, p: Product, freshId: string, now: string)
    ensures WishlistContext.IsIn(
              WishlistContext.Perform(items, WishlistButton(items, p), None, freshId, now), p.id)
            <==> !WishlistContext.IsIn(items, p.id)
  {
    WishlistContext.ToggleFlips(items, p.id, Full(p), None, freshId, now);
  }
}
