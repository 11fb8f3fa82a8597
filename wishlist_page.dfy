/** The decisions of frontend/src/pages/WishlistPage.jsx: which entries are
    shown, when the empty view appears, and what "Move to Cart" sends. The
    page never removes an entry it moves: only "Remove" does. */
module WishlistPage {
  import opened Wrappers
  import opened Seqs
  import opened ProductModel
  import opened Shapes
  import CartContext

  /** `(wishlist?.items || []).filter(item => item && item.product &&
      item.product._id && item.product.name)`. */
  function ValidItems(items: Option<seq<WishEntry>>): (r: seq<WishEntry>)
    ensures forall i :: 0 <= i < |r| ==> Displayable(r[i].product) && r[i] in items.GetOr([])
    ensures forall i :: 0 <= i < |items.GetOr([])| && Displayable(items.GetOr([])[i].product) ==>
      items.GetOr([])[i] in r
  {
    Filter(items.GetOr([]), (e: WishEntry) => Displayable(e.product))
  }

  predicate ShowEmpty(items: Option<seq<WishEntry>>) {
    items.None? || |items.value| == 0 || |ValidItems(items)| == 0
  }

  /** The empty view appears exactly when no entry is displayable. */
  lemma ShowEmptyIff(items: Option<seq<WishEntry>>)
    ensures ShowEmpty(items) <==>
      forall i :: 0 <= i < |items.GetOr([])| ==> !Displayable(items.GetOr([])[i].product)
  {
    var r := ValidItems(items);
    if r != [] {
      assert r[0] in items.GetOr([]);
    }
  }

  /** `product.sizes?.[0] || 'M'`: a bare `{_id}` stub has no sizes. */
  function DefaultSize(product: ProductRef): (s: string)
    ensures s != ""
    ensures product.Full? && |product.p.sizes| > 0 && product.p.sizes[0] != "" ==> s == product.p.sizes[0]
    ensures !(product.Full? && |product.p.sizes| > 0 && product.p.sizes[0] != "") ==> s == "M"
  {
    if product.Full? && |product.p.sizes| > 0 && product.p.sizes[0] != "" then product.p.sizes[0] else "M"
  }

  const FallbackColor := Color("Default", "#000000")

  /** `product.colors?.[0] || { name: 'Default', code: '#000000' }`. */
  function DefaultColor(product: ProductRef): (c: Color)
    ensures product.Full? && |product.p.colors| > 0 ==> c == product.p.colors[0]
    ensures !(product.Full? && |product.p.colors| > 0) ==> c == FallbackColor
  {
    if product.Full? && |product.p.colors| > 0 then product.p.colors[0] else FallbackColor
  }

  /** What "Move to Cart" does: refuse an entry without `product._id`, or
      ask the cart for one unit of the default size and colour, passing the
      product data along. */
  datatype MoveOutcome =
    | MissingProduct
    | AddToCart(productId: string, quantity: int, size: string, color: Color, productData: ProductRef)

  function MoveToCart(product: ProductRef): (r: MoveOutcome)
    ensures r.MissingProduct? <==> !product.HasId()
    ensures r.AddToCart? ==> && r.productId == product.Id() && r.quantity == 1
                             && r.size == DefaultSize(product) && r.color == DefaultColor(product)
                             && r.productData == product
  {
    if !product.HasId() then MissingProduct
    else AddToCart(product.Id(), 1, DefaultSize(product), DefaultColor(product), product)
  }

  /** A guest "Move to Cart" raises the cart count by exactly one, whether
      it merges into an existing line or appends a new one. */
  lemma MoveAddsOneUnit(items: seq<CartEntry>, product: ProductRef, freshId: string)
    requires product.HasId()
    requires forall j :: 0 <= j < |items| ==> items[j].quantity > 0
    ensures var m := MoveToCart(product);
      CartContext.CartCount(Some(CartContext.GuestAdd(items, m.productId, m.quantity, m.size,
                                                       Some(m.color), product, freshId)))
        == CartContext.CartCount(Some(items)) + 1
  {
    var m := MoveToCart(product);
    CartContext.GuestAddCount(items, m.productId, m.quantity, m.size, Some(m.color), product, freshId);
  }

  /** "Remove" asks the context to drop the entry's product id; for a shown
      entry that id is never empty. */
  function RemoveRequest(e: WishEntry): (productId: string)
    requires Displayable(e.product)
    ensures productId != "" && e.product.IdIs(productId)
  {
    e.product.Id()
  }
}
