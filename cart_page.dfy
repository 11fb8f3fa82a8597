/** The decisions of frontend/src/pages/CartPage.jsx: which entries are
    shown, when the empty view appears, which quantity the − and + buttons
    request, what "Save for Later" does, and where checkout leads. */
module CartPage {
  import opened Wrappers
  import opened Seqs
  import opened Shapes
  import opened Pricing
  import CartContext
  import ProductModel

  /** `(cart?.items || []).filter(item => item && item.product &&
      item.product._id && item.product.name)`. */
  function ValidItems(items: Option<seq<CartEntry>>): (r: seq<CartEntry>)
    ensures forall i :: 0 <= i < |r| ==> Displayable(r[i].product) && r[i] in items.GetOr([])
    ensures forall i :: 0 <= i < |items.GetOr([])| && Displayable(items.GetOr([])[i].product) ==>
      items.GetOr([])[i] in r
  {
    Filter(items.GetOr([]), (e: CartEntry) => Displayable(e.product))
  }

  /** The empty view: no list, an empty list, or nothing displayable. */
  predicate ShowEmpty(items: Option<seq<CartEntry>>) {
    items.None? || |items.value| == 0 || |ValidItems(items)| == 0
  }

  /** The empty view appears exactly when no entry is displayable. */
  lemma ShowEmptyIff(items: Option<seq<CartEntry>>)
    ensures ShowEmpty(items) <==>
      forall i :: 0 <= i < |items.GetOr([])| ==> !Displayable(items.GetOr([])[i].product)
  {
    var s := items.GetOr([]);
    var r := ValidItems(items);
    if r != [] {
      assert r[0] in s;
    }
  }

  /** The summary panel prices `getCartTotal()`, which runs over every
      entry, shown or not. The two agree whenever each hidden entry lacks a
      product document, since such an entry is priced at 0. */
  lemma {:induction false} HiddenEntriesCostNothing(s: seq<CartEntry>)
    requires forall i :: 0 <= i < |s| ==> Displayable(s[i].product) || !s[i].product.Full?
    ensures CartContext.CartTotal(Some(s)) == CartContext.CartTotal(Some(ValidItems(Some(s))))
  {
    if s != [] {
      var p := (e: CartEntry) => Displayable(e.product);
      HiddenEntriesCostNothing(s[1..]);
      var head := if p(s[0]) then [s[0]] else [];
      assert ValidItems(Some(s)) == head + ValidItems(Some(s[1..]));
      SumAppend(head, ValidItems(Some(s[1..])), CartContext.LineTotal);
      if p(s[0]) {
        assert Sum(head, CartContext.LineTotal) == CartContext.LineTotal(s[0]) + Sum(head[1..], CartContext.LineTotal);
      }
    }
  }

  /** A displayed subtotal prices even an entry the page does not show:
      an entry whose product has no name still counts at its price. */
  lemma HiddenEntryCanCost(p: ProductModel.Product)
    requires p.name == "" && p.price > 0.0
    ensures var e := CartEntry("x", Full(p), 1, "M", None);
      ValidItems(Some([e])) == [] && CartContext.CartTotal(Some([e])) == p.price
  {
    var e := CartEntry("x", Full(p), 1, "M", None);
    assert Sum([e], CartContext.LineTotal) == CartContext.LineTotal(e) + Sum([e][1..], CartContext.LineTotal);
  }

  /** The summary shown is the common price rule applied to that subtotal. */
  function PageSummary(items: seq<CartEntry>): (s: Summary)
    ensures s.subtotal == CartContext.CartTotal(Some(items))
    ensures s.shipping == (if s.subtotal > 1000.0 then 0.0 else 50.0)
    ensures s.tax * 100.0 == s.subtotal * 18.0
    ensures s.total == s.subtotal + s.shipping + s.tax
  {
    Summarize(CartContext.CartTotal(Some(items)))
  }

  /** `Math.max(1, (item.quantity || 1) - 1)`. */
  function DecrementRequest(quantity: int): (q: int)
    ensures q >= 1
    ensures quantity >= 2 ==> q == quantity - 1
    ensures quantity <= 2 ==> q == 1
  {
    var current := if quantity == 0 then 1 else quantity;
    if current - 1 < 1 then 1 else current - 1
  }

  /** `(item.quantity || 1) + 1`. */
  function IncrementRequest(quantity: int): (q: int)
    ensures quantity != 0 ==> q == quantity + 1
    ensures quantity == 0 ==> q == 2
  {
    (if quantity == 0 then 1 else quantity) + 1
  }

  /** For a shown quantity of at least 1, − then + returns to it unless it
      was already 1, and + then − always returns to it. */
  lemma StepperRoundTrip(quantity: int)
    requires quantity >= 1
    ensures DecrementRequest(IncrementRequest(quantity)) == quantity
    ensures quantity >= 2 ==> IncrementRequest(DecrementRequest(quantity)) == quantity
  {
  }

  /** What "Save for Later" does with an entry. */
  datatype MoveOutcome =
    | MissingProduct
    | Move(productId: string, productData: ProductRef, removeId: string)

  /** `handleMoveToWishlist`: an entry without `product._id` is refused;
      otherwise the product goes to the wishlist and the entry is removed
      from the cart by its own `_id`. */
  function MoveToWishlist(e: CartEntry): (r: MoveOutcome)
    ensures r.MissingProduct? <==> !e.product.HasId()
    ensures r.Move? ==> r.productId == e.product.Id() && r.productData == e.product && r.removeId == e.id
  {
    if !e.product.HasId() then MissingProduct else Move(e.product.Id(), e.product, e.id)
  }

  /** `handleCheckout`: a guest is sent to /login remembering /checkout. */
  function Checkout(authenticated: bool): (n: Nav)
    ensures !authenticated ==> n == Nav("/login", Some("/checkout"))
    ensures authenticated ==> n == Nav("/checkout", None)
  {
    if !authenticated then Nav("/login", Some("/checkout")) else Nav("/checkout", None)
  }
}
