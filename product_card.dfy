/** The decisions of frontend/src/components/ProductCard.jsx: whether the
    card renders, the discount badge, the struck-through original price and
    the wishlist button. The card may receive a full document or, from a
    guest wishlist, a bare `{_id}` stub. */
module ProductCard {
  import opened Wrappers
  import opened ProductModel
  import opened Shapes
  import WishlistContext

  /** What a rendered card shows of the pricing. */
  datatype CardView = CardView(productId: string, discount: int, badge: bool, strikeThrough: bool)

  /** The card: nothing without a product `_id`. A stub has no prices, so
      `originalPrice > price` is false for it and it shows neither mark. */
  function Card(r: ProductRef): (v: Option<CardView>)
    requires r.Full? ==> r.p.price >= 0.0
    ensures v.None? <==> !r.HasId()
    ensures v.Some? ==> v.value.productId == r.Id()
    ensures v.Some? ==> (v.value.badge <==> v.value.discount > 0)
    ensures v.Some? && r.Full? ==> v.value.discount == DiscountPercentage(r.p.originalPrice, r.p.price)
    ensures v.Some? && r.Full? ==>
      (v.value.strikeThrough <==> r.p.originalPrice != 0.0 && r.p.originalPrice > r.p.price)
    ensures v.Some? && !r.Full? ==> v.value.discount == 0 && !v.value.badge && !v.value.strikeThrough
  {
    if !r.HasId() then None
    else match r
      case Full(p) =>
        var d := DiscountPercentage(p.originalPrice, p.price);
        Some(CardView(p.id, d, d > 0, p.originalPrice != 0.0 && p.originalPrice > p.price))
      case _ => Some(CardView(r.Id(), 0, false, false))
  }

  /** A badge always comes with a struck-through price, since a positive
      discount needs an original price above a non-negative price. */
  lemma BadgeImpliesStrike(r: ProductRef)
    requires r.Full? ==> r.p.price >= 0.0
    ensures Card(r).Some? && Card(r).value.badge ==> Card(r).value.strikeThrough
  {
  }

  /** The converse fails: a saving below half a percent is struck through
      with no badge. */
  lemma StrikeWithoutBadge()
    ensures var p := NewProduct("p", "Tee", "Cotton tee", 999.0, 1000.0, "Men", "Brand", [], [], [], None, None);
      var v := Card(Full(p));
      v.Some? && v.value.strikeThrough && !v.value.badge
  {
    var p := NewProduct("p", "Tee", "Cotton tee", 999.0, 1000.0, "Men", "Brand", [], [], [], None, None);
    assert (p.originalPrice - p.price) / p.originalPrice * 100.0 == 0.1;
  }

  /** The heart button: refused without a product `_id`, else the toggle. */
  function WishlistButton(items: seq<WishEntry>, r: ProductRef): (a: Option<WishlistContext.WishAction>)
    ensures a.None? <==> !r.HasId()
    ensures a.Some? ==> (a.value.RemoveWish? <==> WishlistContext.IsIn(items, r.Id()))
    ensures a.Some? && a.value.AddWish? ==> a.value.productData == r
  {
    if !r.HasId() then None else Some(WishlistContext.ToggleRequest(items, r.Id(), r))
  }

  /** Pressing the button as a guest flips membership of the card's product,
      provided the product resolves: it is a document or a stub, or the fetch
      the context makes for a missing one succeeds. */
  lemma WishlistButtonFlips(items: seq<WishEntry>, r: ProductRef, fetched: Option<Product>,
                            freshId: string, now: string)
    requires r.HasId()
    ensures WishlistContext.IsIn(
              WishlistContext.Perform(items, WishlistButton(items, r).value, fetched, freshId, now), r.Id())
            <==> !WishlistContext.IsIn(items, r.Id())
  {
    WishlistContext.ToggleFlips(items, r.Id(), r, fetched, freshId, now);
  }
}
