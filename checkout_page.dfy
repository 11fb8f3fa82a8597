/** The submit path of frontend/src/pages/CheckoutPage.jsx: the guard
    chain (signed in, then a non-empty cart), the request it sends, and
    what happens after the server answers. */
module CheckoutPage {
  import opened Wrappers
  import opened Shapes
  import opened Pricing
  import OrderRoutes
  import CartContext
  import CartPage

  /** The two radio buttons; the initial choice is cash on delivery. */
  datatype PaymentMethod = COD | CARD

  const DefaultPayment: PaymentMethod := COD

  function MethodName(m: PaymentMethod): (s: string)
    ensures s != ""
    ensures m == COD <==> s == "COD"
  {
    match m
    case COD => "COD"
    case CARD => "CARD"
  }

  /** The figures the order summary shows: the same as the cart page's
      summary for the same cart. */
  function CheckoutSummary(items: seq<CartEntry>): (s: Summary)
    ensures s == CartPage.PageSummary(items)
  {
    Summarize(CartContext.CartTotal(Some(items)))
  }

  /** The outcome of `handleSubmit` up to the request. */
  datatype SubmitStep =
    | ToLogin(nav: Nav)
    | CartEmpty
    | Post(shippingAddress: OrderRoutes.Address, paymentMethod: string)

  /** `handleSubmit`: a guest is sent to /login; an empty cart sends
      nothing; otherwise the form and payment method are posted. */
  function Submit(authenticated: bool, items: seq<CartEntry>, form: OrderRoutes.Address,
                  payment: PaymentMethod): (r: SubmitStep)
    ensures !authenticated ==> r == ToLogin(Nav("/login", None))
    ensures r.Post? <==> authenticated && items != []
    ensures r.CartEmpty? <==> authenticated && items == []
    ensures r.Post? ==> r.shippingAddress == form && r.paymentMethod == MethodName(payment)
  {
    if !authenticated then ToLogin(Nav("/login", None))
    else if |items| == 0 then CartEmpty
    else Post(form, MethodName(payment))
  }

  /** What the page does once the request returns: on success (`orderId`
      present) it clears the cart and opens the order's page; on failure it
      stays. */
  datatype AfterPost = Placed(clearCart: bool, nav: Nav) | Stay

  function AfterReply(orderId: Option<string>): (r: AfterPost)
    ensures orderId.Some? ==> r == Placed(true, Nav("/order/" + orderId.value, None))
    ensures orderId.None? ==> r == Stay
  {
    match orderId
    case Some(id) => Placed(true, Nav("/order/" + id, None))
    case None => Stay
  }

  /** The request the page sends always passes the server's first guard: the
      address is an object and the payment method is never empty; and the
      method chosen decides the payment status the order records. */
  lemma PostPassesServerGuard(authenticated: bool, items: seq<CartEntry>,
                              form: OrderRoutes.Address, payment: PaymentMethod)
    requires Submit(authenticated, items, form, payment).Post?
    ensures var p := Submit(authenticated, items, form, payment);
      && p.paymentMethod != ""
      && (OrderRoutes.PaymentStatus(p.paymentMethod) == "Pending" <==> payment == COD)
      && (OrderRoutes.PaymentStatus(p.paymentMethod) == "Completed" <==> payment == CARD)
  {
  }
}
