/** The price rule shared by the cart page, the checkout page and order
    creation: shipping is free above 1000 and 50 otherwise, tax is 18% of
    the subtotal, and the total is their sum. Amounts are exact reals. */
module Pricing {

  const FreeShippingAbove: real := 1000.0
  const FlatShipping: real := 50.0
  const TaxRate: real := 0.18

  function Shipping(subtotal: real): (s: real)
    ensures s == 0.0 <==> subtotal > FreeShippingAbove
    ensures s == 0.0 || s == FlatShipping
  {
    if subtotal > FreeShippingAbove then 0.0 else FlatShipping
  }

  function Tax(subtotal: real): real {
    subtotal * TaxRate
  }

  /** The four figures the pages show and the order stores. */
  datatype Summary = Summary(subtotal: real, shipping: real, tax: real, total: real)

  function Summarize(subtotal: real): (r: Summary)
    ensures r.subtotal == subtotal
    ensures r.shipping == 0.0 <==> subtotal > FreeShippingAbove
    ensures subtotal <= FreeShippingAbove ==> r.shipping == FlatShipping
    ensures r.tax * 100.0 == subtotal * 18.0
    ensures r.total == r.subtotal + r.shipping + r.tax
  {
    var shipping := Shipping(subtotal);
    var tax := Tax(subtotal);
    Summary(subtotal, shipping, tax, subtotal + shipping + tax)
  }

  /** The total lies between 118% of the subtotal and that plus the flat
      shipping charge, and equals 118% exactly above the threshold. */
  lemma TotalBounds(subtotal: real)
    ensures subtotal * 1.18 <= Summarize(subtotal).total <= subtotal * 1.18 + FlatShipping
    ensures subtotal > FreeShippingAbove ==> Summarize(subtotal).total == subtotal * 1.18
    ensures subtotal <= FreeShippingAbove ==> Summarize(subtotal).total == subtotal * 1.18 + 50.0
  {
  }

  /** Crossing the free-shipping threshold makes a larger cart cheaper:
      the total is not monotone in the subtotal. */
  lemma NotMonotoneAtThreshold()
    ensures Summarize(1000.0).total == 1230.0
    ensures Summarize(1001.0).total == 1181.18
    ensures Summarize(1001.0).total < Summarize(1000.0).total
  {
  }

  /** Below or at the threshold, and separately above it, a larger
      subtotal never gives a smaller total. */
  lemma MonotoneOnEachSide(a: real, b: real)
    requires a <= b
    requires (b <= FreeShippingAbove) || (a > FreeShippingAbove)
    ensures Summarize(a).total <= Summarize(b).total
  {
  }
}
