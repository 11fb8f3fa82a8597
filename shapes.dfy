/** The JSON shapes the browser keeps in React state and localStorage:
    cart and wishlist entries whose `product` may be missing, a bare
    `{_id}` stub, or a full product document. */
module Shapes {
  import opened Wrappers
  import opened ProductModel

  datatype ProductRef = NoProduct | IdOnly(pid: string) | Full(p: Product) {
    /** `product?._id`, with "" standing for undefined. */
    function Id(): string {
      match this
      case NoProduct => ""
      case IdOnly(i) => i
      case Full(p) => p.id
    }

    /** `item.product && item.product._id` is truthy. */
    predicate HasId() {
      !NoProduct? && Id() != ""
    }

    /** `item.product?._id === x` for a defined `x`. */
    predicate IdIs(x: string) {
      !NoProduct? && Id() == x
    }

    /** `item.product?.name` is truthy. */
    predicate HasName() {
      Full? && p.name != ""
    }

    /** `item.product?.price || 0`. */
    function Price(): real {
      if Full? then p.price else 0.0
    }
  }

  /** A cart entry: `_id`, `product`, `quantity`, `size`, `color`. A guest
      entry may lack a colour. */
  datatype CartEntry = CartEntry(id: string, product: ProductRef, quantity: int, size: string,
                                 color: Option<Color>)

  /** A wishlist entry: `_id`, `product`, `addedAt`. */
  datatype WishEntry = WishEntry(id: string, product: ProductRef, addedAt: string)

  /** `color?.name`. */
  function ColorName(c: Option<Color>): Option<string> {
    match c
    case None => None
    case Some(k) => Some(k.name)
  }

  /** The filter the cart and wishlist pages display through: the entry has
      a product with an `_id` and a name. */
  predicate Displayable(r: ProductRef) {
    r.HasId() && r.HasName()
  }

  /** `productData`, or else the product fetched by id (`fetched`, None
      when the request failed); None when neither is at hand. */
  function Resolve(productData: ProductRef, fetched: Option<Product>): (r: Option<ProductRef>)
    ensures r.None? <==> productData.NoProduct? && fetched.None?
    ensures !productData.NoProduct? ==> r == Some(productData)
    ensures productData.NoProduct? && fetched.Some? ==> r == Some(Full(fetched.value))
  {
    if !productData.NoProduct? then Some(productData)
    else match fetched
      case Some(p) => Some(Full(p))
      case None => None
  }

  /** A `navigate(path, { state: { from } })` call. */
  datatype Nav = Nav(path: string, from: Option<string>)
}
