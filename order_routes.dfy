/** Order creation and lookup of backend/routes/orderRoutes.js. An order is
    the user's server cart projected into order lines and priced by the
    common rule; creating it empties the cart. */
module OrderRoutes {
  import opened Wrappers
  import opened Seqs
  import opened ProductModel
  import opened Shapes
  import opened Pricing
  import opened CartRoutes
  import CartContext

  /** The checkout form sent as `shippingAddress`. */
  datatype Address = Address(name: string, phone: string, address: string, city: string,
                             state: string, pincode: string)

  datatype OrderItem = OrderItem(product: string, name: string, quantity: int, size: string,
                                 color: Color, price: real, image: string)

  /** An order document. `status`, `isDelivered` and `deliveredAt` are the
      delivery fields the admin routes update. */
  datatype Order = Order(
    id: string,
    user: string,
    orderItems: seq<OrderItem>,
    shippingAddress: Address,
    paymentMethod: string,
    itemsPrice: real,
    shippingPrice: real,
    taxPrice: real,
    totalPrice: real,
    paymentStatus: string,
    status: string,
    isDelivered: bool,
    deliveredAt: Option<int>)

  const MissingCheckoutFields := "Please provide shipping address and payment method"

  /** The populated product of a line is non-null for every line. */
  predicate AllKnown(lines: seq<Line>, catalog: map<string, Product>) {
    forall i :: 0 <= i < |lines| ==> lines[i].product in catalog
  }

  /** `item.product.price * item.quantity`. */
  function LineCost(catalog: map<string, Product>, l: Line): real {
    if l.product in catalog then catalog[l.product].price * l.quantity as real else 0.0
  }

  function CostOf(catalog: map<string, Product>): Line -> real {
    (l: Line) => LineCost(catalog, l)
  }

  /** `itemsPrice`: the `reduce` over the cart lines. */
  function ItemsPrice(lines: seq<Line>, catalog: map<string, Product>): real {
    Sum(lines, CostOf(catalog))
  }

  /** One entry of `orderItems`. */
  function ProjectLine(l: Line, p: Product): OrderItem {
    OrderItem(p.id, p.name, l.quantity, l.size, l.color, p.price,
              if |p.images| > 0 then p.images[0] else "")
  }

  /** `cart.items.map(...)`. */
  function ProjectItems(lines: seq<Line>, catalog: map<string, Product>): seq<OrderItem>
    requires AllKnown(lines, catalog)
  {
    seq(|lines|, i requires 0 <= i < |lines| => ProjectLine(lines[i], catalog[lines[i].product]))
  }

  /** `paymentResult.status`. */
  function PaymentStatus(paymentMethod: string): (s: string)
    ensures s == "Pending" <==> paymentMethod == "COD"
    ensures s == "Pending" || s == "Completed"
  {
    if paymentMethod == "COD" then "Pending" else "Completed"
  }

  function ItemCost(it: OrderItem): real {
    it.price * it.quantity as real
  }

  /** The document `Order.create` receives. Order.js is not part of this
      model; the model takes its defaults to be status 'Pending' and not
      delivered. */
  function BuildOrder(id: string, user: string, lines: seq<Line>, catalog: map<string, Product>,
                      address: Address, paymentMethod: string): (o: Order)
    requires AllKnown(lines, catalog)
    ensures o.id == id && o.user == user && o.shippingAddress == address
    ensures o.paymentMethod == paymentMethod && o.paymentStatus == PaymentStatus(paymentMethod)
    ensures o.orderItems == ProjectItems(lines, catalog)
    ensures o.itemsPrice == ItemsPrice(lines, catalog) == Sum(o.orderItems, ItemCost)
    ensures o.shippingPrice == 0.0 <==> o.itemsPrice > 1000.0
    ensures o.itemsPrice <= 1000.0 ==> o.shippingPrice == 50.0
    ensures o.taxPrice * 100.0 == o.itemsPrice * 18.0
    ensures o.totalPrice == o.itemsPrice + o.shippingPrice + o.taxPrice
    ensures o.status == "Pending" && !o.isDelivered && o.deliveredAt.None?
  {
    var s := Summarize(ItemsPrice(lines, catalog));
    ItemsPriceMatchesOrderItems(lines, catalog);
    Order(id, user, ProjectItems(lines, catalog), address, paymentMethod,
          s.subtotal, s.shipping, s.tax, s.total, PaymentStatus(paymentMethod),
          "Pending", false, None)
  }

  /** `orderItems` has one entry per cart line, in order, copying quantity,
      size, colour and the product's name and price; the image is the
      product's first image or ''. */
  lemma OrderItemsCopyLines(lines: seq<Line>, catalog: map<string, Product>)
    requires AllKnown(lines, catalog)
    ensures var items := ProjectItems(lines, catalog);
      && |items| == |lines|
      && forall i :: 0 <= i < |items| ==>
           var p := catalog[lines[i].product];
           && items[i].product == p.id && items[i].name == p.name
           && items[i].quantity == lines[i].quantity && items[i].size == lines[i].size
           && items[i].color == lines[i].color && items[i].price == p.price
           && (items[i].image == "" <==> p.images == [] || p.images[0] == "")
  {
  }

  /** The stored `itemsPrice` equals the sum of price × quantity over the
      order's own lines: the order is self-consistent. */
  lemma ItemsPriceMatchesOrderItems(lines: seq<Line>, catalog: map<string, Product>)
    requires AllKnown(lines, catalog)
    ensures ItemsPrice(lines, catalog) == Sum(ProjectItems(lines, catalog), ItemCost)
  {
    SumPointwise(lines, ProjectItems(lines, catalog), CostOf(catalog), ItemCost);
  }

  /** The subtotal the cart and checkout pages show for the populated
      server cart equals the order's `itemsPrice`, as long as no line has
      quantity 0 (which the browser counts as 1). */
  lemma BrowserSubtotalMatchesOrder(lines: seq<Line>, catalog: map<string, Product>)
    requires AllKnown(lines, catalog)
    requires forall i :: 0 <= i < |lines| ==> lines[i].quantity != 0
    ensures CartContext.CartTotal(Some(Populate(lines, catalog))) == ItemsPrice(lines, catalog)
  {
    var pop := Populate(lines, catalog);
    SumPointwise(pop, lines, CartContext.LineTotal, CostOf(catalog));
  }

  /** A line of quantity 0 is where the two disagree: the browser prices it
      as one unit, the order as none. */
  lemma ZeroQuantityDisagrees(p: Product, c: Color)
    requires p.price > 0.0
    ensures var lines := [Line("l", p.id, 0, "M", c)];
      var catalog := map[p.id := p];
      CartContext.CartTotal(Some(Populate(lines, catalog))) == p.price &&
      ItemsPrice(lines, catalog) == 0.0
  {
    var lines := [Line("l", p.id, 0, "M", c)];
    var catalog := map[p.id := p];
    var pop := Populate(lines, catalog);
    assert Sum(pop, CartContext.LineTotal) == CartContext.LineTotal(pop[0]) + Sum(pop[1..], CartContext.LineTotal);
    assert Sum(lines, CostOf(catalog)) == CostOf(catalog)(lines[0]) + Sum(lines[1..], CostOf(catalog));
  }

  /** No two orders share an id. */
  predicate UniqueOrderIds(orders: seq<Order>) {
    forall i, j :: 0 <= i < j < |orders| ==> orders[i].id != orders[j].id
  }

  /** `GET /api/orders/:id`: an order is shown to its owner and to admins;
      anyone else gets 403. */
  function ViewOrder(orders: seq<Order>, id: string, requester: string, role: string): (r: Result<Order>)
    ensures UniqueOrderIds(orders) ==>
      (r.Ok? <==> exists k :: 0 <= k < |orders| && orders[k].id == id &&
                    (orders[k].user == requester || role == "admin"))
    ensures r.Ok? ==>
      r.value in orders && r.value.id == id && (r.value.user == requester || role == "admin")
    ensures (forall k :: 0 <= k < |orders| ==> orders[k].id != id) ==> r == Err(NotFound, "Order not found")
    ensures r.Err? && r.status == Forbidden ==> role != "admin"
  {
    match FindFirst(orders, (o: Order) => o.id == id)
    case None => Err(NotFound, "Order not found")
    case Some(k) =>
      if orders[k].user != requester && role != "admin" then
        Err(Forbidden, "Not authorized to view this order")
      else Ok(orders[k])
  }

  /** All orders, oldest first. */
  class OrderBook {
    var orders: seq<Order>

    constructor()
      ensures orders == []
    {
      orders := [];
    }

    predicate Valid()
      reads this
    {
      UniqueOrderIds(orders)
    }

    /** `POST /api/orders`. `catalog` holds the product documents populate
        can find; `freshId` is the new order's `_id`. */
    method PlaceOrder(user: string, address: Option<Address>, paymentMethod: string,
                      carts: CartStore, catalog: map<string, Product>, freshId: string)
      returns (r: Result<Order>)
      modifies this, carts
      ensures address.None? || paymentMethod == "" ==>
        r == Err(BadRequest, MissingCheckoutFields) && orders == old(orders) && carts.carts == old(carts.carts)
      ensures address.Some? && paymentMethod != "" && old(carts.ItemsOf(user)) == [] ==>
        r == Err(BadRequest, "Cart is empty") && orders == old(orders) && carts.carts == old(carts.carts)
      ensures address.Some? && paymentMethod != "" && old(carts.ItemsOf(user)) != [] &&
              !AllKnown(old(carts.ItemsOf(user)), catalog) ==>
        r.Err? && r.status == ServerError && orders == old(orders) && carts.carts == old(carts.carts)
      ensures address.Some? && paymentMethod != "" && old(carts.ItemsOf(user)) != [] &&
              AllKnown(old(carts.ItemsOf(user)), catalog) ==>
        && r == Ok(BuildOrder(freshId, user, old(carts.ItemsOf(user)), catalog, address.value, paymentMethod))
        && orders == old(orders) + [r.value]
        && carts.carts == old(carts.carts)[user := []]
      ensures old(carts.Valid()) ==> carts.Valid()
      ensures old(Valid()) && (forall i :: 0 <= i < |old(orders)| ==> old(orders)[i].id != freshId) ==> Valid()
    {
      if address.None? || paymentMethod == "" {
        return Err(BadRequest, MissingCheckoutFields);
      }
      if user !in carts.carts || carts.carts[user] == [] {
        return Err(BadRequest, "Cart is empty");
      }
      var lines := carts.carts[user];
      if !AllKnown(lines, catalog) {
        return Err(ServerError, "Cannot read properties of null (reading 'price')");
      }
      var order := BuildOrder(freshId, user, lines, catalog, address.value, paymentMethod);
      orders := orders + [order];
      carts.carts := carts.carts[user := []];
      r := Ok(order);
    }
  }
}
