/** The admin side of backend/routes/adminRoutes.js: the order-status
    update, which accepts any listed status whatever the current one, and
    the dashboard statistics. */
module AdminRoutes {
  import opened Wrappers
  import opened Seqs
  import opened ProductModel
  import opened OrderRoutes

  const ValidStatuses: seq<string> := ["Pending", "Processing", "Shipped", "Delivered", "Cancelled"]

  /** A user account as far as the statistics see it. */
  datatype User = User(id: string, role: string)

  /** The statistics `GET /api/admin/stats` reports; `recentOrders` is
      left out. */
  datatype Stats = Stats(totalUsers: nat, totalProducts: nat, totalOrders: nat, totalRevenue: real)

  function TotalPriceOf(o: Order): real {
    o.totalPrice
  }

  /** `$sum` of `totalPrice` over all orders; `|| 0` when there are none. */
  function TotalRevenue(orders: seq<Order>): real {
    Sum(orders, TotalPriceOf)
  }

  /** `countDocuments({ role: 'user' })` counts these. */
  predicate IsCustomer(u: User) {
    u.role == "user"
  }

  /** `countDocuments({ isActive: true })` counts these. */
  predicate IsListed(p: Product) {
    p.isActive
  }

  function ComputeStats(users: seq<User>, products: seq<Product>, orders: seq<Order>): (s: Stats)
    ensures s.totalUsers <= |users| && s.totalProducts <= |products| && s.totalOrders == |orders|
    ensures s.totalUsers == 0 <==> forall i :: 0 <= i < |users| ==> users[i].role != "user"
    ensures s.totalProducts == 0 <==> forall i :: 0 <= i < |products| ==> !products[i].isActive
    ensures orders == [] ==> s.totalRevenue == 0.0
  {
    Stats(Count(users, IsCustomer),
          Count(products, IsListed),
          |orders|,
          TotalRevenue(orders))
  }

  /** The counts are exact: with no accounts and no products both are 0, and
      one more account or product raises its count by one exactly when it is
      a customer or an active product. */
  lemma StatsCountExactly(users: seq<User>, products: seq<Product>, orders: seq<Order>, u: User, p: Product)
    ensures ComputeStats([], [], orders).totalUsers == 0 && ComputeStats([], [], orders).totalProducts == 0
    ensures ComputeStats(users + [u], products, orders).totalUsers
      == ComputeStats(users, products, orders).totalUsers + (if u.role == "user" then 1 else 0)
    ensures ComputeStats(users, products + [p], orders).totalProducts
      == ComputeStats(users, products, orders).totalProducts + (if p.isActive then 1 else 0)
  {
    CountSnoc(users, u, IsCustomer);
    CountSnoc(products, p, IsListed);
  }

  /** Placing an order raises the revenue by exactly its total. */
  lemma RevenueGrowsByOrderTotal(orders: seq<Order>, o: Order)
    ensures TotalRevenue(orders + [o]) == TotalRevenue(orders) + o.totalPrice
  {
    SumAppend(orders, [o], TotalPriceOf);
    assert Sum([o], TotalPriceOf) == o.totalPrice + Sum([o][1..], TotalPriceOf);
  }

  /** When every order total is non-negative, the revenue is too, and it is
      at least any single order's total. */
  lemma {:induction false} RevenueCoversEachOrder(orders: seq<Order>, k: nat)
    requires k < |orders|
    requires forall i :: 0 <= i < |orders| ==> orders[i].totalPrice >= 0.0
    ensures TotalRevenue(orders) >= orders[k].totalPrice >= 0.0
  {
    if k == 0 {
      SumNonNegative(orders[1..], TotalPriceOf);
    } else {
      RevenueCoversEachOrder(orders[1..], k - 1);
      assert orders[1..][k - 1] == orders[k];
    }
  }

  /** The effect of a valid status on an order: the status is stored, and
      'Delivered' also marks the order delivered at `now`. */
  function WithStatus(o: Order, status: string, now: int): (r: Order)
    ensures r.status == status
    ensures status == "Delivered" ==> r.isDelivered && r.deliveredAt == Some(now)
    ensures status != "Delivered" ==> r.isDelivered == o.isDelivered && r.deliveredAt == o.deliveredAt
    ensures r.(status := o.status, isDelivered := o.isDelivered, deliveredAt := o.deliveredAt) == o
  {
    var r := o.(status := status);
    if status == "Delivered" then r.(isDelivered := true, deliveredAt := Some(now)) else r
  }

  /** `PUT /api/admin/orders/:id/status`. `now` is `Date.now()`. */
  method UpdateOrderStatus(book: OrderBook, id: string, status: string, now: int)
    returns (r: Result<Order>)
    modifies book
    ensures status !in ValidStatuses ==> r == Err(BadRequest, "Invalid status") && book.orders == old(book.orders)
    ensures status in ValidStatuses && (forall i :: 0 <= i < |old(book.orders)| ==> old(book.orders)[i].id != id) ==>
      r == Err(NotFound, "Order not found") && book.orders == old(book.orders)
    ensures r.Ok? ==> status in ValidStatuses && exists k ::
      0 <= k < |old(book.orders)| && old(book.orders)[k].id == id &&
      r.value == WithStatus(old(book.orders)[k], status, now) &&
      book.orders == old(book.orders)[k := r.value]
    ensures status in ValidStatuses && (exists k :: 0 <= k < |old(book.orders)| && old(book.orders)[k].id == id) ==> r.Ok?
    ensures old(book.Valid()) ==> book.Valid()
  {
    if status !in ValidStatuses {
      return Err(BadRequest, "Invalid status");
    }
    var found := FindFirst(book.orders, (o: Order) => o.id == id);
    if found.None? {
      return Err(NotFound, "Order not found");
    }
    var k := found.value;
    var order := book.orders[k];
    order := order.(status := status);
    if status == "Delivered" {
      order := order.(isDelivered := true, deliveredAt := Some(now));
    }
    book.orders := book.orders[k := order];
    r := Ok(order);
  }

  /** No transition is forbidden: after any listed status, any other listed
      status is stored, even after 'Delivered' or 'Cancelled'; and an order
      once delivered keeps `isDelivered` whatever status follows. */
  lemma AnyTransitionAllowed(o: Order, first: string, second: string, t1: int, t2: int)
    requires first in ValidStatuses && second in ValidStatuses
    ensures WithStatus(WithStatus(o, first, t1), second, t2).status == second
    ensures first == "Delivered" ==> WithStatus(WithStatus(o, first, t1), second, t2).isDelivered
  {
  }
}
