/** The server cart of backend/routes/cartRoutes.js: one list of lines per
    user, where a line names a product by id and carries a quantity, a size
    and a colour. Adding an existing (product, size, colour name) merges into
    that line; an update to a quantity of 0 or less deletes the line. */
module CartRoutes {
  import opened Wrappers
  import opened Seqs
  import opened ProductModel
  import opened Shapes

  /** A cart sub-document; `id` is its own `_id`, `product` the referenced
      product's `_id`. */
  datatype Line = Line(id: string, product: string, quantity: int, size: string, color: Color)

  /** The body of `POST /api/cart` after `parseInt`: a field the client left
      out is "" (strings), 0 (quantity) or None (colour). */
  datatype AddRequest = AddRequest(productId: string, quantity: int, size: string, color: Option<Color>)

  const MissingFields := "Please provide productId, quantity, size, and color"

  /** The guard `!productId || !quantity || !size || !color` fails. */
  predicate Complete(req: AddRequest) {
    req.productId != "" && req.quantity != 0 && req.size != "" && req.color.Some?
  }

  /** The `findIndex` test: same product, same size, same colour name. */
  predicate SameVariant(l: Line, productId: string, size: string, colorName: string) {
    l.product == productId && l.size == size && l.color.name == colorName
  }

  predicate DistinctVariants(a: Line, b: Line) {
    !SameVariant(a, b.product, b.size, b.color.name)
  }

  predicate DistinctIds(a: Line, b: Line) {
    a.id != b.id
  }

  /** No two lines of a cart share (product, size, colour name). */
  predicate UniqueVariants(items: seq<Line>) {
    Pairwise(items, DistinctVariants)
  }

  /** No two lines of a cart share an `_id`. */
  predicate UniqueIds(items: seq<Line>) {
    Pairwise(items, DistinctIds)
  }

  predicate FreshIn(items: seq<Line>, id: string) {
    forall i :: 0 <= i < |items| ==> items[i].id != id
  }

  function VariantIndex(items: seq<Line>, productId: string, size: string, colorName: string): Option<nat> {
    FindFirst(items, (l: Line) => SameVariant(l, productId, size, colorName))
  }

  /** The merge-or-append step of `POST /api/cart`; `freshId` is the `_id`
      the new sub-document receives. */
  function AddLine(items: seq<Line>, productId: string, quantity: int, size: string, color: Color,
                   freshId: string): seq<Line> {
    match VariantIndex(items, productId, size, color.name)
    case Some(k) => items[k := items[k].(quantity := items[k].quantity + quantity)]
    case None => items + [Line(freshId, productId, quantity, size, color)]
  }

  /** `cart.items.id(id)`: the first line with that `_id`. */
  function LineIndex(items: seq<Line>, id: string): Option<nat> {
    FindFirst(items, (l: Line) => l.id == id)
  }

  /** `cart.items.pull(id)`: every line with that `_id` is dropped. */
  function Pull(items: seq<Line>, id: string): seq<Line> {
    Filter(items, (l: Line) => l.id != id)
  }

  /** The effect of `PUT /api/cart/:id` on a cart that holds the line: a
      quantity of 0 or less pulls the line, any other sets its quantity. */
  function UpdateLine(items: seq<Line>, id: string, quantity: int): seq<Line> {
    if quantity <= 0 then Pull(items, id)
    else match LineIndex(items, id)
      case Some(k) => items[k := items[k].(quantity := quantity)]
      case None => items
  }

  /** `cart.populate('items.product')`: each line's product id is replaced
      by the document, or by null when no document has that id. */
  function Populate(items: seq<Line>, catalog: map<string, Product>): (r: seq<CartEntry>)
    ensures |r| == |items|
    ensures forall i :: 0 <= i < |r| ==>
      && r[i].id == items[i].id && r[i].quantity == items[i].quantity
      && r[i].size == items[i].size && r[i].color == Some(items[i].color)
      && r[i].product == (if items[i].product in catalog then Full(catalog[items[i].product]) else NoProduct)
  {
    seq(|items|, i requires 0 <= i < |items| =>
      var l := items[i];
      CartEntry(l.id, if l.product in catalog then Full(catalog[l.product]) else NoProduct,
                l.quantity, l.size, Some(l.color)))
  }

  /** Adding a variant that already has a line adds the quantity to that
      line alone; the number of lines is unchanged. */
  lemma AddMergesExisting(items: seq<Line>, productId: string, quantity: int, size: string,
                          color: Color, freshId: string, k: nat)
    requires UniqueVariants(items)
    requires k < |items| && SameVariant(items[k], productId, size, color.name)
    ensures var r := AddLine(items, productId, quantity, size, color, freshId);
      && |r| == |items|
      && r[k] == items[k].(quantity := items[k].quantity + quantity)
      && forall j :: 0 <= j < |r| && j != k ==> r[j] == items[j]
  {
    var m := VariantIndex(items, productId, size, color.name);
    assert m.Some?;
  }

  /** Adding a variant that has no line appends exactly one line at the end
      carrying the requested quantity, size and colour. */
  lemma AddAppendsNew(items: seq<Line>, productId: string, quantity: int, size: string,
                      color: Color, freshId: string)
    requires forall j :: 0 <= j < |items| ==> !SameVariant(items[j], productId, size, color.name)
    ensures AddLine(items, productId, quantity, size, color, freshId)
      == items + [Line(freshId, productId, quantity, size, color)]
  {
  }

  /** Changing only quantities keeps both uniqueness invariants. */
  lemma SetQuantityKeepsUnique(items: seq<Line>, k: nat, q: int)
    requires k < |items|
    ensures UniqueVariants(items) ==> UniqueVariants(items[k := items[k].(quantity := q)])
    ensures UniqueIds(items) ==> UniqueIds(items[k := items[k].(quantity := q)])
  {
    var r := items[k := items[k].(quantity := q)];
    assert forall j :: 0 <= j < |r| ==>
      r[j].id == items[j].id && r[j].product == items[j].product &&
      r[j].size == items[j].size && r[j].color == items[j].color;
  }

  /** Add keeps the cart free of duplicate variants, and of duplicate line
      ids when the new sub-document's id is fresh. */
  lemma AddKeepsUnique(items: seq<Line>, productId: string, quantity: int, size: string,
                       color: Color, freshId: string)
    ensures UniqueVariants(items) ==>
      UniqueVariants(AddLine(items, productId, quantity, size, color, freshId))
    ensures UniqueIds(items) && FreshIn(items, freshId) ==>
      UniqueIds(AddLine(items, productId, quantity, size, color, freshId))
  {
    match VariantIndex(items, productId, size, color.name)
    case Some(k) =>
      SetQuantityKeepsUnique(items, k, items[k].quantity + quantity);
    case None =>
      var r := items + [Line(freshId, productId, quantity, size, color)];
      assert forall j :: 0 <= j < |items| ==> r[j] == items[j];
  }

  /** Pulling keeps both uniqueness invariants. */
  lemma PullKeepsUnique(items: seq<Line>, id: string)
    ensures UniqueVariants(items) ==> UniqueVariants(Pull(items, id))
    ensures UniqueIds(items) ==> UniqueIds(Pull(items, id))
  {
    if UniqueVariants(items) {
      FilterPairwise(items, (l: Line) => l.id != id, DistinctVariants);
    }
    if UniqueIds(items) {
      FilterPairwise(items, (l: Line) => l.id != id, DistinctIds);
    }
  }

  /** In a cart with unique line ids, pulling an id that is present drops
      exactly that line and keeps the others in order. */
  lemma PullRemovesOnlyThatLine(items: seq<Line>, k: nat)
    requires UniqueIds(items) && k < |items|
    ensures Pull(items, items[k].id) == items[..k] + items[k + 1..]
  {
    var id := items[k].id;
    forall j | 0 <= j < |items| && j != k ensures items[j].id != id {
      if j < k { assert DistinctIds(items[j], items[k]); }
      else { assert DistinctIds(items[k], items[j]); }
    }
    FilterDropsOne(items, (l: Line) => l.id != id, k);
  }

  /** Pulling an id no line carries changes nothing. */
  lemma PullAbsent(items: seq<Line>, id: string)
    requires FreshIn(items, id)
    ensures Pull(items, id) == items
  {
    FilterAll(items, (l: Line) => l.id != id);
  }

  /** Pulling twice is pulling once. */
  lemma PullIdempotent(items: seq<Line>, id: string)
    ensures Pull(Pull(items, id), id) == Pull(items, id)
  {
    FilterIdempotent(items, (l: Line) => l.id != id);
  }

  /** An update to a positive quantity sets that line's quantity and leaves
      every other line as it was. */
  lemma UpdateSetsQuantity(items: seq<Line>, k: nat, quantity: int)
    requires UniqueIds(items) && k < |items| && quantity > 0
    ensures var r := UpdateLine(items, items[k].id, quantity);
      && |r| == |items|
      && r[k] == items[k].(quantity := quantity)
      && forall j :: 0 <= j < |r| && j != k ==> r[j] == items[j]
  {
    var m := LineIndex(items, items[k].id);
    assert m.Some?;
  }

  /** An update to a quantity of 0 or less removes exactly that line. */
  lemma UpdateRemovesLine(items: seq<Line>, k: nat, quantity: int)
    requires UniqueIds(items) && k < |items| && quantity <= 0
    ensures UpdateLine(items, items[k].id, quantity) == items[..k] + items[k + 1..]
  {
    PullRemovesOnlyThatLine(items, k);
  }

  lemma UpdateKeepsUnique(items: seq<Line>, id: string, quantity: int)
    ensures UniqueVariants(items) ==> UniqueVariants(UpdateLine(items, id, quantity))
    ensures UniqueIds(items) ==> UniqueIds(UpdateLine(items, id, quantity))
  {
    if quantity <= 0 {
      PullKeepsUnique(items, id);
    } else if LineIndex(items, id).Some? {
      SetQuantityKeepsUnique(items, LineIndex(items, id).value, quantity);
    }
  }

  /** Two adds of the same variant leave one line with the summed quantity;
      the same product in another size gets a second line. */
  lemma MergeScenario(c: Color)
    ensures var once := AddLine([], "p1", 2, "M", c, "a");
      var twice := AddLine(once, "p1", 3, "M", c, "b");
      twice == [Line("a", "p1", 5, "M", c)] &&
      |AddLine(twice, "p1", 1, "S", c, "b")| == 2
  {
    var once := AddLine([], "p1", 2, "M", c, "a");
    assert once == [Line("a", "p1", 2, "M", c)];
    assert VariantIndex(once, "p1", "M", c.name) == Some(0);
    var twice := AddLine(once, "p1", 3, "M", c, "b");
    assert VariantIndex(twice, "p1", "S", c.name) == None;
  }

  /** All users' carts, keyed by user id. */
  class CartStore {
    var carts: map<string, seq<Line>>

    constructor()
      ensures carts == map[]
    {
      carts := map[];
    }

    /** The user's lines, or none when the user has no cart document. */
    function ItemsOf(user: string): seq<Line>
      reads this
    {
      if user in carts then carts[user] else []
    }

    /** Every cart is free of duplicate variants and duplicate line ids. */
    predicate Valid()
      reads this
    {
      forall u :: u in carts ==> UniqueVariants(carts[u]) && UniqueIds(carts[u])
    }

    /** `GET /api/cart`: a missing cart is created empty; either way the
        user's lines are returned. */
    method Get(user: string) returns (items: seq<Line>)
      modifies this
      ensures items == old(ItemsOf(user))
      ensures user !in old(carts) ==> items == []
      ensures carts == old(carts)[user := items]
      ensures old(Valid()) ==> Valid()
    {
      if user !in carts {
        carts := carts[user := []];
      }
      items := carts[user];
    }

    /** `POST /api/cart`. `catalog` holds the products `findById` can find,
        active or not; `freshId` is the `_id` a new line would receive. */
    method Add(user: string, req: AddRequest, catalog: map<string, Product>, freshId: string)
      returns (r: Result<seq<Line>>)
      modifies this
      ensures !Complete(req) ==> r == Err(BadRequest, MissingFields) && carts == old(carts)
      ensures Complete(req) && req.productId !in catalog ==>
        r == Err(NotFound, "Product not found") && carts == old(carts)
      ensures Complete(req) && req.productId in catalog ==>
        && r == Ok(AddLine(old(ItemsOf(user)), req.productId, req.quantity, req.size,
                           req.color.value, freshId))
        && carts == old(carts)[user := r.value]
      ensures old(Valid()) && FreshIn(old(ItemsOf(user)), freshId) ==> Valid()
    {
      if !Complete(req) {
        return Err(BadRequest, MissingFields);
      }
      if req.productId !in catalog {
        return Err(NotFound, "Product not found");
      }
      if user !in carts {
        carts := carts[user := []];
      }
      var before := carts[user];
      assert before == old(ItemsOf(user));
      var items := before;
      var color := req.color.value;
      var existing := VariantIndex(items, req.productId, req.size, color.name);
      if existing.Some? {
        var k := existing.value;
        items := items[k := items[k].(quantity := items[k].quantity + req.quantity)];
      } else {
        items := items + [Line(freshId, req.productId, req.quantity, req.size, color)];
      }
      assert items == AddLine(before, req.productId, req.quantity, req.size, color, freshId);
      AddKeepsUnique(before, req.productId, req.quantity, req.size, color, freshId);
      carts := carts[user := items];
      r := Ok(items);
    }

    /** `PUT /api/cart/:id`. */
    method Update(user: string, itemId: string, quantity: int) returns (r: Result<seq<Line>>)
      modifies this
      ensures user !in old(carts) ==> r == Err(NotFound, "Cart not found") && carts == old(carts)
      ensures user in old(carts) && LineIndex(old(carts[user]), itemId).None? ==>
        r == Err(NotFound, "Cart item not found") && carts == old(carts)
      ensures user in old(carts) && LineIndex(old(carts[user]), itemId).Some? ==>
        && r == Ok(UpdateLine(old(carts[user]), itemId, quantity))
        && carts == old(carts)[user := r.value]
      ensures old(Valid()) ==> Valid()
    {
      if user !in carts {
        return Err(NotFound, "Cart not found");
      }
      var items := carts[user];
      var found := LineIndex(items, itemId);
      if found.None? {
        return Err(NotFound, "Cart item not found");
      }
      UpdateKeepsUnique(items, itemId, quantity);
      if quantity <= 0 {
        items := Pull(items, itemId);
      } else {
        var k := found.value;
        items := items[k := items[k].(quantity := quantity)];
      }
      carts := carts[user := items];
      r := Ok(items);
    }

    /** `DELETE /api/cart/:id`: an id that is not in the cart is no error. */
    method Remove(user: string, itemId: string) returns (r: Result<seq<Line>>)
      modifies this
      ensures user !in old(carts) ==> r == Err(NotFound, "Cart not found") && carts == old(carts)
      ensures user in old(carts) ==>
        r == Ok(Pull(old(carts[user]), itemId)) && carts == old(carts)[user := r.value]
      ensures old(Valid()) ==> Valid()
    {
      if user !in carts {
        return Err(NotFound, "Cart not found");
      }
      PullKeepsUnique(carts[user], itemId);
      var items := Pull(carts[user], itemId);
      carts := carts[user := items];
      r := Ok(items);
    }

    /** `DELETE /api/cart`: the cart document stays, with no lines. */
    method Clear(user: string) returns (r: Result<seq<Line>>)
      modifies this
      ensures user !in old(carts) ==> r == Err(NotFound, "Cart not found") && carts == old(carts)
      ensures user in old(carts) ==> r == Ok([]) && carts == old(carts)[user := []]
      ensures old(Valid()) ==> Valid()
    {
      if user !in carts {
        return Err(NotFound, "Cart not found");
      }
      carts := carts[user := []];
      r := Ok([]);
    }
  }
}
