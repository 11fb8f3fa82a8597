/** The catalog of backend/routes/productRoutes.js. Products are kept
    newest first, the order both listing routes sort by (`createdAt: -1`).
    Listing, lookup and the field rules of an update are pure functions;
    the `Catalog` class holds the collection that create, update and the
    soft delete change. */
module ProductRoutes {
  import opened Wrappers
  import opened Seqs
  import opened Text
  import opened ProductModel

  /** No two products share an `_id`. */
  predicate UniqueIds(products: seq<Product>) {
    forall i, j :: 0 <= i < j < |products| ==> products[i].id != products[j].id
  }

  // ------------------------------------------------------------ listing

  /** The query of `GET /api/products`: active, in the category when one
      is given, and featured when `featured` is the string 'true'. */
  predicate Listed(p: Product, category: string, featured: string) {
    p.isActive && (category == "" || p.category == category) && (featured != "true" || p.featured)
  }

  /** The documents the query selects, in catalogue order: only listed
      ones, and every listed one. */
  function Matching(products: seq<Product>, category: string, featured: string): (r: seq<Product>)
    ensures forall i :: 0 <= i < |r| ==> Listed(r[i], category, featured) && r[i] in products
    ensures forall i :: 0 <= i < |products| && Listed(products[i], category, featured) ==> products[i] in r
  {
    Filter(products, (p: Product) => Listed(p, category, featured))
  }

  /** The response body of both listing routes. */
  datatype Listing = Listing(count: nat, total: nat, products: seq<Product>)

  function Abs(n: int): nat {
    if n < 0 then -n else n
  }

  function Min(a: nat, b: nat): nat {
    if a <= b then a else b
  }

  /** `.limit(limit).skip(skip)` on the sorted matches: the database skips
      first; a limit of 0 means no limit and a negative limit -n means n. */
  function Window(s: seq<Product>, skip: nat, limit: int): (r: seq<Product>)
    ensures |r| == (if skip >= |s| then 0 else if limit == 0 then |s| - skip else Min(Abs(limit), |s| - skip))
    ensures forall i :: 0 <= i < |r| ==> skip + i < |s| && r[i] == s[skip + i]
  {
    if skip >= |s| then []
    else if limit == 0 || Abs(limit) >= |s| - skip then s[skip..]
    else s[skip..skip + Abs(limit)]
  }

  /** What the database answers to a negative skip. */
  const SkipError := "BSON field 'skip' value must be >= 0"

  /** The pagination both listing routes share: `limit` defaults to 100,
      `page` to 1, and `skip = (page - 1) * limit`. A negative skip is an
      error, so page 0 fails whenever the limit is positive. */
  function Paginate(matches: seq<Product>, limit: Option<int>, page: Option<int>): (r: Result<Listing>)
    ensures var l := limit.GetOr(100); var skip := (page.GetOr(1) - 1) * l;
      && (r.Err? <==> skip < 0)
      && (r.Err? ==> r == Err(ServerError, SkipError))
      && (r.Ok? ==>
            && r.value.total == |matches| && r.value.count == |r.value.products|
            && (l != 0 ==> r.value.count <= Abs(l))
            && (l != 0 ==> r.value.count == (if skip >= |matches| then 0 else Min(Abs(l), |matches| - skip)))
            && (l == 0 ==> r.value.products == matches[Min(skip, |matches|)..])
            && (forall i :: 0 <= i < r.value.count ==>
                  skip + i < |matches| && r.value.products[i] == matches[skip + i]))
  {
    var l := limit.GetOr(100);
    var skip := (page.GetOr(1) - 1) * l;
    if skip < 0 then Err(ServerError, SkipError)
    else
      var w := Window(matches, skip, l);
      Ok(Listing(|w|, |matches|, w))
  }

  /** `GET /api/products`. */
  function ListProducts(products: seq<Product>, category: string, featured: string,
                        limit: Option<int>, page: Option<int>): (r: Result<Listing>)
    ensures r.Ok? ==> forall i :: 0 <= i < |r.value.products| ==>
      Listed(r.value.products[i], category, featured) && r.value.products[i] in products
    ensures r.Ok? ==> r.value.total == |Matching(products, category, featured)|
  {
    var m := Matching(products, category, featured);
    var r := Paginate(m, limit, page);
    assert r.Ok? ==> forall i :: 0 <= i < |r.value.products| ==> r.value.products[i] in m;
    r
  }

  /** Entry `j` of page `q + 1` is match `q * l + j`. */
  lemma PageEntry(m: seq<Product>, l: int, q: nat, j: nat)
    requires l > 0 && j < l && q * l + j < |m|
    ensures var r := Paginate(m, Some(l), Some(q + 1));
      r.Ok? && j < r.value.count && r.value.products[j] == m[q * l + j]
  {
    var skip := (q + 1 - 1) * l;
    assert skip == q * l;
    var w := Window(m, skip, l);
    assert |w| == Min(l, |m| - skip);
  }

  lemma DivMod(k: nat, l: int)
    requires l > 0
    ensures 0 <= k / l && 0 <= k % l < l && (k / l) * l + k % l == k
  {
  }

  /** Every match is listed on exactly the page its position says: with a
      positive limit `l`, the k-th match is entry `k % l` of page `k / l + 1`. */
  lemma EveryMatchOnItsPage(products: seq<Product>, category: string, featured: string, l: int, k: nat)
    requires l > 0 && k < |Matching(products, category, featured)|
    ensures var r := ListProducts(products, category, featured, Some(l), Some(k / l + 1));
      r.Ok? && k % l < r.value.count && r.value.products[k % l] == Matching(products, category, featured)[k]
  {
    var m := Matching(products, category, featured);
    DivMod(k, l);
    PageEntry(m, l, k / l, k % l);
  }

  /** A property every match has, every listed product has. */
  lemma PageKeeps(matches: seq<Product>, limit: Option<int>, page: Option<int>, P: Product -> bool)
    requires forall j :: 0 <= j < |matches| ==> P(matches[j])
    ensures var r := Paginate(matches, limit, page);
      r.Ok? ==> forall i :: 0 <= i < |r.value.products| ==> P(r.value.products[i])
  {
  }

  /** `category.charAt(0).toUpperCase() + category.slice(1)` and active. */
  predicate InCategory(p: Product, category: string) {
    p.isActive && p.category == Capitalize(category)
  }

  /** `GET /api/products/category/:category`. */
  function ListByCategory(products: seq<Product>, category: string,
                          limit: Option<int>, page: Option<int>): (r: Result<Listing>)
    ensures r.Ok? ==> forall i :: 0 <= i < |r.value.products| ==>
      r.value.products[i].isActive && r.value.products[i].category == Capitalize(category)
  {
    var m := Filter(products, (p: Product) => InCategory(p, category));
    PageKeeps(m, limit, page, (p: Product) => InCategory(p, category));
    Paginate(m, limit, page)
  }

  /** The category route is the general listing with the capitalised
      category and no featured filter; capitalising an already capitalised
      name changes nothing, so '/category/men' and '/category/Men' agree. */
  lemma CategoryRouteIsListing(products: seq<Product>, category: string, limit: Option<int>, page: Option<int>)
    requires category != ""
    ensures ListByCategory(products, category, limit, page)
         == ListProducts(products, Capitalize(category), "", limit, page)
    ensures ListByCategory(products, Capitalize(category), limit, page)
         == ListByCategory(products, category, limit, page)
  {
    FilterCongruent(products, (p: Product) => InCategory(p, category),
                    (p: Product) => Listed(p, Capitalize(category), ""));
    CapitalizeIdempotent(category);
    FilterCongruent(products, (p: Product) => InCategory(p, Capitalize(category)),
                    (p: Product) => InCategory(p, category));
  }

  // ------------------------------------------------------------- lookup

  /** `findById`: the product with that id, active or not. */
  function FindById(products: seq<Product>, id: string): (r: Result<Product>)
    ensures r.Ok? <==> exists i :: 0 <= i < |products| && products[i].id == id
    ensures r.Ok? ==> r.value.id == id && r.value in products
    ensures r.Err? ==> r == Err(NotFound, "Product not found")
  {
    match FindFirst(products, (p: Product) => p.id == id)
    case None => Err(NotFound, "Product not found")
    case Some(k) => Ok(products[k])
  }

  function IndexOfId(products: seq<Product>, id: string): (r: Option<nat>)
    ensures r.Some? ==> r.value < |products| && products[r.value].id == id
    ensures r.None? ==> forall i :: 0 <= i < |products| ==> products[i].id != id
  {
    FindFirst(products, (p: Product) => p.id == id)
  }

  // ------------------------------------------------------- soft delete

  /** `product.isActive = false` on the product with that id. */
  function Deactivated(products: seq<Product>, id: string): (r: seq<Product>)
    ensures |r| == |products|
    ensures forall i :: 0 <= i < |r| ==> r[i].id == products[i].id
    ensures forall i :: 0 <= i < |r| && products[i].id != id ==> r[i] == products[i]
    ensures forall i :: 0 <= i < |r| && products[i].id == id ==>
      r[i] == products[i].(isActive := false)
  {
    seq(|products|, i requires 0 <= i < |products| =>
      if products[i].id == id then products[i].(isActive := false) else products[i])
  }

  /** After a soft delete no listing shows the product, while a lookup by
      id still finds it, now inactive. */
  lemma SoftDeletedNeverListed(products: seq<Product>, id: string, category: string, featured: string,
                               limit: Option<int>, page: Option<int>)
    ensures var r := ListProducts(Deactivated(products, id), category, featured, limit, page);
      r.Ok? ==> forall i :: 0 <= i < |r.value.products| ==> r.value.products[i].id != id
    ensures (exists i :: 0 <= i < |products| && products[i].id == id) ==>
      var f := FindById(Deactivated(products, id), id);
      f.Ok? && !f.value.isActive
  {
    var d := Deactivated(products, id);
    var r := ListProducts(d, category, featured, limit, page);
    if r.Ok? {
      forall i | 0 <= i < |r.value.products| ensures r.value.products[i].id != id {
        var x := r.value.products[i];
        assert x in d && x.isActive;
        var j :| 0 <= j < |d| && d[j] == x;
      }
    }
    if exists i :: 0 <= i < |products| && products[i].id == id {
      var i :| 0 <= i < |products| && products[i].id == id;
      assert d[i].id == id;
      var f := FindById(d, id);
      var j :| 0 <= j < |d| && d[j] == f.value;
    }
  }

  // ------------------------------------------------------ field updates

  /** How `featured` arrives: absent, as a form string, or as a JSON
      boolean. */
  datatype Featured = Unset | Text(s: string) | Flag(b: bool) {
    /** `featured === 'true' || featured === true`. */
    predicate IsTrue() {
      this == Text("true") || this == Flag(true)
    }
  }

  /** The fields of a `PUT /api/products/:id` body. A text field is ""
      when absent or empty (both falsy); every other optional field is
      None when absent. `price` and the rest arrive as non-empty form
      strings, already parsed. */
  datatype UpdateRequest = UpdateRequest(
    name: string, description: string, price: Option<real>, originalPrice: Option<real>,
    category: string, brand: string, colors: Option<seq<Color>>, sizes: Option<seq<string>>,
    stock: Option<int>, featured: Featured, existingImages: Option<seq<string>>)

  /** The image rule: new files are appended to the kept images when both
      are sent, replace the images when only files are sent; kept images
      alone replace them; with neither the images stay. */
  function NewImages(current: seq<string>, existing: Option<seq<string>>, uploaded: seq<string>): (r: seq<string>)
    ensures |uploaded| > 0 && existing.Some? ==> r == existing.value + uploaded
    ensures |uploaded| > 0 && existing.None? ==> r == uploaded
    ensures |uploaded| == 0 && existing.Some? ==> r == existing.value
    ensures |uploaded| == 0 && existing.None? ==> r == current
  {
    if |uploaded| > 0 then existing.GetOr([]) + uploaded
    else existing.GetOr(current)
  }

  /** `if (field) product.field = field` for a text field. */
  function Given(field: string, current: string): string {
    if field != "" then field else current
  }

  /** The document after the update's assignments, before `save`. The
      schema trims `name` when it is set. */
  function Apply(p: Product, req: UpdateRequest, uploaded: seq<string>): Product {
    Product(
      p.id,
      if req.name != "" then Trim(req.name) else p.name,
      Given(req.description, p.description),
      req.price.GetOr(p.price),
      req.originalPrice.GetOr(p.originalPrice),
      Given(req.category, p.category),
      Given(req.brand, p.brand),
      NewImages(p.images, req.existingImages, uploaded),
      req.colors.GetOr(p.colors),
      req.sizes.GetOr(p.sizes),
      req.stock.GetOr(p.stock),
      p.rating, p.numReviews, p.reviews,
      if req.featured.Unset? then p.featured else req.featured.IsTrue(),
      p.isActive)
  }

  /** An update changes only the fields it was given: identity, reviews,
      rating and the active flag are never touched, and an absent field
      keeps its value. */
  lemma ApplyChangesOnlyGiven(p: Product, req: UpdateRequest, uploaded: seq<string>)
    ensures var r := Apply(p, req, uploaded);
      && r.id == p.id && r.reviews == p.reviews && r.rating == p.rating
      && r.numReviews == p.numReviews && r.isActive == p.isActive
      && (req.name == "" ==> r.name == p.name)
      && (req.description == "" ==> r.description == p.description)
      && (req.price.None? ==> r.price == p.price)
      && (req.originalPrice.None? ==> r.originalPrice == p.originalPrice)
      && (req.category == "" ==> r.category == p.category)
      && (req.brand == "" ==> r.brand == p.brand)
      && (req.colors.None? ==> r.colors == p.colors)
      && (req.sizes.None? ==> r.sizes == p.sizes)
      && (req.stock.None? ==> r.stock == p.stock)
      && (req.featured.Unset? ==> r.featured == p.featured)
      && (!req.featured.Unset? ==> (r.featured <==> req.featured.IsTrue()))
      && (|uploaded| == 0 && req.existingImages.None? ==> r.images == p.images)
  {
  }

  /** Sending the same update twice has the effect of sending it once. */
  lemma ApplyIdempotent(p: Product, req: UpdateRequest, uploaded: seq<string>)
    ensures Apply(Apply(p, req, uploaded), req, uploaded) == Apply(p, req, uploaded)
  {
    var a := Apply(p, req, uploaded);
    var b := Apply(a, req, uploaded);
    assert b.name == a.name by {
      TrimIdempotent(req.name);
    }
    assert b.images == a.images;
  }

  /** The fields of a `POST /api/products` body. A numeric field is None
      when it does not parse as a number; `colors` and `sizes` are [] when
      absent. */
  datatype CreateRequest = CreateRequest(
    name: string, description: string, price: Option<real>, originalPrice: Option<real>,
    category: string, brand: string, colors: seq<Color>, sizes: seq<string>,
    stock: Option<int>, featured: Featured)

  /** The requests the schema accepts on create: every number parses, the
      trimmed name, the description and the brand are non-empty, the price
      and the stock are not negative, the category and every size are in
      their enumerations, and every image and colour is filled in. */
  predicate CreateAccepted(req: CreateRequest, uploaded: seq<string>) {
    && req.price.Some? && req.originalPrice.Some? && req.stock.Some?
    && Trim(req.name) != "" && req.description != "" && req.brand != ""
    && req.price.value >= 0.0 && req.stock.value >= 0
    && req.category in Categories
    && (forall i :: 0 <= i < |uploaded| ==> uploaded[i] != "")
    && (forall i :: 0 <= i < |req.colors| ==> req.colors[i].name != "" && req.colors[i].code != "")
    && (forall i :: 0 <= i < |req.sizes| ==> req.sizes[i] in Sizes)
  }

  /** What `Product.create` stores, or the validation failure (500). A
      number that does not parse fails the cast; `stock` is always sent
      through `parseInt`, so the schema's default of 0 never applies. */
  function Created(id: string, req: CreateRequest, uploaded: seq<string>): (r: Result<Product>)
    ensures r.Ok? <==> CreateAccepted(req, uploaded)
    ensures r.Ok? ==> SchemaValid(r.value) && r.value.id == id && r.value.isActive
    ensures r.Ok? ==> r.value.reviews == [] && r.value.rating == 0.0 && r.value.numReviews == 0
    ensures r.Ok? ==> r.value.images == uploaded && r.value.name == Trim(req.name)
    ensures r.Ok? ==> && r.value.description == req.description && r.value.price == req.price.value
                      && r.value.originalPrice == req.originalPrice.value
                      && r.value.category == req.category && r.value.brand == req.brand
                      && r.value.colors == req.colors && r.value.sizes == req.sizes
                      && r.value.stock == req.stock.value
    ensures r.Ok? ==> (r.value.featured <==> req.featured.IsTrue())
    ensures req.price.None? || req.originalPrice.None? || req.stock.None? ==> r.Err? && r.status == ServerError
    ensures r.Err? ==> r == Err(ServerError, "Product validation failed")
  {
    if req.price.None? || req.originalPrice.None? || req.stock.None? then
      Err(ServerError, "Product validation failed")
    else
      var p := NewProduct(id, Trim(req.name), req.description, req.price.value, req.originalPrice.value,
                          req.category, req.brand, uploaded, req.colors, req.sizes, req.stock,
                          Some(req.featured.IsTrue()));
      if SchemaValid(p) then Ok(p) else Err(ServerError, "Product validation failed")
  }

  // ------------------------------------------------------------ catalog

  /** The product collection, newest first. */
  class Catalog {
    var products: seq<Product>

    constructor()
      ensures products == []
    {
      products := [];
    }

    /** Ids are unique and every stored document passed the schema. */
    predicate Valid()
      reads this
    {
      UniqueIds(products) && forall i :: 0 <= i < |products| ==> SchemaValid(products[i])
    }

    /** `POST /api/products`: the new product goes first. */
    method Create(id: string, req: CreateRequest, uploaded: seq<string>) returns (r: Result<Product>)
      modifies this
      ensures r == Created(id, req, uploaded)
      ensures r.Ok? ==> products == [r.value] + old(products)
      ensures r.Err? ==> products == old(products)
      ensures old(Valid()) && (forall i :: 0 <= i < |old(products)| ==> old(products)[i].id != id) ==> Valid()
    {
      r := Created(id, req, uploaded);
      if r.Ok? {
        products := [r.value] + products;
      }
    }

    /** `PUT /api/products/:id`: 404 for an unknown id; a document the
        schema rejects is not saved. */
    method Update(id: string, req: UpdateRequest, uploaded: seq<string>) returns (r: Result<Product>)
      modifies this
      ensures IndexOfId(old(products), id).None? ==> r == Err(NotFound, "Product not found") && products == old(products)
      ensures IndexOfId(old(products), id).Some? ==>
        var k := IndexOfId(old(products), id).value;
        var q := Apply(old(products)[k], req, uploaded);
        if SchemaValid(q) then r == Ok(q) && products == old(products)[k := q]
        else r.Err? && r.status == ServerError && products == old(products)
      ensures old(Valid()) ==> Valid()
    {
      var found := IndexOfId(products, id);
      if found.None? {
        return Err(NotFound, "Product not found");
      }
      var k := found.value;
      var q := Apply(products[k], req, uploaded);
      if !SchemaValid(q) {
        return Err(ServerError, "Product validation failed");
      }
      products := products[k := q];
      r := Ok(q);
    }

    /** `DELETE /api/products/:id`: a soft delete. */
    method Delete(id: string) returns (r: Result<string>)
      modifies this
      ensures IndexOfId(old(products), id).None? ==> r == Err(NotFound, "Product not found") && products == old(products)
      ensures IndexOfId(old(products), id).Some? ==>
        r == Ok("Product deleted successfully") && products == Deactivated(old(products), id)
      ensures old(Valid()) ==> Valid()
    {
      var found := IndexOfId(products, id);
      if found.None? {
        return Err(NotFound, "Product not found");
      }
      products := Deactivated(products, id);
      r := Ok("Product deleted successfully");
    }
  }
}
