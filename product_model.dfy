/** The product document of backend/models/Product.js: its fields, the
    schema's bounds, enums and defaults, and the `discountPercentage`
    virtual. Prices are exact reals. */
module ProductModel {
  import opened Wrappers

  datatype Color = Color(name: string, code: string)

  datatype Review = Review(id: string, user: string, name: string, rating: real, comment: string)

  datatype Product = Product(
    id: string,
    name: string,
    description: string,
    price: real,
    originalPrice: real,
    category: string,
    brand: string,
    images: seq<string>,
    colors: seq<Color>,
    sizes: seq<string>,
    stock: int,
    rating: real,
    numReviews: int,
    reviews: seq<Review>,
    featured: bool,
    isActive: bool)

  /** The values the `category` enum admits. */
  const Categories: set<string> := {"Men", "Women", "Kids"}

  /** The values the `sizes` element enum admits. */
  const Sizes: set<string> := {"S", "M", "L", "XL", "XXL"}

  predicate ReviewValid(r: Review) {
    r.user != "" && r.name != "" && r.comment != "" && 1.0 <= r.rating <= 5.0
  }

  /** What the schema's validators demand of a document before `save`
      accepts it: the required strings are non-empty, the enums hold, and
      the numeric bounds hold. */
  predicate SchemaValid(p: Product) {
    && p.name != "" && p.description != "" && p.brand != ""
    && p.price >= 0.0
    && p.category in Categories
    && (forall i :: 0 <= i < |p.images| ==> p.images[i] != "")
    && (forall i :: 0 <= i < |p.colors| ==> p.colors[i].name != "" && p.colors[i].code != "")
    && (forall i :: 0 <= i < |p.sizes| ==> p.sizes[i] in Sizes)
    && p.stock >= 0
    && 0.0 <= p.rating <= 5.0
    && (forall i :: 0 <= i < |p.reviews| ==> ReviewValid(p.reviews[i]))
  }

  /** A document as `Product.create` builds it: `stock` defaults to 0,
      `featured` to false, and every new product starts active with no
      reviews and rating 0. */
  function NewProduct(
    id: string, name: string, description: string, price: real, originalPrice: real,
    category: string, brand: string, images: seq<string>, colors: seq<Color>,
    sizes: seq<string>, stock: Option<int>, featured: Option<bool>): (p: Product)
    ensures p.stock == stock.GetOr(0) && p.featured == featured.GetOr(false)
    ensures p.rating == 0.0 && p.numReviews == 0 && p.reviews == [] && p.isActive
  {
    Product(id, name, description, price, originalPrice, category, brand, images, colors,
      sizes, stock.GetOr(0), 0.0, 0, [], featured.GetOr(false), true)
  }

  /** A new document with valid inputs passes the schema's validators:
      the defaults themselves lie inside every bound. */
  lemma NewProductValid(
    id: string, name: string, description: string, price: real, originalPrice: real,
    category: string, brand: string, images: seq<string>, colors: seq<Color>,
    sizes: seq<string>, stock: Option<int>, featured: Option<bool>)
    requires name != "" && description != "" && brand != "" && price >= 0.0
    requires category in Categories
    requires forall i :: 0 <= i < |images| ==> images[i] != ""
    requires forall i :: 0 <= i < |colors| ==> colors[i].name != "" && colors[i].code != ""
    requires forall i :: 0 <= i < |sizes| ==> sizes[i] in Sizes
    requires stock.GetOr(0) >= 0
    ensures SchemaValid(NewProduct(id, name, description, price, originalPrice, category,
      brand, images, colors, sizes, stock, featured))
  {
  }

  /** `Math.round`: the nearest integer, halves rounded up. */
  function Round(x: real): (n: int)
    ensures n as real <= x + 0.5 < n as real + 1.0
  {
    (x + 0.5).Floor
  }

  /** The `discountPercentage` virtual: the saving as a rounded percentage
      of the original price when there is a saving, and 0 otherwise. The
      schema's `price >= 0` is what keeps the division defined. */
  function DiscountPercentage(originalPrice: real, price: real): (d: int)
    requires price >= 0.0
    ensures originalPrice <= price ==> d == 0
    ensures originalPrice > price ==>
      d as real <= (originalPrice - price) / originalPrice * 100.0 + 0.5 <  d as real + 1.0
    ensures 0 <= d <= 100
  {
    if originalPrice > price then
      var x := (originalPrice - price) / originalPrice * 100.0;
      assert 0.0 < (originalPrice - price) / originalPrice <= 1.0 by {
        assert originalPrice > 0.0;
        assert originalPrice - price <= originalPrice;
      }
      Round(x)
    else 0
  }
}
