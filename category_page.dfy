/** The category of frontend/src/pages/CategoryPage.jsx: the pathname
    without its leading character, lowercased, then with its first
    character uppercased; and the request the page makes with it. */
module CategoryPage {
  import opened Wrappers
  import opened Text
  import opened ProductModel
  import ProductRoutes

  /** `location.pathname.substring(1)`. */
  function PathTail(pathname: string): string {
    if |pathname| == 0 then [] else pathname[1..]
  }

  /** `categoryPath`, the lowercased tail. */
  function CategoryPath(pathname: string): (r: string)
    ensures |r| == |PathTail(pathname)|
    ensures forall i :: 0 <= i < |r| ==> r[i] == LowerChar(PathTail(pathname)[i])
  {
    ToLower(PathTail(pathname))
  }

  /** `category`: the first character of `categoryPath` uppercased, the
      rest lowercase. */
  function Category(pathname: string): (r: string)
    ensures |r| == |PathTail(pathname)|
    ensures r != [] ==> r[0] == UpperChar(LowerChar(PathTail(pathname)[0]))
    ensures forall i :: 0 < i < |r| ==> r[i] == LowerChar(PathTail(pathname)[i])
  {
    Capitalize(CategoryPath(pathname))
  }

  /** '/men' names the category 'Men'. */
  lemma MenPath()
    ensures Category("/men") == "Men"
  {
    assert PathTail("/men") == "men";
    assert ToLower("men") == "men";
  }

  /** '/WOMEN' names the category 'Women'. */
  lemma WomenPath()
    ensures Category("/WOMEN") == "Women"
  {
    assert PathTail("/WOMEN") == "WOMEN";
    assert ToLower("WOMEN") == "women";
  }

  /** '/Kids' names the category 'Kids'. */
  lemma KidsPath()
    ensures Category("/Kids") == "Kids"
  {
    assert PathTail("/Kids") == "Kids";
    assert ToLower("Kids") == "kids";
  }

  /** The server capitalises the category again; that changes nothing. */
  lemma ServerCapitalizeIsIdentity(pathname: string)
    ensures Capitalize(Category(pathname)) == Category(pathname)
  {
    CapitalizeIdempotent(CategoryPath(pathname));
  }

  /** Two paths name the same category exactly when their tails agree up
      to case. */
  lemma CategoryIgnoresCase(a: string, b: string)
    ensures Category(a) == Category(b) <==> CategoryPath(a) == CategoryPath(b)
  {
    var x := CategoryPath(a);
    var y := CategoryPath(b);
    if Category(a) == Category(b) {
      assert |x| == |y|;
      forall i | 0 <= i < |x| ensures x[i] == y[i] {
        if i == 0 {
          assert UpperChar(x[0]) == UpperChar(y[0]);
          assert !('A' <= x[0] <= 'Z') && !('A' <= y[0] <= 'Z');
        } else {
          assert Capitalize(x)[i] == x[i] && Capitalize(y)[i] == y[i];
        }
      }
    }
  }

  /** `/products/category/${category}`. */
  function RequestPath(pathname: string): (r: string)
    ensures r == "/products/category/" + Category(pathname)
    ensures |r| == 19 + |PathTail(pathname)|
  {
    "/products/category/" + Category(pathname)
  }

  /** The page lists the active products of the category, as the general
      listing filtered by that name would. */
  lemma PageListsCategory(products: seq<Product>, pathname: string)
    requires |pathname| >= 2
    ensures ProductRoutes.ListByCategory(products, Category(pathname), None, None)
         == ProductRoutes.ListProducts(products, Category(pathname), "", None, None)
  {
    ServerCapitalizeIsIdentity(pathname);
    ProductRoutes.CategoryRouteIsListing(products, Category(pathname), None, None);
  }
}
