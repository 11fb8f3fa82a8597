/** Reviews of backend/routes/reviewRoutes.js. A product holds at most one
    review per user, and after every add or delete `numReviews` is the
    number of reviews and `rating` their mean (0 when there are none). */
module ReviewRoutes {
  import opened Wrappers
  import opened Seqs
  import opened Text
  import opened ProductModel
  import opened ProductRoutes

  function RatingOf(r: Review): real {
    r.rating
  }

  /** `reviews.reduce((acc, item) => item.rating + acc, 0) / reviews.length`,
      with 0 for no reviews. */
  function Mean(reviews: seq<Review>): real {
    if |reviews| == 0 then 0.0 else Sum(reviews, RatingOf) / |reviews| as real
  }

  /** No user has reviewed the product twice. */
  predicate OnePerUser(reviews: seq<Review>) {
    forall i, j :: 0 <= i < j < |reviews| ==> reviews[i].user != reviews[j].user
  }

  predicate UniqueReviewIds(reviews: seq<Review>) {
    forall i, j :: 0 <= i < j < |reviews| ==> reviews[i].id != reviews[j].id
  }

  predicate ReviewedBy(reviews: seq<Review>, user: string) {
    exists i :: 0 <= i < |reviews| && reviews[i].user == user
  }

  /** The aggregate fields agree with the reviews. */
  predicate Consistent(p: Product) {
    p.numReviews == |p.reviews| && p.rating == Mean(p.reviews)
  }

  /** What the review routes keep true of every product. */
  predicate Sound(p: Product) {
    Consistent(p) && OnePerUser(p.reviews) && UniqueReviewIds(p.reviews)
  }

  /** A quotient of a total lying between n * lo and n * hi. */
  lemma DivBetween(s: real, n: real, lo: real, hi: real)
    requires n > 0.0 && n * lo <= s <= n * hi
    ensures lo <= s / n <= hi
  {
    var q := s / n;
    assert q * n == s;
  }

  /** The mean times the count is the rating total. */
  lemma MeanTimesCount(reviews: seq<Review>)
    ensures Mean(reviews) * |reviews| as real == Sum(reviews, RatingOf)
  {
    if |reviews| > 0 {
      var n := |reviews| as real;
      assert Sum(reviews, RatingOf) / n * n == Sum(reviews, RatingOf);
    }
  }

  /** The mean of ratings that lie in 1..5 lies in 1..5 as well, and any
      such mean lies in the product rating's range 0..5. */
  lemma MeanBounds(reviews: seq<Review>)
    requires forall i :: 0 <= i < |reviews| ==> 1.0 <= reviews[i].rating <= 5.0
    ensures |reviews| > 0 ==> 1.0 <= Mean(reviews) <= 5.0
    ensures 0.0 <= Mean(reviews) <= 5.0
  {
    if |reviews| > 0 {
      SumBounds(reviews, RatingOf, 1.0, 5.0);
      DivBetween(Sum(reviews, RatingOf), |reviews| as real, 1.0, 5.0);
    }
  }

  /** Appending a review moves the rating total by exactly its rating. */
  lemma MeanAfterAppend(reviews: seq<Review>, x: Review)
    ensures Mean(reviews + [x]) * (|reviews| + 1) as real == Mean(reviews) * |reviews| as real + x.rating
  {
    SumAppend(reviews, [x], RatingOf);
    assert Sum([x], RatingOf) == x.rating + Sum([x][1..], RatingOf);
    MeanTimesCount(reviews + [x]);
    MeanTimesCount(reviews);
  }

  /** Removing the k-th review moves the rating total by exactly its rating. */
  lemma MeanAfterRemove(reviews: seq<Review>, k: nat)
    requires k < |reviews|
    ensures var rest := reviews[..k] + reviews[k + 1..];
      Mean(rest) * |rest| as real == Mean(reviews) * |reviews| as real - reviews[k].rating
  {
    SumRemoveAt(reviews, k, RatingOf);
    MeanTimesCount(reviews[..k] + reviews[k + 1..]);
    MeanTimesCount(reviews);
  }

  /** The product after a review is pushed and the aggregates recomputed. */
  function WithReview(p: Product, review: Review): (q: Product)
    ensures q.reviews == p.reviews + [review] && q.numReviews == |p.reviews| + 1
    ensures Consistent(q)
    ensures q.(reviews := p.reviews, numReviews := p.numReviews, rating := p.rating) == p
  {
    var reviews := p.reviews + [review];
    p.(reviews := reviews, numReviews := |reviews|, rating := Sum(reviews, RatingOf) / |reviews| as real)
  }

  /** The product after its k-th review is removed and the aggregates
      recomputed; with no review left the rating is 0. */
  function WithoutReview(p: Product, k: nat): (q: Product)
    requires k < |p.reviews|
    ensures q.reviews == p.reviews[..k] + p.reviews[k + 1..] && q.numReviews == |p.reviews| - 1
    ensures Consistent(q)
    ensures |p.reviews| == 1 ==> q.rating == 0.0
    ensures q.(reviews := p.reviews, numReviews := p.numReviews, rating := p.rating) == p
  {
    var reviews := p.reviews[..k] + p.reviews[k + 1..];
    p.(reviews := reviews, numReviews := |reviews|,
       rating := if |reviews| > 0 then Sum(reviews, RatingOf) / |reviews| as real else 0.0)
  }

  /** A review by a user who has none yet keeps the product sound, and a
      valid review keeps a valid document valid. */
  lemma WithReviewKeepsInvariants(p: Product, review: Review)
    requires !ReviewedBy(p.reviews, review.user)
    ensures Sound(p) && (forall i :: 0 <= i < |p.reviews| ==> p.reviews[i].id != review.id) ==>
      Sound(WithReview(p, review))
    ensures SchemaValid(p) && ReviewValid(review) ==> SchemaValid(WithReview(p, review))
  {
    var q := WithReview(p, review);
    forall i | 0 <= i < |p.reviews| ensures q.reviews[i] == p.reviews[i] {
    }
    if Sound(p) {
      forall i, j | 0 <= i < j < |q.reviews| ensures q.reviews[i].user != q.reviews[j].user {
        if j == |p.reviews| {
          assert q.reviews[j] == review;
        }
      }
    }
    if SchemaValid(p) && ReviewValid(review) {
      assert forall i :: 0 <= i < |q.reviews| ==> ReviewValid(q.reviews[i]) by {
        forall i | 0 <= i < |q.reviews| ensures ReviewValid(q.reviews[i]) {
          if i < |p.reviews| {
            assert q.reviews[i] == p.reviews[i];
          }
        }
      }
      MeanBounds(q.reviews);
    }
  }

  /** Removing a review keeps the product sound and a valid document valid. */
  lemma WithoutReviewKeepsInvariants(p: Product, k: nat)
    requires k < |p.reviews|
    ensures Sound(p) ==> Sound(WithoutReview(p, k))
    ensures SchemaValid(p) ==> SchemaValid(WithoutReview(p, k))
  {
    var q := WithoutReview(p, k);
    assert forall i :: 0 <= i < |q.reviews| ==> q.reviews[i] == p.reviews[if i < k then i else i + 1];
    if SchemaValid(p) {
      MeanBounds(q.reviews);
    }
  }

  /** The first guard: `!rating || !comment`, where a rating of 0 and an
      absent one (None) are both falsy. */
  predicate MissingInput(rating: Option<real>, comment: string) {
    rating.None? || rating.value == 0.0 || comment == ""
  }

  /** `GET /api/products/:id/reviews`: the reviews and both aggregates. */
  datatype ReviewSummary = ReviewSummary(reviews: seq<Review>, rating: real, numReviews: int)

  function GetReviews(products: seq<Product>, id: string): (r: Result<ReviewSummary>)
    ensures r.Err? <==> IndexOfId(products, id).None?
    ensures r.Err? ==> r == Err(NotFound, "Product not found")
    ensures r.Ok? ==> var p := products[IndexOfId(products, id).value];
      r.value == ReviewSummary(p.reviews, p.rating, p.numReviews)
    ensures r.Ok? && Sound(products[IndexOfId(products, id).value]) ==> r.value.numReviews == |r.value.reviews|
  {
    match IndexOfId(products, id)
    case None => Err(NotFound, "Product not found")
    case Some(k) => Ok(ReviewSummary(products[k].reviews, products[k].rating, products[k].numReviews))
  }

  /** Every product in the catalog is sound. */
  predicate AllSound(products: seq<Product>) {
    forall i :: 0 <= i < |products| ==> Sound(products[i])
  }

  /** No review anywhere in the catalog has that `_id`. */
  predicate FreshReviewId(products: seq<Product>, reviewId: string) {
    forall i, j :: 0 <= i < |products| && 0 <= j < |products[i].reviews| ==> products[i].reviews[j].id != reviewId
  }

  /** `POST /api/products/:id/reviews`. `user` and `userName` come from the
      signed-in account; `reviewId` is the new review's `_id`. A trimmed
      comment that is blank fails the schema on `save` (500). */
  method AddReview(c: Catalog, productId: string, user: string, userName: string,
                   rating: Option<real>, comment: string, reviewId: string)
    returns (r: Result<Product>)
    modifies c
    ensures MissingInput(rating, comment) ==>
      r == Err(BadRequest, "Please provide both rating and comment") && c.products == old(c.products)
    ensures !MissingInput(rating, comment) && !(1.0 <= rating.value <= 5.0) ==>
      r == Err(BadRequest, "Rating must be between 1 and 5") && c.products == old(c.products)
    ensures !MissingInput(rating, comment) && 1.0 <= rating.value <= 5.0 && IndexOfId(old(c.products), productId).None? ==>
      r == Err(NotFound, "Product not found") && c.products == old(c.products)
    ensures !MissingInput(rating, comment) && 1.0 <= rating.value <= 5.0 && IndexOfId(old(c.products), productId).Some? ==>
      var k := IndexOfId(old(c.products), productId).value;
      var p := old(c.products)[k];
      var q := WithReview(p, Review(reviewId, user, userName, rating.value, Trim(comment)));
      if ReviewedBy(p.reviews, user) then
        r == Err(BadRequest, "You have already reviewed this product") && c.products == old(c.products)
      else if !SchemaValid(q) then
        r.Err? && r.status == ServerError && c.products == old(c.products)
      else
        r == Ok(q) && c.products == old(c.products)[k := q]
    ensures old(c.Valid()) ==> c.Valid()
    ensures old(AllSound(c.products)) && FreshReviewId(old(c.products), reviewId) ==> AllSound(c.products)
  {
    if MissingInput(rating, comment) {
      return Err(BadRequest, "Please provide both rating and comment");
    }
    if rating.value < 1.0 || rating.value > 5.0 {
      return Err(BadRequest, "Rating must be between 1 and 5");
    }
    var found := IndexOfId(c.products, productId);
    if found.None? {
      return Err(NotFound, "Product not found");
    }
    var k := found.value;
    var p := c.products[k];
    if ReviewedBy(p.reviews, user) {
      return Err(BadRequest, "You have already reviewed this product");
    }
    var review := Review(reviewId, user, userName, rating.value, Trim(comment));
    var q := WithReview(p, review);
    if !SchemaValid(q) {
      return Err(ServerError, "Product validation failed");
    }
    WithReviewKeepsInvariants(p, review);
    c.products := c.products[k := q];
    r := Ok(q);
  }

  /** `DELETE /api/products/:productId/reviews/:reviewId`: `reviews.id`
      finds the first review with that `_id`, and that one is removed. */
  method DeleteReview(c: Catalog, productId: string, reviewId: string) returns (r: Result<Product>)
    modifies c
    ensures IndexOfId(old(c.products), productId).None? ==>
      r == Err(NotFound, "Product not found") && c.products == old(c.products)
    ensures IndexOfId(old(c.products), productId).Some? ==>
      var k := IndexOfId(old(c.products), productId).value;
      var p := old(c.products)[k];
      match FindFirst(p.reviews, (v: Review) => v.id == reviewId)
      case None => r == Err(NotFound, "Review not found") && c.products == old(c.products)
      case Some(j) =>
        var q := WithoutReview(p, j);
        if SchemaValid(q) then r == Ok(q) && c.products == old(c.products)[k := q]
        else r.Err? && r.status == ServerError && c.products == old(c.products)
    ensures old(c.Valid()) ==> c.Valid()
    ensures old(AllSound(c.products)) ==> AllSound(c.products)
  {
    var found := IndexOfId(c.products, productId);
    if found.None? {
      return Err(NotFound, "Product not found");
    }
    var k := found.value;
    var p := c.products[k];
    var at := FindFirst(p.reviews, (v: Review) => v.id == reviewId);
    if at.None? {
      return Err(NotFound, "Review not found");
    }
    var q := WithoutReview(p, at.value);
    if !SchemaValid(q) {
      return Err(ServerError, "Product validation failed");
    }
    WithoutReviewKeepsInvariants(p, at.value);
    c.products := c.products[k := q];
    r := Ok(q);
  }

  /** A second review by the same user is always refused: after one
      successful add, the next add by that user hits the duplicate guard. */
  lemma SecondReviewRefused(p: Product, review: Review)
    ensures ReviewedBy(WithReview(p, review).reviews, review.user)
  {
    var q := WithReview(p, review);
    assert q.reviews[|p.reviews|] == review;
  }
}
