/** The server wishlist of backend/routes/wishlistRoutes.js: per user, the
    ids of the wished products in the order they were added. A product is
    listed at most once. */
module WishlistRoutes {
  import opened Wrappers
  import opened Seqs
  import opened ProductModel

  /** `items.filter(item => item.product.toString() !== id)`. */
  function Without(items: seq<string>, productId: string): (r: seq<string>)
    ensures productId !in r
    ensures forall i :: 0 <= i < |items| && items[i] != productId ==> items[i] in r
  {
    Filter(items, (x: string) => x != productId)
  }

  /** Removing an id that is not listed leaves the list as it was. */
  lemma WithoutAbsent(items: seq<string>, productId: string)
    requires productId !in items
    ensures Without(items, productId) == items
  {
    FilterAll(items, (x: string) => x != productId);
  }

  /** Removing twice is removing once. */
  lemma WithoutIdempotent(items: seq<string>, productId: string)
    ensures Without(Without(items, productId), productId) == Without(items, productId)
  {
    FilterIdempotent(items, (x: string) => x != productId);
  }

  /** In a list without duplicates, removing a present id drops exactly
      its one entry. */
  lemma WithoutDropsOne(items: seq<string>, k: nat)
    requires Distinct(items) && k < |items|
    ensures Without(items, items[k]) == items[..k] + items[k + 1..]
  {
    FilterDropsOne(items, (x: string) => x != items[k], k);
  }

  /** Removal never introduces a duplicate. */
  lemma WithoutKeepsDistinct(items: seq<string>, productId: string)
    ensures Distinct(items) ==> Distinct(Without(items, productId))
  {
    if Distinct(items) {
      FilterPairwise(items, (x: string) => x != productId, (a: string, b: string) => a != b);
    }
  }

  /** All users' wishlists, keyed by user id. */
  class WishlistStore {
    var lists: map<string, seq<string>>

    constructor()
      ensures lists == map[]
    {
      lists := map[];
    }

    predicate Valid()
      reads this
    {
      forall u :: u in lists ==> Distinct(lists[u])
    }

    /** `GET /api/wishlist`: a missing wishlist is created empty. */
    method Get(user: string) returns (items: seq<string>)
      modifies this
      ensures user in old(lists) ==> items == old(lists[user])
      ensures user !in old(lists) ==> items == []
      ensures lists == old(lists)[user := items]
      ensures old(Valid()) ==> Valid()
    {
      if user !in lists {
        lists := lists[user := []];
      }
      items := lists[user];
    }

    /** `POST /api/wishlist`. `catalog` holds the products `findById` can
        find. The wishlist is created before the duplicate check, so a
        request that fails only as a duplicate still finds one. */
    method Add(user: string, productId: string, catalog: map<string, Product>)
      returns (r: Result<seq<string>>)
      modifies this
      ensures productId == "" ==> r == Err(BadRequest, "Please provide productId") && lists == old(lists)
      ensures productId != "" && productId !in catalog ==>
        r == Err(NotFound, "Product not found") && lists == old(lists)
      ensures productId != "" && productId in catalog && user in old(lists) && productId in old(lists[user]) ==>
        r == Err(BadRequest, "Product already in wishlist") && lists == old(lists)
      ensures productId != "" && productId in catalog &&
              (user !in old(lists) || productId !in old(lists[user])) ==>
        && r == Ok((if user in old(lists) then old(lists[user]) else []) + [productId])
        && lists == old(lists)[user := r.value]
      ensures old(Valid()) ==> Valid()
    {
      if productId == "" {
        return Err(BadRequest, "Please provide productId");
      }
      if productId !in catalog {
        return Err(NotFound, "Product not found");
      }
      if user !in lists {
        lists := lists[user := []];
      }
      var items := lists[user];
      if productId in items {
        return Err(BadRequest, "Product already in wishlist");
      }
      items := items + [productId];
      lists := lists[user := items];
      r := Ok(items);
    }

    /** `DELETE /api/wishlist/:id`, the id being a product id. */
    method Remove(user: string, productId: string) returns (r: Result<seq<string>>)
      modifies this
      ensures user !in old(lists) ==> r == Err(NotFound, "Wishlist not found") && lists == old(lists)
      ensures user in old(lists) ==>
        r == Ok(Without(old(lists[user]), productId)) && lists == old(lists)[user := r.value]
      ensures old(Valid()) ==> Valid()
    {
      if user !in lists {
        return Err(NotFound, "Wishlist not found");
      }
      WithoutKeepsDistinct(lists[user], productId);
      var items := Without(lists[user], productId);
      lists := lists[user := items];
      r := Ok(items);
    }
  }
}
