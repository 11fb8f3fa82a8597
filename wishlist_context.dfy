/** The browser wishlist of frontend/src/context/WishlistContext.jsx. A
    guest's wishlist lives in localStorage under 'wishlist'; a signed-in
    user's is whatever the server last answered. */
module WishlistContext {
  import opened Wrappers
  import opened Seqs
  import opened ProductModel
  import opened Shapes

  /** `isInWishlist`: some entry's `product?._id` is the id. */
  predicate IsIn(items: seq<WishEntry>, productId: string) {
    exists i :: 0 <= i < |items| && items[i].product.IdIs(productId)
  }

  /** `getWishlistCount`: the entries that have a product with an `_id`;
      `wishlist.items` absent gives 0. */
  function WishlistCount(items: Option<seq<WishEntry>>): (n: nat)
    ensures items.None? ==> n == 0
    ensures items.Some? ==> n <= |items.value|
    ensures items.Some? ==> (n == |items.value| <==>
      forall i :: 0 <= i < |items.value| ==> items.value[i].product.HasId())
  {
    match items
    case None => 0
    case Some(s) =>
      Count(s, HasProduct)
  }

  predicate HasProduct(e: WishEntry) {
    e.product.HasId()
  }

  /** The count is exact: an empty list counts 0, and one more entry raises
      the count by one exactly when its product has an `_id`. */
  lemma WishlistCountSnoc(items: seq<WishEntry>, e: WishEntry)
    ensures WishlistCount(Some([])) == 0
    ensures WishlistCount(Some(items + [e])) == WishlistCount(Some(items)) + (if e.product.HasId() then 1 else 0)
  {
    CountSnoc(items, e, HasProduct);
  }

  /** The guest `addToWishlist`: None when the product is already listed or
      when no product data is at hand and the fetch failed; otherwise the
      list with one new entry at the end. `freshId` and `now` stand for the
      generated `_id` and `addedAt`. */
  function GuestAdd(items: seq<WishEntry>, productId: string, productData: ProductRef,
                    fetched: Option<Product>, freshId: string, now: string): Option<seq<WishEntry>> {
    if IsIn(items, productId) then None
    else match Resolve(productData, fetched)
      case None => None
      case Some(product) => Some(items + [WishEntry(freshId, product, now)])
  }

  /** The guest `removeFromWishlist` filter. */
  function GuestRemove(items: seq<WishEntry>, productId: string): seq<WishEntry> {
    Filter(items, (e: WishEntry) => !e.product.IdIs(productId))
  }

  /** A guest add either changes nothing or appends exactly one entry; it
      appends exactly when the product is not listed yet and its data is at
      hand or fetched. */
  lemma GuestAddShape(items: seq<WishEntry>, productId: string, productData: ProductRef,
                      fetched: Option<Product>, freshId: string, now: string)
    ensures var r := GuestAdd(items, productId, productData, fetched, freshId, now);
      && (IsIn(items, productId) ==> r.None?)
      && (productData.NoProduct? && fetched.None? ==> r.None?)
      && (r.Some? <==> !IsIn(items, productId) && Resolve(productData, fetched).Some?)
      && (r.Some? ==> && |r.value| == |items| + 1 && r.value[..|items|] == items
                      && r.value[|items|] == WishEntry(freshId, Resolve(productData, fetched).value, now))
  {
    var r := GuestAdd(items, productId, productData, fetched, freshId, now);
    if r.Some? {
      assert r.value[..|items|] == items;
    }
  }

  /** After a successful guest add of a product whose data carries the
      requested id, the product is in the wishlist. */
  lemma AddThenIsIn(items: seq<WishEntry>, productId: string, productData: ProductRef,
                    fetched: Option<Product>, freshId: string, now: string)
    requires GuestAdd(items, productId, productData, fetched, freshId, now).Some?
    requires Resolve(productData, fetched).value.IdIs(productId)
    ensures IsIn(GuestAdd(items, productId, productData, fetched, freshId, now).value, productId)
  {
    var r := GuestAdd(items, productId, productData, fetched, freshId, now).value;
    assert r[|items|].product.IdIs(productId);
  }

  /** A guest add never lists a product twice: if the ids were distinct
      and the new entry carries the requested id, they stay distinct. */
  lemma AddKeepsIdsDistinct(items: seq<WishEntry>, productId: string, productData: ProductRef,
                            fetched: Option<Product>, freshId: string, now: string)
    requires forall i, j :: 0 <= i < j < |items| ==> items[i].product.Id() != items[j].product.Id()
    requires forall i :: 0 <= i < |items| ==> !items[i].product.NoProduct?
    requires GuestAdd(items, productId, productData, fetched, freshId, now).Some?
    requires Resolve(productData, fetched).value.IdIs(productId)
    ensures var r := GuestAdd(items, productId, productData, fetched, freshId, now).value;
      forall i, j :: 0 <= i < j < |r| ==> r[i].product.Id() != r[j].product.Id()
  {
    var r := GuestAdd(items, productId, productData, fetched, freshId, now).value;
    forall i, j | 0 <= i < j < |r| ensures r[i].product.Id() != r[j].product.Id() {
      if j == |items| {
        assert r[i] == items[i];
        assert !items[i].product.IdIs(productId);
      } else {
        assert r[i] == items[i] && r[j] == items[j];
      }
    }
  }

  /** After a guest remove the product is not in the wishlist, every other
      entry is kept, and removing again changes nothing. */
  lemma RemoveThenNotIn(items: seq<WishEntry>, productId: string)
    ensures !IsIn(GuestRemove(items, productId), productId)
    ensures forall i :: 0 <= i < |items| && !items[i].product.IdIs(productId) ==>
      items[i] in GuestRemove(items, productId)
    ensures GuestRemove(GuestRemove(items, productId), productId) == GuestRemove(items, productId)
  {
    FilterIdempotent(items, (e: WishEntry) => !e.product.IdIs(productId));
  }

  /** What the heart button of the product card and detail page asks the
      context to do. */
  datatype WishAction = RemoveWish(productId: string) | AddWish(productId: string, productData: ProductRef)

  /** `isInWishlist(id) ? removeFromWishlist(id) : addToWishlist(id, product)`. */
  function ToggleRequest(items: seq<WishEntry>, productId: string, productData: ProductRef): (a: WishAction)
    ensures a.RemoveWish? <==> IsIn(items, productId)
    ensures a.productId == productId
    ensures a.AddWish? ==> a.productData == productData
  {
    if IsIn(items, productId) then RemoveWish(productId) else AddWish(productId, productData)
  }

  /** The guest list after the context carries out an action; a failed add
      leaves it as it was. */
  function Perform(items: seq<WishEntry>, a: WishAction, fetched: Option<Product>,
                   freshId: string, now: string): seq<WishEntry> {
    match a
    case RemoveWish(id) => GuestRemove(items, id)
    case AddWish(id, data) => GuestAdd(items, id, data, fetched, freshId, now).GetOr(items)
  }

  function Toggle(items: seq<WishEntry>, productId: string, productData: ProductRef,
                  fetched: Option<Product>, freshId: string, now: string): seq<WishEntry> {
    Perform(items, ToggleRequest(items, productId, productData), fetched, freshId, now)
  }

  /** A toggle flips membership, provided an add can resolve the product
      to data carrying its id. */
  lemma ToggleFlips(items: seq<WishEntry>, productId: string, productData: ProductRef,
                    fetched: Option<Product>, freshId: string, now: string)
    requires Resolve(productData, fetched).Some? && Resolve(productData, fetched).value.IdIs(productId)
    ensures IsIn(Toggle(items, productId, productData, fetched, freshId, now), productId)
      <==> !IsIn(items, productId)
  {
    if IsIn(items, productId) {
      RemoveThenNotIn(items, productId);
    } else {
      AddThenIsIn(items, productId, productData, fetched, freshId, now);
    }
  }

  /** One step of the guest load, as for the cart. */
  function Hydrate(e: WishEntry, found: map<string, Product>): WishEntry {
    if e.product.HasId() && !e.product.HasName() && e.product.Id() in found
    then e.(product := Full(found[e.product.Id()]))
    else e
  }

  function HydrateAll(items: seq<WishEntry>, found: map<string, Product>): seq<WishEntry> {
    seq(|items|, i requires 0 <= i < |items| => Hydrate(items[i], found))
  }

  predicate GainedName(before: seq<WishEntry>, after: seq<WishEntry>) {
    exists i :: 0 <= i < |after| && i < |before| &&
      after[i].product.HasName() && !before[i].product.HasName()
  }

  /** The guest load keeps the count, the order and every entry's `_id` and
      `addedAt`; an entry whose fetch failed is kept exactly, and so is
      membership of every product id. */
  lemma HydrateKeepsShape(items: seq<WishEntry>, found: map<string, Product>)
    requires forall k :: k in found ==> found[k].id == k
    ensures var r := HydrateAll(items, found);
      && |r| == |items|
      && (forall i :: 0 <= i < |r| ==> r[i].id == items[i].id && r[i].addedAt == items[i].addedAt)
      && (forall i :: 0 <= i < |r| && items[i].product.Id() !in found ==> r[i] == items[i])
      && (forall i :: 0 <= i < |r| ==> r[i].product.Id() == items[i].product.Id())
  {
  }

  /** The provider's state, as for the cart. */
  class WishlistProvider {
    var authenticated: bool
    var view: seq<WishEntry>
    var stored: Option<seq<WishEntry>>

    constructor(authenticated: bool, stored: Option<seq<WishEntry>>)
      ensures this.authenticated == authenticated && this.stored == stored && view == []
    {
      this.authenticated := authenticated;
      this.stored := stored;
      view := [];
    }

    function Saved(): seq<WishEntry>
      reads this
    {
      stored.GetOr([])
    }

    /** `isInWishlist` reads the rendered list. */
    predicate IsInWishlist(productId: string)
      reads this
    {
      IsIn(view, productId)
    }

    /** The load effect, as for the cart. */
    method Load(found: map<string, Product>, reply: Option<seq<WishEntry>>)
      modifies this
      ensures authenticated == old(authenticated) && stored == (
        if !old(authenticated) && old(Saved()) != [] &&
           GainedName(old(Saved()), HydrateAll(old(Saved()), found))
        then Some(HydrateAll(old(Saved()), found))
        else old(stored))
      ensures old(authenticated) ==> view == reply.GetOr(old(view))
      ensures !old(authenticated) ==> view == HydrateAll(old(Saved()), found)
    {
      if authenticated {
        if reply.Some? {
          view := reply.value;
        }
        return;
      }
      var saved := Saved();
      if saved != [] {
        var processed := HydrateAll(saved, found);
        view := processed;
        if GainedName(saved, processed) {
          stored := Some(processed);
        }
      } else {
        view := [];
      }
    }

    /** `addToWishlist`. */
    method AddToWishlist(productId: string, productData: ProductRef, fetched: Option<Product>,
                         freshId: string, now: string, reply: Option<seq<WishEntry>>)
      modifies this
      ensures authenticated == old(authenticated)
      ensures old(authenticated) ==> stored == old(stored) && view == reply.GetOr(old(view))
      ensures !old(authenticated) ==>
        match GuestAdd(old(Saved()), productId, productData, fetched, freshId, now)
        case None => view == old(view) && stored == old(stored)
        case Some(s) => view == s && stored == Some(s)
    {
      if !authenticated {
        var saved := Saved();
        if IsIn(saved, productId) {
          return;
        }
        var product := productData;
        if product.NoProduct? {
          if fetched.None? {
            return;
          }
          product := Full(fetched.value);
        }
        saved := saved + [WishEntry(freshId, product, now)];
        view := saved;
        stored := Some(saved);
        return;
      }
      if reply.Some? {
        view := reply.value;
      }
    }

    /** `removeFromWishlist`: as a guest the filtered list is always written. */
    method RemoveFromWishlist(productId: string, reply: Option<seq<WishEntry>>)
      modifies this
      ensures authenticated == old(authenticated)
      ensures old(authenticated) ==> stored == old(stored) && view == reply.GetOr(old(view))
      ensures !old(authenticated) ==>
        view == GuestRemove(old(Saved()), productId) && stored == Some(view)
    {
      if !authenticated {
        var saved := GuestRemove(Saved(), productId);
        view := saved;
        stored := Some(saved);
        return;
      }
      if reply.Some? {
        view := reply.value;
      }
    }
  }
}
