/** The browser cart of frontend/src/context/CartContext.jsx. A guest's
    cart lives in localStorage under the key 'cart' and is edited in place;
    a signed-in user's cart is whatever the server last answered. The two
    modes only select the store: signing in merges nothing. */
module CartContext {
  import opened Wrappers
  import opened Seqs
  import opened Text
  import opened ProductModel
  import opened Shapes

  /** `item.quantity || 1`: a zero quantity counts as one. */
  function Units(e: CartEntry): int {
    if e.quantity == 0 then 1 else e.quantity
  }

  /** `(item.product?.price || 0) * (item.quantity || 1)`. */
  function LineTotal(e: CartEntry): real {
    e.product.Price() * Units(e) as real
  }

  /** `getCartCount`: `cart.items` absent gives 0. */
  function CartCount(items: Option<seq<CartEntry>>): int {
    match items
    case None => 0
    case Some(s) => SumInt(s, Units)
  }

  /** `getCartTotal`: `cart.items` absent gives 0. */
  function CartTotal(items: Option<seq<CartEntry>>): real {
    match items
    case None => 0.0
    case Some(s) => Sum(s, LineTotal)
  }

  /** The guest `findIndex` test: same product id, size and colour name. */
  predicate SameGuestVariant(e: CartEntry, productId: string, size: string, color: Option<Color>) {
    e.product.IdIs(productId) && e.size == size && ColorName(e.color) == ColorName(color)
  }

  function GuestVariantIndex(items: seq<CartEntry>, productId: string, size: string,
                             color: Option<Color>): Option<nat> {
    FindFirst(items, (e: CartEntry) => SameGuestVariant(e, productId, size, color))
  }

  /** The guest merge-or-append step of `addToCart`; `freshId` stands for
      the `guest_<time>_<random>` id. */
  function GuestAdd(items: seq<CartEntry>, productId: string, quantity: int, size: string,
                    color: Option<Color>, product: ProductRef, freshId: string): seq<CartEntry> {
    match GuestVariantIndex(items, productId, size, color)
    case Some(k) => items[k := items[k].(quantity := items[k].quantity + quantity)]
    case None => items + [CartEntry(freshId, product, quantity, size, color)]
  }

  /** The guest lookup test of `updateCartItem` and `removeFromCart`: the
      entry's `_id` equals the id, or its index rendered in decimal does. */
  predicate Matches(e: CartEntry, i: nat, itemId: string) {
    e.id == itemId || NatToString(i) == itemId
  }

  /** `items.find(...)` as a position, searching from `from` onward. */
  function FindFrom(items: seq<CartEntry>, itemId: string, from: nat): (r: Option<nat>)
    requires from <= |items|
    ensures r.Some? ==> from <= r.value < |items| && Matches(items[r.value], r.value, itemId)
    ensures r.Some? ==> forall j :: from <= j < r.value ==> !Matches(items[j], j, itemId)
    ensures r.None? ==> forall j :: from <= j < |items| ==> !Matches(items[j], j, itemId)
    decreases |items| - from
  {
    if from == |items| then None
    else if Matches(items[from], from, itemId) then Some(from)
    else FindFrom(items, itemId, from + 1)
  }

  /** The entries from `from` onward that `removeFromCart` keeps. */
  function DropFrom(items: seq<CartEntry>, itemId: string, from: nat): seq<CartEntry>
    requires from <= |items|
    decreases |items| - from
  {
    if from == |items| then []
    else
      var head := if Matches(items[from], from, itemId) then [] else [items[from]];
      head + DropFrom(items, itemId, from + 1)
  }

  /** The guest `removeFromCart` filter. */
  function GuestRemove(items: seq<CartEntry>, itemId: string): seq<CartEntry> {
    DropFrom(items, itemId, 0)
  }

  /** The guest `updateCartItem`: the first matching entry gets quantity
      `max(1, quantity)`; None when no entry matches. */
  function GuestUpdate(items: seq<CartEntry>, itemId: string, quantity: int): Option<seq<CartEntry>> {
    match FindFrom(items, itemId, 0)
    case None => None
    case Some(k) => Some(items[k := items[k].(quantity := if quantity < 1 then 1 else quantity)])
  }

  /** One step of the guest load: an entry whose product has an `_id` but
      no name is replaced by the fetched product when the fetch succeeded
      (`found` holds the products that `GET /products/:id` returned). */
  function Hydrate(e: CartEntry, found: map<string, Product>): CartEntry {
    if e.product.HasId() && !e.product.HasName() && e.product.Id() in found
    then e.(product := Full(found[e.product.Id()]))
    else e
  }

  function HydrateAll(items: seq<CartEntry>, found: map<string, Product>): seq<CartEntry> {
    seq(|items|, i requires 0 <= i < |items| => Hydrate(items[i], found))
  }

  /** Some entry has a name now that it lacked before: the condition under
      which the load writes back to localStorage. */
  predicate GainedName(before: seq<CartEntry>, after: seq<CartEntry>) {
    exists i :: 0 <= i < |after| && i < |before| &&
      after[i].product.HasName() && !before[i].product.HasName()
  }

  // ---------------------------------------------------------------- lemmas

  /** A guest add of a variant already present adds the quantity to that
      entry alone; no entry is appended. */
  lemma GuestAddMerges(items: seq<CartEntry>, productId: string, quantity: int, size: string,
                       color: Option<Color>, product: ProductRef, freshId: string, k: nat)
    requires k < |items| && SameGuestVariant(items[k], productId, size, color)
    requires forall j :: 0 <= j < k ==> !SameGuestVariant(items[j], productId, size, color)
    ensures var r := GuestAdd(items, productId, quantity, size, color, product, freshId);
      && |r| == |items|
      && r[k] == items[k].(quantity := items[k].quantity + quantity)
      && forall j :: 0 <= j < |r| && j != k ==> r[j] == items[j]
  {
    assert GuestVariantIndex(items, productId, size, color) == Some(k);
  }

  /** A guest add of a new variant appends one entry holding the product. */
  lemma GuestAddAppends(items: seq<CartEntry>, productId: string, quantity: int, size: string,
                        color: Option<Color>, product: ProductRef, freshId: string)
    requires forall j :: 0 <= j < |items| ==> !SameGuestVariant(items[j], productId, size, color)
    ensures GuestAdd(items, productId, quantity, size, color, product, freshId)
      == items + [CartEntry(freshId, product, quantity, size, color)]
  {
  }

  /** With positive quantities throughout, a guest add raises the cart
      count by exactly the quantity added, whether it merges or appends. */
  lemma GuestAddCount(items: seq<CartEntry>, productId: string, quantity: int, size: string,
                      color: Option<Color>, product: ProductRef, freshId: string)
    requires quantity > 0
    requires forall j :: 0 <= j < |items| ==> items[j].quantity > 0
    ensures CartCount(Some(GuestAdd(items, productId, quantity, size, color, product, freshId)))
      == CartCount(Some(items)) + quantity
  {
    match GuestVariantIndex(items, productId, size, color)
    case Some(k) =>
      SumIntUpdate(items, k, items[k].(quantity := items[k].quantity + quantity), Units);
    case None =>
      var e := CartEntry(freshId, product, quantity, size, color);
      SumIntAppend(items, [e], Units);
      assert SumInt([e], Units) == Units(e) + SumInt([e][1..], Units);
  }

  /** Count and total split over concatenation. */
  lemma CountTotalAppend(a: seq<CartEntry>, b: seq<CartEntry>)
    ensures CartCount(Some(a + b)) == CartCount(Some(a)) + CartCount(Some(b))
    ensures CartTotal(Some(a + b)) == CartTotal(Some(a)) + CartTotal(Some(b))
  {
    SumIntAppend(a, b, Units);
    SumAppend(a, b, LineTotal);
  }

  /** A guest update changes the quantity of the first matching entry to at
      least 1 and nothing else; unlike the server it never removes an entry. */
  lemma GuestUpdateClamps(items: seq<CartEntry>, itemId: string, quantity: int)
    ensures var r := GuestUpdate(items, itemId, quantity);
      r.Some? ==> && |r.value| == |items|
                  && (exists k :: 0 <= k < |items| && Matches(items[k], k, itemId) &&
                        r.value[k] == items[k].(quantity := if quantity < 1 then 1 else quantity) &&
                        forall j :: 0 <= j < |items| && j != k ==> r.value[j] == items[j])
                  && forall j :: 0 <= j < |items| ==> r.value[j].quantity >= 1 || r.value[j] == items[j]
    ensures GuestUpdate(items, itemId, quantity).None? <==>
      forall j :: 0 <= j < |items| ==> !Matches(items[j], j, itemId)
  {
    var f := FindFrom(items, itemId, 0);
    if f.Some? {
      var k := f.value;
      assert Matches(items[k], k, itemId);
    } else {
      assert GuestUpdate(items, itemId, quantity).None?;
    }
  }

  /** Every entry `removeFromCart` keeps is an entry that did not match. */
  lemma {:induction false} DropFromSound(items: seq<CartEntry>, itemId: string, from: nat)
    requires from <= |items|
    ensures var r := DropFrom(items, itemId, from);
      |r| <= |items| - from &&
      forall i :: 0 <= i < |r| ==>
        exists j :: from <= j < |items| && r[i] == items[j] && !Matches(items[j], j, itemId)
    decreases |items| - from
  {
    if from < |items| {
      DropFromSound(items, itemId, from + 1);
      var rest := DropFrom(items, itemId, from + 1);
      var h := if Matches(items[from], from, itemId) then [] else [items[from]];
      var r := h + rest;
      forall i | 0 <= i < |r|
        ensures exists j :: from <= j < |items| && r[i] == items[j] && !Matches(items[j], j, itemId)
      {
        if i < |h| {
          assert r[i] == items[from];
        } else {
          assert r[i] == rest[i - |h|];
        }
      }
    }
  }

  /** With no entry matching, `removeFromCart` keeps the entries as they are. */
  lemma {:induction false} DropNone(items: seq<CartEntry>, itemId: string, from: nat)
    requires from <= |items|
    requires forall j :: from <= j < |items| ==> !Matches(items[j], j, itemId)
    ensures DropFrom(items, itemId, from) == items[from..]
    decreases |items| - from
  {
    if from < |items| {
      DropNone(items, itemId, from + 1);
      assert items[from..] == [items[from]] + items[from + 1..];
    }
  }

  /** One step of the filter: a matching entry is dropped, any other kept. */
  lemma DropFromSkip(items: seq<CartEntry>, itemId: string, from: nat)
    requires from < |items| && Matches(items[from], from, itemId)
    ensures DropFrom(items, itemId, from) == DropFrom(items, itemId, from + 1)
  {
  }

  lemma DropFromKeep(items: seq<CartEntry>, itemId: string, from: nat)
    requires from < |items| && !Matches(items[from], from, itemId)
    ensures DropFrom(items, itemId, from) == [items[from]] + DropFrom(items, itemId, from + 1)
  {
  }

  /** With exactly one entry matching, `removeFromCart` drops that entry and
      keeps the others in order. */
  lemma {:induction false} DropExactlyOne(items: seq<CartEntry>, itemId: string, from: nat, k: nat)
    requires from <= k < |items| && Matches(items[k], k, itemId)
    requires forall j :: from <= j < |items| && j != k ==> !Matches(items[j], j, itemId)
    ensures DropFrom(items, itemId, from) == items[from..k] + items[k + 1..]
    decreases |items| - from
  {
    if from == k {
      DropFromSkip(items, itemId, k);
      DropNone(items, itemId, k + 1);
    } else {
      DropFromKeep(items, itemId, from);
      DropExactlyOne(items, itemId, from + 1, k);
      assert items[from..k] == [items[from]] + items[from + 1..k];
    }
  }

  /** The positions from `from` onward whose entry does not match, in
      ascending order: every such position, and no other. */
  function KeptFrom(items: seq<CartEntry>, itemId: string, from: nat): (k: seq<nat>)
    requires from <= |items|
    ensures forall i :: 0 <= i < |k| ==> from <= k[i] < |items|
    decreases |items| - from
  {
    if from == |items| then []
    else
      var rest := KeptFrom(items, itemId, from + 1);
      if Matches(items[from], from, itemId) then rest else [from] + rest
  }

  /** Every kept position holds an entry that does not match. */
  lemma {:induction false} KeptFromSound(items: seq<CartEntry>, itemId: string, from: nat)
    requires from <= |items|
    ensures var k := KeptFrom(items, itemId, from);
      forall i :: 0 <= i < |k| ==> !Matches(items[k[i]], k[i], itemId)
    decreases |items| - from
  {
    if from < |items| {
      KeptFromSound(items, itemId, from + 1);
      var k := KeptFrom(items, itemId, from + 1);
      if Matches(items[from], from, itemId) {
        KeptFromSkip(items, itemId, from);
      } else {
        KeptFromKeep(items, itemId, from);
        var k0 := [from] + k;
        forall i | 0 < i < |k0| ensures k0[i] == k[i - 1] {
        }
      }
    }
  }

  /** The kept positions are in ascending order. */
  lemma {:induction false} KeptFromAscending(items: seq<CartEntry>, itemId: string, from: nat)
    requires from <= |items|
    ensures var k := KeptFrom(items, itemId, from);
      forall i, j :: 0 <= i < j < |k| ==> k[i] < k[j]
    decreases |items| - from
  {
    if from < |items| {
      KeptFromAscending(items, itemId, from + 1);
      var k := KeptFrom(items, itemId, from + 1);
      if Matches(items[from], from, itemId) {
        KeptFromSkip(items, itemId, from);
      } else {
        KeptFromKeep(items, itemId, from);
        var k0 := [from] + k;
        forall i | 0 < i < |k0| ensures k0[i] == k[i - 1] {
        }
      }
    }
  }

  /** Every position whose entry does not match is kept. */
  lemma {:induction false} KeptFromComplete(items: seq<CartEntry>, itemId: string, from: nat)
    requires from <= |items|
    ensures var k := KeptFrom(items, itemId, from);
      forall j :: from <= j < |items| && !Matches(items[j], j, itemId) ==> j in k
    decreases |items| - from
  {
    if from < |items| {
      KeptFromComplete(items, itemId, from + 1);
      if Matches(items[from], from, itemId) {
        KeptFromSkip(items, itemId, from);
      } else {
        KeptFromKeep(items, itemId, from);
      }
    }
  }

  lemma KeptFromSkip(items: seq<CartEntry>, itemId: string, from: nat)
    requires from < |items| && Matches(items[from], from, itemId)
    ensures KeptFrom(items, itemId, from) == KeptFrom(items, itemId, from + 1)
  {
  }

  lemma KeptFromKeep(items: seq<CartEntry>, itemId: string, from: nat)
    requires from < |items| && !Matches(items[from], from, itemId)
    ensures KeptFrom(items, itemId, from) == [from] + KeptFrom(items, itemId, from + 1)
  {
  }

  /** Putting an entry and its position in front keeps the two sequences
      in step. */
  lemma ConsIndexed(items: seq<CartEntry>, f: nat, r: seq<CartEntry>, k: seq<nat>)
    requires f < |items| && |r| == |k|
    requires forall i :: 0 <= i < |k| ==> k[i] < |items| && r[i] == items[k[i]]
    ensures forall i :: 0 <= i < |k| + 1 ==> ([f] + k)[i] < |items| && ([items[f]] + r)[i] == items[([f] + k)[i]]
  {
    forall i | 0 <= i < |k| + 1
      ensures ([f] + k)[i] < |items| && ([items[f]] + r)[i] == items[([f] + k)[i]]
    {
      if i > 0 {
        assert ([f] + k)[i] == k[i - 1] && ([items[f]] + r)[i] == r[i - 1];
      }
    }
  }

  /** `removeFromCart`'s filter keeps exactly the entries at the kept
      positions, in their order, whatever number of entries match. */
  lemma {:induction false} DropFromIsKept(items: seq<CartEntry>, itemId: string, from: nat)
    requires from <= |items|
    ensures var r := DropFrom(items, itemId, from); var k := KeptFrom(items, itemId, from);
      |r| == |k| && forall i :: 0 <= i < |k| ==> r[i] == items[k[i]]
    decreases |items| - from
  {
    if from < |items| {
      DropFromIsKept(items, itemId, from + 1);
      var r := DropFrom(items, itemId, from + 1);
      var k := KeptFrom(items, itemId, from + 1);
      if Matches(items[from], from, itemId) {
        DropFromSkip(items, itemId, from);
        KeptFromSkip(items, itemId, from);
      } else {
        DropFromKeep(items, itemId, from);
        KeptFromKeep(items, itemId, from);
        ConsIndexed(items, from, r, k);
      }
    }
  }

  /** Hence every entry that does not match survives the filter. */
  lemma GuestRemoveKeepsOthers(items: seq<CartEntry>, itemId: string, j: nat)
    requires j < |items| && !Matches(items[j], j, itemId)
    ensures items[j] in GuestRemove(items, itemId)
  {
    DropFromIsKept(items, itemId, 0);
    KeptFromComplete(items, itemId, 0);
    var k := KeptFrom(items, itemId, 0);
    var i :| 0 <= i < |k| && k[i] == j;
    assert GuestRemove(items, itemId)[i] == items[j];
  }

  /** A guest id such as `guest_...` starts with a letter, so it is never an
      index rendering: such an id matches by `_id` alone. */
  lemma GuestIdMatchesByIdOnly(e: CartEntry, i: nat, itemId: string)
    requires itemId != [] && !IsDigit(itemId[0])
    ensures Matches(e, i, itemId) <==> e.id == itemId
  {
    NonDigitIsNoIndex(itemId, i);
  }

  /** Removing by index: when no entry's `_id` is the decimal rendering of
      `k`, `removeFromCart(k.toString())` drops exactly the `k`-th entry. */
  lemma RemoveByIndex(items: seq<CartEntry>, k: nat)
    requires k < |items|
    requires forall j :: 0 <= j < |items| ==> items[j].id != NatToString(k)
    ensures GuestRemove(items, NatToString(k)) == items[..k] + items[k + 1..]
  {
    forall j | 0 <= j < |items| && j != k ensures !Matches(items[j], j, NatToString(k)) {
      if NatToString(j) == NatToString(k) {
        NatToStringInjective(j, k);
      }
    }
    DropExactlyOne(items, NatToString(k), 0, k);
  }

  /** Removing by a guest id that exactly one entry carries drops exactly
      that entry. */
  lemma RemoveByGuestId(items: seq<CartEntry>, k: nat)
    requires k < |items| && items[k].id != [] && !IsDigit(items[k].id[0])
    requires forall j :: 0 <= j < |items| && j != k ==> items[j].id != items[k].id
    ensures GuestRemove(items, items[k].id) == items[..k] + items[k + 1..]
  {
    var id := items[k].id;
    forall j | 0 <= j < |items| && j != k ensures !Matches(items[j], j, id) {
      GuestIdMatchesByIdOnly(items[j], j, id);
    }
    DropExactlyOne(items, id, 0, k);
  }

  /** Removing by an id that nothing matches leaves the entries unchanged. */
  lemma RemoveAbsent(items: seq<CartEntry>, itemId: string)
    requires forall j :: 0 <= j < |items| ==> !Matches(items[j], j, itemId)
    ensures GuestRemove(items, itemId) == items
  {
    DropNone(items, itemId, 0);
  }

  /** The guest load keeps the number and order of entries and every field
      but the product; an entry whose product fetch failed, or that already
      had a name, is kept exactly. */
  lemma HydrateKeepsShape(items: seq<CartEntry>, found: map<string, Product>)
    ensures var r := HydrateAll(items, found);
      && |r| == |items|
      && (forall i :: 0 <= i < |r| ==>
            r[i].id == items[i].id && r[i].quantity == items[i].quantity &&
            r[i].size == items[i].size && r[i].color == items[i].color)
      && (forall i :: 0 <= i < |r| && items[i].product.Id() !in found ==> r[i] == items[i])
      && (forall i :: 0 <= i < |r| && items[i].product.HasName() ==> r[i] == items[i])
  {
  }

  /** The guest load writes back only when some entry gained a name, and it
      gains one only by a successful fetch of a product that has a name. */
  lemma GainedNameNeedsFetch(items: seq<CartEntry>, found: map<string, Product>)
    requires GainedName(items, HydrateAll(items, found))
    ensures exists i ::
      0 <= i < |items| && items[i].product.Id() in found && found[items[i].product.Id()].name != ""
  {
    var r := HydrateAll(items, found);
    var i :| 0 <= i < |r| && i < |items| && r[i].product.HasName() && !items[i].product.HasName();
    assert r[i] == Hydrate(items[i], found);
  }

  /** Clearing leaves a cart whose count and total are zero. */
  lemma ClearedIsZero()
    ensures CartCount(Some([])) == 0 && CartTotal(Some([])) == 0.0
    ensures CartCount(None) == 0 && CartTotal(None) == 0.0
  {
  }

  // ----------------------------------------------------------- the provider

  /** The provider's state: the sign-in flag it reads from the auth
      context, the `cart.items` it renders, and the localStorage value under
      'cart' (None when the key is absent). */
  class CartProvider {
    var authenticated: bool
    var view: seq<CartEntry>
    var stored: Option<seq<CartEntry>>

    constructor(authenticated: bool, stored: Option<seq<CartEntry>>)
      ensures this.authenticated == authenticated && this.stored == stored && view == []
    {
      this.authenticated := authenticated;
      this.stored := stored;
      view := [];
    }

    /** `getItem('cart') || { items: [] }`. */
    function Saved(): seq<CartEntry>
      reads this
    {
      stored.GetOr([])
    }

    /** The sign-in state changes; neither cart is copied into the other. */
    method SetAuthenticated(b: bool)
      modifies this
      ensures authenticated == b && view == old(view) && stored == old(stored)
    {
      authenticated := b;
    }

    /** The load effect. Signed in, the server's answer replaces the view
        (`reply` None: the request failed). As a guest, a stored non-empty
        cart is hydrated and shown, and written back only when some entry
        gained a name; otherwise the view is empty. */
    method Load(found: map<string, Product>, reply: Option<seq<CartEntry>>)
      modifies this
      ensures authenticated == old(authenticated) && stored == (
        if !old(authenticated) && old(Saved()) != [] &&
           GainedName(old(Saved()), HydrateAll(old(Saved()), found))
        then Some(HydrateAll(old(Saved()), found))
        else old(stored))
      ensures old(authenticated) ==> view == reply.GetOr(old(view))
      ensures !old(authenticated) ==> view == HydrateAll(old(Saved()), found)
    {
      if authenticated {
        if reply.Some? {
          view := reply.value;
        }
        return;
      }
      var saved := Saved();
      if saved != [] {
        var processed := HydrateAll(saved, found);
        view := processed;
        if GainedName(saved, processed) {
          stored := Some(processed);
        }
      } else {
        view := [];
      }
    }

    /** `addToCart`. A guest add merges or appends in the stored cart and
        shows it; when no product data is at hand and the fetch fails
        (`fetched` None) nothing changes. Signed in, the server's answer
        replaces the view and localStorage is not touched. */
    method AddToCart(productId: string, quantity: int, size: string, color: Option<Color>,
                     productData: ProductRef, fetched: Option<Product>, freshId: string,
                     reply: Option<seq<CartEntry>>)
      modifies this
      ensures authenticated == old(authenticated)
      ensures old(authenticated) ==> stored == old(stored) && view == reply.GetOr(old(view))
      ensures !old(authenticated) && Resolve(productData, fetched).None? ==>
        view == old(view) && stored == old(stored)
      ensures !old(authenticated) && Resolve(productData, fetched).Some? ==>
        var saved := GuestAdd(old(Saved()), productId, quantity, size, color,
                              Resolve(productData, fetched).value, freshId);
        view == saved && stored == Some(saved)
    {
      if !authenticated {
        var saved := Saved();
        var product := productData;
        if product.NoProduct? {
          if fetched.None? {
            return;
          }
          product := Full(fetched.value);
        }
        var existing := GuestVariantIndex(saved, productId, size, color);
        if existing.Some? {
          var k := existing.value;
          saved := saved[k := saved[k].(quantity := saved[k].quantity + quantity)];
        } else {
          saved := saved + [CartEntry(freshId, product, quantity, size, color)];
        }
        view := saved;
        stored := Some(saved);
        return;
      }
      if reply.Some? {
        view := reply.value;
      }
    }

    /** `updateCartItem`. As a guest, the first entry matching by `_id` or
        by index gets quantity `max(1, quantity)` and the cart is written;
        with no match nothing is written. */
    method UpdateCartItem(itemId: string, quantity: int, reply: Option<seq<CartEntry>>)
      modifies this
      ensures authenticated == old(authenticated)
      ensures old(authenticated) ==> stored == old(stored) && view == reply.GetOr(old(view))
      ensures !old(authenticated) ==>
        match GuestUpdate(old(Saved()), itemId, quantity)
        case None => view == old(view) && stored == old(stored)
        case Some(s) => view == s && stored == Some(s)
    {
      if !authenticated {
        var saved := Saved();
        var found := FindFrom(saved, itemId, 0);
        if found.Some? {
          var k := found.value;
          saved := saved[k := saved[k].(quantity := if quantity < 1 then 1 else quantity)];
          view := saved;
          stored := Some(saved);
        }
        return;
      }
      if reply.Some? {
        view := reply.value;
      }
    }

    /** `removeFromCart`. As a guest the filtered cart is always written. */
    method RemoveFromCart(itemId: string, reply: Option<seq<CartEntry>>)
      modifies this
      ensures authenticated == old(authenticated)
      ensures old(authenticated) ==> stored == old(stored) && view == reply.GetOr(old(view))
      ensures !old(authenticated) ==>
        view == GuestRemove(old(Saved()), itemId) && stored == Some(view)
    {
      if !authenticated {
        var saved := GuestRemove(Saved(), itemId);
        view := saved;
        stored := Some(saved);
        return;
      }
      if reply.Some? {
        view := reply.value;
      }
    }

    /** `clearCart`. Signed in, the view empties only when the server
        accepted the request (`ok`). */
    method ClearCart(ok: bool)
      modifies this
      ensures authenticated == old(authenticated)
      ensures !old(authenticated) ==> view == [] && stored == Some([])
      ensures old(authenticated) ==> stored == old(stored) && view == (if ok then [] else old(view))
    {
      if !authenticated {
        view := [];
        stored := Some([]);
        return;
      }
      if ok {
        view := [];
      }
    }
  }
}
