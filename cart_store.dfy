/** The `carts` table with the `cart_items` rows each cart owns, and the
    operations of app/models/cart.rb that write it: creating a cart,
    `add`, `mark_as_interacted`, `mark_as_abandoned`, `remove_if_abandoned`
    and `destroy!`. Each operation is atomic. */
module CartStore {
  import opened Optional
  import opened Clock
  import opened Carts

  /** No cart goes back from abandoned to active: a cart that was abandoned
      before is still abandoned after, as long as it still exists. */
  ghost predicate NeverUnabandons(before: map<CartId, Cart>, after: map<CartId, Cart>)
  {
    forall id :: id in before && id in after && IsAbandoned(before[id]) ==> IsAbandoned(after[id])
  }

  /** No id is handed out twice: the next id only grows, and an id below it
      that names no cart (a destroyed one) names none afterwards either. */
  ghost predicate NoIdReused(before: map<CartId, Cart>, beforeNext: CartId, after: map<CartId, Cart>, afterNext: CartId)
  {
    && beforeNext <= afterNext
    && forall id :: id < beforeNext && id !in before ==> id !in after
  }

  /** Two steps that each reuse no id together reuse none, so the property
      holds across any run of operations. */
  lemma NoIdReusedChain(s0: map<CartId, Cart>, n0: CartId, s1: map<CartId, Cart>, n1: CartId,
                        s2: map<CartId, Cart>, n2: CartId)
    requires NoIdReused(s0, n0, s1, n1) && NoIdReused(s1, n1, s2, n2)
    ensures NoIdReused(s0, n0, s2, n2)
  {
  }

  class Store {
    /** Cart records by id; a record carries its line items. */
    var carts: map<CartId, Cart>
    /** The id the next `create!` assigns. */
    var nextId: CartId

    ghost predicate Valid()
      reads this
    {
      && (forall id :: id in carts ==> id < nextId)
      && (forall id :: id in carts ==> WellFormed(carts[id].items))
    }

    constructor ()
      ensures Valid() && carts == map[]
    {
      carts := map[];
      nextId := 1;
    }

    /** `Cart.create!`, optionally with `last_interaction_at` and
        `abandoned_at` supplied: inserts one empty cart under a fresh id,
        with `init_last_interaction` run before the insert. */
    method Create(lastInteraction: Option<Time>, abandoned: Option<Time>, now: Time) returns (id: CartId)
      requires Valid()
      modifies this
      ensures Valid()
      ensures id !in old(carts) && id == old(nextId) && nextId == old(nextId) + 1
      ensures carts == old(carts)[id := NewCart(lastInteraction, abandoned, now)]
      ensures |carts| == |old(carts)| + 1
      ensures NeverUnabandons(old(carts), carts) && NoIdReused(old(carts), old(nextId), carts, nextId)
    {
      id := nextId;
      nextId := nextId + 1;
      carts := carts[id := Cart([], InitLastInteraction(lastInteraction, now), abandoned)];
    }

    /** `mark_as_interacted`: stamps `last_interaction_at` and nothing else;
        in particular `abandoned_at` is never cleared. */
    method MarkAsInteracted(id: CartId, now: Time)
      requires Valid() && id in carts
      modifies this
      ensures Valid() && nextId == old(nextId)
      ensures carts == old(carts)[id := old(carts)[id].(lastInteractionAt := now)]
      ensures NeverUnabandons(old(carts), carts) && NoIdReused(old(carts), old(nextId), carts, nextId)
    {
      carts := carts[id := carts[id].(lastInteractionAt := now)];
    }

    /** `mark_as_abandoned`: sets `abandoned_at` to `now`, overwriting any
        earlier value. */
    method MarkAsAbandoned(id: CartId, now: Time)
      requires Valid() && id in carts
      modifies this
      ensures Valid() && nextId == old(nextId)
      ensures carts == old(carts)[id := old(carts)[id].(abandonedAt := Some(now))]
      ensures IsAbandoned(carts[id]) && NeverUnabandons(old(carts), carts)
      ensures NoIdReused(old(carts), old(nextId), carts, nextId)
    {
      carts := carts[id := carts[id].(abandonedAt := Some(now))];
    }

    /** `add(product:, quantity:)`: finds or initializes the product's line
        item, computes its new quantity, raises (`ok` false, nothing saved)
        when that quantity is not positive, else saves the line item and
        then marks the cart as interacted. */
    method Add(id: CartId, product: ProductId, quantity: int, now: Time) returns (ok: bool)
      requires Valid() && id in carts
      modifies this
      ensures Valid() && nextId == old(nextId)
      ensures ok == Carts.Add(old(carts)[id], product, quantity, now).Some?
      ensures ok ==> carts == old(carts)[id := Carts.Add(old(carts)[id], product, quantity, now).value]
      ensures !ok ==> carts == old(carts)
      ensures NeverUnabandons(old(carts), carts) && NoIdReused(old(carts), old(nextId), carts, nextId)
    {
      var c := carts[id];
      var items;
      ok, items := SaveLineItem(c.items, product, quantity);
      if !ok {
        return;
      }
      AddKeepsWellFormed(c, product, quantity, now);
      carts := carts[id := c.(items := items)];
      MarkAsInteracted(id, now);
    }

    /** `cart_items.find_by!(product_id:).destroy!`: deletes the line item of
        a product the cart holds. */
    method DestroyItem(id: CartId, product: ProductId)
      requires Valid() && id in carts
      requires product in Products(carts[id].items)
      modifies this
      ensures Valid() && nextId == old(nextId)
      ensures carts == old(carts)[id := old(carts)[id].(items := Without(old(carts)[id].items, product))]
      ensures NeverUnabandons(old(carts), carts) && NoIdReused(old(carts), old(nextId), carts, nextId)
    {
      WithoutEffect(carts[id].items, product);
      carts := carts[id := carts[id].(items := Without(carts[id].items, product))];
    }

    /** `destroy!`: deletes the cart and, through `dependent: :destroy`, every
        line item it owns; no other cart is touched. */
    method Destroy(id: CartId)
      requires Valid() && id in carts
      modifies this
      ensures Valid() && nextId == old(nextId)
      ensures carts == old(carts) - {id}
      ensures id !in carts && NeverUnabandons(old(carts), carts)
      ensures NoIdReused(old(carts), old(nextId), carts, nextId)
    {
      carts := carts - {id};
    }

    /** `remove_if_abandoned`: destroys the cart exactly when it was
        abandoned strictly more than 7 days before `now`; otherwise nothing
        changes. */
    method RemoveIfAbandoned(id: CartId, now: Time) returns (removed: bool)
      requires Valid() && id in carts
      modifies this
      ensures Valid() && nextId == old(nextId)
      ensures removed <==> PurgeDue(old(carts)[id], now)
      ensures removed ==> carts == old(carts) - {id}
      ensures !removed ==> carts == old(carts)
      ensures NeverUnabandons(old(carts), carts) && NoIdReused(old(carts), old(nextId), carts, nextId)
    {
      removed := PurgeDue(carts[id], now);
      if removed {
        Destroy(id);
      }
    }
  }
}
