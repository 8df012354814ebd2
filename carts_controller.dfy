/** `CartsController` (app/controllers/carts_controller.rb): the four cart
    actions, each run after the `load_or_build_cart!` before-action. The
    session is reduced to its `cart_id` value, passed in and handed back; an
    exception that `ApplicationController` rescues, or one that escapes as a
    server error, becomes an `Outcome`. */
module CartsController {
  import opened Optional
  import opened Clock
  import opened Carts
  import opened CartStore
  import opened Params
  import opened AbandonmentJob

  /** How a request ends. */
  datatype Outcome =
    | Rendered         // 200, the cart serialized
    | ProductNotFound  // `Product.find` raised RecordNotFound: 404
    | InvalidQuantity  // 422 "quantity must be greater than 0"
    | NotInCart        // 404 "product do not exist in cart"
    | NoCart           // `@cart` is nil and the action calls a method on it: 500

  /** The HTTP status each outcome is rendered with. */
  function StatusCode(o: Outcome): int
  {
    match o
    case Rendered => 200
    case ProductNotFound => 404
    case InvalidQuantity => 422
    case NotInCart => 404
    case NoCart => 500
  }

  /** `Product.find(id)` succeeds: the parameter is there and names a
      product of the catalogue. */
  predicate Finds(catalog: Catalog, productParam: Option<ProductId>)
  {
    productParam.Some? && productParam.value in catalog
  }

  /** The cart `load_or_build_cart!` leaves in `@cart`, as a function of the
      store before it ran: the session's cart if it still exists, nothing
      if the session names a cart that is gone, the new cart otherwise. */
  function LoadedCart(before: map<CartId, Cart>, session: Option<CartId>, now: Time): Option<Cart>
  {
    match session
    case Some(id) => if id in before then Some(before[id]) else None
    case None => Some(NewCart(None, None, now))
  }

  /** What `create` and `add_item` (identical bodies) promise, given the
      store before and after the request. */
  ghost predicate AddItemResponse(before: map<CartId, Cart>, after: map<CartId, Cart>,
                                  catalog: Catalog, session: Option<CartId>, session': Option<CartId>,
                                  productParam: Option<ProductId>, quantityParam: Param, now: Time,
                                  outcome: Outcome)
  {
    var cart := LoadedCart(before, session, now);
    && session'.Some?
    && (session.Some? ==> session' == session)
    && (session == None ==> session'.value !in before)
    // the before-action creates a cart whenever the session names none, whatever the outcome
    && after.Keys == before.Keys + (if session == None then {session'.value} else {})
    // the product lookup comes first, the quantity check second, the nil cart last
    && outcome == (if !Finds(catalog, productParam) then ProductNotFound
                   else if ToI(quantityParam) <= 0 then InvalidQuantity
                   else if cart == None then NoCart
                   else Rendered)
    // a rejected request changes no cart that existed before it
    && (outcome != Rendered ==> forall id :: id in before ==> after[id] == before[id])
    && (outcome != Rendered && session == None ==> after[session'.value] == cart.value)
    // an accepted one adds to the session's cart, and only to it
    && (outcome == Rendered ==>
          && Carts.Add(cart.value, productParam.value, ToI(quantityParam), now).Some?
          && after[session'.value] == Carts.Add(cart.value, productParam.value, ToI(quantityParam), now).value
          && (forall id :: id in before && id != session'.value ==> after[id] == before[id]))
  }

  /** `load_or_build_cart!`: with a cart id in the session, looks it up
      (`find_by`, so a missing cart gives nil rather than an error) and
      creates nothing; with none, creates a cart and stores its id in the
      session. */
  method LoadOrBuildCart(store: Store, session: Option<CartId>, now: Time)
    returns (cart: Option<CartId>, session': Option<CartId>)
    requires store.Valid()
    modifies store
    ensures store.Valid()
    ensures NeverUnabandons(old(store.carts), store.carts)
    ensures NoIdReused(old(store.carts), old(store.nextId), store.carts, store.nextId)
    ensures session'.Some? && (session.Some? ==> session' == session)
    ensures cart.Some? ==> cart == session' && cart.value in store.carts
    ensures cart.Some? <==> session == None || session.value in old(store.carts)
    ensures session.Some? ==> store.carts == old(store.carts)
    ensures session == None ==>
      session'.value !in old(store.carts) && store.carts == old(store.carts)[session'.value := NewCart(None, None, now)]
    ensures cart.Some? ==> LoadedCart(old(store.carts), session, now) == Some(store.carts[cart.value])
    ensures cart == None ==> LoadedCart(old(store.carts), session, now) == None
  {
    if session.Some? {
      session' := session;
      cart := if session.value in store.carts then session else None;
    } else {
      var id := store.Create(None, None, now);
      session' := Some(id);
      cart := Some(id);
    }
  }

  /** The body shared by `create` and `add_item`, run on the cart the
      before-action loaded: find the product, convert the quantity with
      `to_i`, reject a non-positive one, then `@cart.add`. */
  method AddToLoadedCart(store: Store, cart: Option<CartId>, catalog: Catalog,
                         productParam: Option<ProductId>, quantityParam: Param, now: Time)
    returns (outcome: Outcome)
    requires store.Valid()
    requires cart.Some? ==> cart.value in store.carts
    modifies store
    ensures store.Valid()
    ensures NeverUnabandons(old(store.carts), store.carts)
    ensures NoIdReused(old(store.carts), old(store.nextId), store.carts, store.nextId)
    ensures outcome == (if !Finds(catalog, productParam) then ProductNotFound
                        else if ToI(quantityParam) <= 0 then InvalidQuantity
                        else if cart == None then NoCart
                        else Rendered)
    ensures outcome != Rendered ==> store.carts == old(store.carts)
    ensures outcome == Rendered ==>
      && Carts.Add(old(store.carts)[cart.value], productParam.value, ToI(quantityParam), now).Some?
      && store.carts == old(store.carts)[cart.value :=
           Carts.Add(old(store.carts)[cart.value], productParam.value, ToI(quantityParam), now).value]
  {
    if !Finds(catalog, productParam) {
      return ProductNotFound;
    }
    var quantity := ToI(quantityParam);
    if quantity <= 0 {
      return InvalidQuantity;
    }
    if cart == None {
      return NoCart;
    }
    var c := store.carts[cart.value];
    if productParam.value in Products(c.items) {
      var q := QuantityOf(c.items, productParam.value).value;
      QuantityOfUnique(c.items, productParam.value, q);
    }
    var added := store.Add(cart.value, productParam.value, quantity, now);
    assert added;
    outcome := Rendered;
  }

  /** `POST /cart` (`create`). */
  method Create(store: Store, catalog: Catalog, session: Option<CartId>,
                productParam: Option<ProductId>, quantityParam: Param, now: Time)
    returns (outcome: Outcome, session': Option<CartId>)
    requires store.Valid()
    modifies store
    ensures store.Valid()
    ensures NeverUnabandons(old(store.carts), store.carts)
    ensures NoIdReused(old(store.carts), old(store.nextId), store.carts, store.nextId)
    ensures AddItemResponse(old(store.carts), store.carts, catalog, session, session',
                            productParam, quantityParam, now, outcome)
  {
    var cart;
    cart, session' := LoadOrBuildCart(store, session, now);
    outcome := AddToLoadedCart(store, cart, catalog, productParam, quantityParam, now);
  }

  /** `POST /cart/add_item` (`add_item`). */
  method AddItem(store: Store, catalog: Catalog, session: Option<CartId>,
                 productParam: Option<ProductId>, quantityParam: Param, now: Time)
    returns (outcome: Outcome, session': Option<CartId>)
    requires store.Valid()
    modifies store
    ensures store.Valid()
    ensures NeverUnabandons(old(store.carts), store.carts)
    ensures NoIdReused(old(store.carts), old(store.nextId), store.carts, store.nextId)
    ensures AddItemResponse(old(store.carts), store.carts, catalog, session, session',
                            productParam, quantityParam, now, outcome)
  {
    var cart;
    cart, session' := LoadOrBuildCart(store, session, now);
    outcome := AddToLoadedCart(store, cart, catalog, productParam, quantityParam, now);
  }

  /** `GET /cart` (`show`): renders the loaded cart; serializing a nil cart
      fails with a server error. */
  method Show(store: Store, session: Option<CartId>, now: Time)
    returns (outcome: Outcome, session': Option<CartId>)
    requires store.Valid()
    modifies store
    ensures store.Valid()
    ensures NeverUnabandons(old(store.carts), store.carts)
    ensures NoIdReused(old(store.carts), old(store.nextId), store.carts, store.nextId)
    ensures session'.Some? && (session.Some? ==> session' == session)
    ensures outcome == (if LoadedCart(old(store.carts), session, now) == None then NoCart else Rendered)
    ensures session.Some? ==> store.carts == old(store.carts)
    ensures session == None ==>
      session'.value !in old(store.carts) && store.carts == old(store.carts)[session'.value := NewCart(None, None, now)]
  {
    var cart;
    cart, session' := LoadOrBuildCart(store, session, now);
    outcome := if cart == None then NoCart else Rendered;
  }

  /** `DELETE /cart/:product_id` (`remove_item`): finds the product, answers
      404 when the cart holds no line item for it, else destroys that line
      item and marks the cart as interacted. */
  method RemoveItem(store: Store, catalog: Catalog, session: Option<CartId>,
                    productParam: Option<ProductId>, now: Time)
    returns (outcome: Outcome, session': Option<CartId>)
    requires store.Valid()
    modifies store
    ensures store.Valid()
    ensures NeverUnabandons(old(store.carts), store.carts)
    ensures NoIdReused(old(store.carts), old(store.nextId), store.carts, store.nextId)
    ensures session'.Some? && (session.Some? ==> session' == session)
    ensures session == None ==>
      session'.value !in old(store.carts) && store.carts == old(store.carts)[session'.value := NewCart(None, None, now)]
    ensures store.carts.Keys == old(store.carts).Keys + (if session == None then {session'.value} else {})
    ensures
      var cart := LoadedCart(old(store.carts), session, now);
      outcome == (if !Finds(catalog, productParam) then ProductNotFound
                  else if cart == None then NoCart
                  else if productParam.value !in Products(cart.value.items) then NotInCart
                  else Rendered)
    ensures outcome != Rendered ==> forall id :: id in old(store.carts) ==> store.carts[id] == old(store.carts)[id]
    ensures outcome == Rendered ==>
      var c := old(store.carts)[session'.value];
      && store.carts == old(store.carts)[session'.value :=
           c.(items := Without(c.items, productParam.value), lastInteractionAt := now)]
      && Products(store.carts[session'.value].items) == Products(c.items) - {productParam.value}
      && |store.carts[session'.value].items| == |c.items| - 1
  {
    var cart;
    cart, session' := LoadOrBuildCart(store, session, now);
    if !Finds(catalog, productParam) {
      return ProductNotFound, session';
    }
    if cart == None {
      return NoCart, session';
    }
    var product := productParam.value;
    if product !in Products(store.carts[cart.value].items) {
      return NotInCart, session';
    }
    WithoutEffect(store.carts[cart.value].items, product);
    store.DestroyItem(cart.value, product);
    store.MarkAsInteracted(cart.value, now);
    outcome := Rendered;
  }

  /** An accepted `add_item` on an existing cart accumulates: the product's
      quantity becomes its old quantity (0 if new) plus the parsed quantity,
      and the total rises by that quantity times the current price. With a
      quantity of 2 onto a line item of 1, the result is 3. */
  lemma AddItemAccumulates(before: map<CartId, Cart>, after: map<CartId, Cart>,
                           catalog: Catalog, id: CartId, session': Option<CartId>,
                           productParam: Option<ProductId>, quantityParam: Param, now: Time)
    requires id in before && WellFormed(before[id].items)
    requires AddItemResponse(before, after, catalog, Some(id), session', productParam, quantityParam, now, Rendered)
    ensures id in after
    ensures QuantityOf(after[id].items, productParam.value) == Some(
      (if productParam.value in Products(before[id].items) then QuantityOf(before[id].items, productParam.value).value else 0)
      + ToI(quantityParam))
    ensures TotalPrice(after[id].items, catalog) ==
      TotalPrice(before[id].items, catalog) + ToI(quantityParam) * PriceOf(catalog, productParam.value)
  {
    AddSpec(before[id], productParam.value, ToI(quantityParam), now);
    AddRaisesTotal(before[id], productParam.value, ToI(quantityParam), now, catalog);
  }

  /** A session whose cart the sweep destroyed still names that cart, and no
      later operation hands that id out again, so from then on every action
      on the session finds `@cart` nil: `show` fails, and `add_item` with a
      known product and a positive quantity fails too. `after` is the store
      at any later point, reached by operations that each keep
      `NoIdReused` (every `Store` method, `perform` and every action do). */
  lemma PurgedSessionCart(carts: map<CartId, Cart>, next: CartId, id: CartId, now: Time,
                          after: map<CartId, Cart>, afterNext: CartId, later: Time)
    requires forall k :: k in carts ==> k < next
    requires id in carts && PurgeDue(carts[id], now)
    requires NoIdReused(Sweep(carts, now), next, after, afterNext)
    ensures LoadedCart(after, Some(id), later) == None
  {
    SweepEffect(carts, now);
    assert id < next && id !in Sweep(carts, now);
  }
}
