# Shopping cart with abandonment sweep, modelled in Dafny

This project models the core of a session-scoped shopping cart service, a
Rails application. A cart holds line items, one per product. It records when
it was last touched (`last_interaction_at`) and when it was marked abandoned
(`abandoned_at`, nil while the cart is active). Clients add and remove
products through a controller that finds the session's cart, or creates
one. A periodic job marks carts idle for more than 3 hours as abandoned. The
same job destroys carts abandoned more than 7 days ago, with their line
items.

Modules, one per source file:

- `Carts` (`cart.dfy`), for `app/models/cart.rb`. The cart record and its
  line items as values. Also the pure reads (`total_price`, `abandoned?`)
  and the value each write produces (`add`, removing a line item,
  `init_last_interaction`). The lemmas about them live here.
- `CartStore` (`cart_store.dfy`), also for `app/models/cart.rb`. The
  `carts` table as a class `Store`: a map from cart id to cart record, plus
  the next id to assign. Its methods are the writes of `cart.rb`: `create!`
  with `init_last_interaction`, `add`, `mark_as_interacted`,
  `mark_as_abandoned`, `destroy!` with its cascade, and
  `remove_if_abandoned`. Each method's `ensures` gives the whole new store.
  `Valid()` keeps every cart's line items well formed: one per product,
  every quantity positive.
- `AbandonmentJob` (`abandonment_job.dfy`), for
  `app/sidekiq/mark_cart_as_abandoned_job.rb`. `Perform` runs the two passes
  as two loops over the store. It is proved equal to `Sweep`, the
  composition of `MarkPass` and `PurgePass`, and the lemmas state what a run
  guarantees.
- `Params` (`params.dfy`). Ruby's `to_i` on the `quantity` parameter.
- `CartsController` (`carts_controller.rb` becomes `carts_controller.dfy`).
  The actions `create`, `add_item`, `show` and `remove_item`, each after the
  `load_or_build_cart!` before-action. Each returns an `Outcome` (mapped to
  200/404/422/500 by `StatusCode`) and the session's `cart_id`.
- `Clock` and `Optional`. Time as whole seconds, the 3-hour and 7-day
  constants, and `Option` for Ruby's `nil`.

The product catalogue is a read-only map from product id to a price in
cents (`Catalog`). Each request and each run of the job takes one `now`
parameter. That one value stands for every `Time.current` the source reads
while handling it (see "## Left out").

Behaviour of the code that the model keeps:

- `total_price` joins each line item against the product's current price.
  A price change in the catalogue changes the total of a standing cart.
- `mark_as_abandoned` overwrites `abandoned_at` every time. Only the job's
  `abandoned_at: nil` filter keeps a second run from moving it.
- Nothing ever clears `abandoned_at`. A cart that is used again after being
  marked stays abandoned. It is destroyed 7 days after the mark, however
  recently it was touched.
- In `create` and `add_item`, `Product.find` runs before the quantity
  check. An unknown product gives 404 even when the quantity is 0.
- `load_or_build_cart!` runs before any validation. A request without a
  cart in its session creates a cart even when it then fails with 404 or
  422.
- A session `cart_id` that no longer resolves leaves `@cart` nil instead of
  creating a cart. The first call on it fails with a server error (500,
  `NoCart`). This is what a session sees once the job has destroyed its
  cart. `create!` never hands out an id twice, so the session never finds
  a cart again (`CartsController.PurgedSessionCart`).
- `remove_item` with a product missing from the catalogue fails in
  `Product.find` (404 with the not-found message), before the
  "product do not exist in cart" check.

## Model

| member | source | states |
|---|---|---|
| `Carts.IndexOf` | app/models/cart.rb:28 | the lookup finds the first line item of the product, or reports none exactly when the cart holds no line item for it |
| `Carts.QuantityOf` | app/models/cart.rb:28 | the quantity found is that of a line item the cart holds for the product, and one is found exactly when the cart holds the product |
| `Carts.QuantityOfUnique` | app/models/cart.rb:28 | with one line item per product, the lookup returns q exactly when the line item (product, q) is stored |
| `Carts.PutEffect` | app/models/cart.rb:28-38 | writing a product's line item keeps products unique, gives the product exactly the written quantity, adds a line item only for a new product and leaves every other line item as it was |
| `Carts.AddSpec` | app/models/cart.rb:27-40 | `add` succeeds exactly when the resulting quantity is positive. A new product gets one new line item with the given quantity, so the count grows by 1. A held product gets old + delta. Every other line item is unchanged, the cart stays well formed, `last_interaction_at` becomes now and `abandoned_at` is untouched |
| `Carts.AddTwice` | app/models/cart.rb:29-34 | two adds of positive quantities of the same product both succeed and accumulate: the quantity ends at old (or 0) + d1 + d2 |
| `Carts.AddRaisesTotal` | app/models/cart.rb:21-25 | a successful `add` raises `total_price` by exactly delta × the product's current price |
| `Carts.TotalAfterPut` | app/models/cart.rb:21-25 | writing a line item changes the total by the new line total minus the old one, at the current price |
| `Carts.TotalPriceConcat` | app/models/cart.rb:21-25 | the total of a concatenation of line items is the sum of the totals |
| `Carts.TotalPriceNonNegative` | app/models/cart.rb:5 | with positive quantities and non-negative prices the total is never negative, so the `total_price >= 0` validation cannot reject a stored cart |
| `Carts.WithoutEffect` | app/controllers/carts_controller.rb:36 | destroying a held product's line item removes exactly that product, shrinks the cart by one, leaves every other line item as it was and keeps the cart well formed |
| `Carts.TotalAfterWithout` | app/controllers/carts_controller.rb:36 | removing a line item lowers the total by its quantity × current price; removing the only line item leaves no products and a total of 0 |
| `Carts.InitLastInteraction` | app/models/cart.rb:48-50 | a supplied `last_interaction_at` is kept; only a missing one becomes now |
| `Carts.NewCart` | app/models/cart.rb:7 | a created cart has no line items, is well formed and has a total of 0 under every catalogue; its `last_interaction_at` comes from `init_last_interaction` and its `abandoned_at` is the one supplied |
| `Carts.CartWalkThrough` | spec/requests/carts_spec.rb:132-143 | the cart holds the seeded line item of product 1 with quantity 1 at 10.00 (total 10.00); adding 2 gives quantity 3 and total 30.00; removing the product leaves no line items and a total of 0 |
| `Carts.NewQuantity` | app/models/cart.rb:29-34 | definition: the delta for a product the cart does not hold, old quantity + delta otherwise; its properties are in `Carts.AddSpec` |
| `Carts.Put` | app/models/cart.rb:28-38 | definition: overwrite the product's line item in place, or append a new one; its properties are in `Carts.PutEffect` |
| `Carts.SaveLineItem` | app/models/cart.rb:28-38 | the imperative find-or-initialize, quantity check and save succeeds exactly when the new quantity is positive, and then yields `Put` of that quantity |
| `Carts.Add` | app/models/cart.rb:27-40 | definition: `None` (raised, nothing saved) for a non-positive new quantity, else the line item written and `last_interaction_at` set to now; its properties are in `Carts.AddSpec`, `Carts.AddTwice` and `Carts.AddRaisesTotal` |
| `Carts.Without` | app/controllers/carts_controller.rb:36 | definition: the line items with the product's one dropped; its properties are in `Carts.WithoutEffect` |
| `Carts.TotalPrice` | app/models/cart.rb:21-25 | definition: the sum of quantity × current price over the line items; its properties are in `Carts.TotalPriceConcat`, `Carts.TotalAfterPut` and `Carts.TotalAfterWithout` |
| `Carts.IsAbandoned` | app/models/cart.rb:17-19 | definition: `abandoned_at` is set; `Store.MarkAsAbandoned` establishes it and no operation clears it (`NeverUnabandons`) |
| `Carts.IdleDue` | app/sidekiq/mark_cart_as_abandoned_job.rb:8-9 | definition: active, and last touched strictly more than 3 hours before now; used by `AbandonmentJob.MarkPass` |
| `Carts.PurgeDue` | app/models/cart.rb:43 | definition: abandoned strictly more than 7 days before now; the selection of `remove_if_abandoned` and of the job's second pass |
| `CartStore.Store.Create` | app/models/cart.rb:7 | `create!` inserts one cart under the next id, which is greater than every id handed out before, so a destroyed cart's id is never reused (`NoIdReused`). The cart count grows by 1, `init_last_interaction` is applied, and every other cart is kept |
| `CartStore.Store.MarkAsInteracted` | app/models/cart.rb:9-11 | only that cart's `last_interaction_at` changes, to now; no cart becomes active again |
| `CartStore.Store.MarkAsAbandoned` | app/models/cart.rb:13-15 | only that cart's `abandoned_at` changes, to now, whatever it was before |
| `CartStore.Store.Add` | app/models/cart.rb:27-40 | the store changes exactly as `Carts.Add` says when the resulting quantity is positive; otherwise it raises and nothing at all is saved. No cart becomes active again |
| `CartStore.Store.DestroyItem` | app/controllers/carts_controller.rb:36 | only that cart's line item for the product is deleted |
| `CartStore.Store.Destroy` | app/models/cart.rb:2 | the cart and all its line items are gone and every other cart is unchanged; no id is freed for reuse |
| `CartStore.Store.RemoveIfAbandoned` | app/models/cart.rb:42-44 | the cart is destroyed exactly when `abandoned_at` is set and strictly earlier than now − 7 days, which is the job's purge selection; otherwise nothing changes |
| `AbandonmentJob.MarkPass` | app/sidekiq/mark_cart_as_abandoned_job.rb:8-10 | the first pass gives every selected cart `abandoned_at = now`, strictly more than 3 hours after its last interaction. Every unselected cart is unchanged. No cart's line items or `last_interaction_at` change, and no cart is added or removed |
| `AbandonmentJob.PurgePass` | app/sidekiq/mark_cart_as_abandoned_job.rb:14-16 | the second pass keeps exactly the carts not abandoned more than 7 days ago, each unchanged, and adds none |
| `AbandonmentJob.Sweep` | app/sidekiq/mark_cart_as_abandoned_job.rb:4-17 | definition: the purge pass after the mark pass at the same now; its properties are in `AbandonmentJob.SweepEffect` and `AbandonmentJob.SweepIdempotent` |
| `AbandonmentJob.MarkPassSelection` | app/sidekiq/mark_cart_as_abandoned_job.rb:8-9 | the first pass never overwrites a set `abandoned_at`. A cart touched 3 hours ago or less is not marked, including exactly 3 hours (strict `<`) |
| `AbandonmentJob.SweepEffect` | app/sidekiq/mark_cart_as_abandoned_job.rb:4-17 | after a run, every active cart idle for more than 3h survives, marked at now. An active cart touched within 3h survives unchanged. No active cart is deleted. A cart abandoned more than 7 days ago is gone, with its items. One abandoned at most 7 days ago survives unchanged. A cart marked in the first pass is not purged by the second. No cart is created and none becomes active again |
| `AbandonmentJob.SweepIdempotent` | app/sidekiq/mark_cart_as_abandoned_job.rb:4-17 | a second run at the same instant changes nothing |
| `AbandonmentJob.JobSpecScenario` | spec/sidekiq/mark_cart_as_abandoned_job_spec.rb:5-30 | of carts touched 2h and 5h ago and abandoned 3 and 8 days ago, the run marks the 5h one, keeps the 2h and 3-day ones and destroys the 8-day one |
| `AbandonmentJob.Perform` | app/sidekiq/mark_cart_as_abandoned_job.rb:4-17 | the job leaves the store equal to `Sweep` of the store before it, the mark pass followed by the purge pass at the same `now`. No abandoned cart becomes active again and no id is reused |
| `AbandonmentJob.MarkIdleCarts` | app/sidekiq/mark_cart_as_abandoned_job.rb:8-10 | marking the selected carts one by one, in any order, yields `MarkPass` of the store before |
| `AbandonmentJob.DestroyStaleCarts` | app/sidekiq/mark_cart_as_abandoned_job.rb:14-16 | destroying the selected carts one by one, in any order, yields `PurgePass` of the store before |
| `Params.ToI` | app/controllers/carts_controller.rb:7 | definition: `nil.to_i` is 0, an integer is itself, text goes through `String#to_i`; its properties are in `Params.ToIRoundTrip` and `Params.ToINonNumeric` |
| `Params.StringToI` | app/controllers/carts_controller.rb:7 | definition: skip white space, read an optional sign, then the leading digits (single underscores between digits allowed) |
| `Params.DigitRun` | app/controllers/carts_controller.rb:7 | `to_i` reads only decimal digits, and reads none when the text does not start with one |
| `Params.ToIRoundTrip` | app/controllers/carts_controller.rb:22 | `to_i` reads back every integer written as text, negative ones included |
| `Params.ToINonNumeric` | app/controllers/carts_controller.rb:7 | a missing quantity, text that does not start with a sign or digit after white space, and a sign without a digit all read as 0 |
| `CartsController.LoadedCart` | app/controllers/carts_controller.rb:49-55 | definition: the session's cart if it still exists, nil if the session names a cart that is gone, a new empty cart when the session names none |
| `CartsController.AddItemResponse` | app/controllers/carts_controller.rb:20-27 | definition of what `create` and `add_item` promise: the outcome order (404, 422, 500, 200), the session, and the whole new store on every path |
| `CartsController.LoadOrBuildCart` | app/controllers/carts_controller.rb:48-56 | with no cart id in the session, one new empty cart is created and its id stored in the session. With an id, nothing is created: the cart is used if it exists, and `@cart` is nil if it does not |
| `CartsController.AddToLoadedCart` | app/controllers/carts_controller.rb:21-26 | the product lookup comes first (404), then the `to_i` quantity check (422), then the nil cart (500). Only the last case, 200, changes the store, exactly by `add`, whose quantity check cannot fail there (the column's range check on save is not modelled, see "## Left out") |
| `CartsController.Create` | app/controllers/carts_controller.rb:5-12 | as `AddItem`: same checks in the same order, same effect on the store and the session |
| `CartsController.AddItem` | app/controllers/carts_controller.rb:20-27 | 404 for an unknown product even with quantity 0. 422 for a quantity `to_i` makes ≤ 0, including a missing or non-numeric one. 500 for a session cart that is gone. Otherwise 200, with the quantity added to the session's cart. A rejected request changes no existing cart; a cart with no session gets created anyway. No abandoned cart becomes active again and no id is reused |
| `CartsController.AddItemAccumulates` | app/controllers/carts_controller.rb:25-26 | an accepted `add_item` makes the product's quantity old (or 0) + the parsed quantity, e.g. 1 + 2 = 3, and raises the total by that quantity × price |
| `CartsController.Show` | app/controllers/carts_controller.rb:15-17 | renders the loaded cart (200), or fails with 500 when the session's cart is gone; creates a cart only when the session has none. No abandoned cart becomes active again and no id is reused |
| `CartsController.RemoveItem` | app/controllers/carts_controller.rb:30-40 | 404 for an unknown product. 500 for a session cart that is gone. 404 "product do not exist in cart" with no existing cart changed. Otherwise 200: exactly that product's line item is deleted and `last_interaction_at` becomes now. With no cart in the session the before-action's new empty cart is the only change, and the request ends in 404. No action makes an abandoned cart active again or reuses an id |
| `CartsController.PurgedSessionCart` | app/controllers/carts_controller.rb:49-50 | once the job has destroyed a session's cart, the session's `cart_id` resolves to no cart in every later store reached by operations that reuse no id |

## Left out

- HTTP rendering, JSON bodies and routes are left out. Responses are reduced to an `Outcome` and its status code. `ActionController::ParameterMissing` (400) cannot arise, because `permit` never raises it.
- The cart serializer is left out. It is response shaping, and it turns money into floats; the model keeps money as integer cents. `Rendered` (200) assumes that every product in the cart is still in the catalogue. Otherwise the serializer calls `price` on a nil product and the source answers 500.
- ActiveRecord query building, SQL `sum`, `find_each` batching and `includes` are left out. The store is a map, `total_price` a recursive sum, and each pass of the job a loop over the ids it selected.
- Job scheduling and the Sidekiq web mount are left out. `now` is a parameter.
- Concurrency is left out: the race between the sweep's scan and concurrent requests, and any locking. Each operation is atomic.
- Session and cookie mechanics are left out, beyond the one `cart_id` value passed in and handed back.
- The product id parameter is taken after ActiveRecord has cast it to an integer (it reads text such as "1abc" as 1). A missing id is `None`, which `Product.find` answers with 404.
- Time is whole seconds in UTC. With another zone, `7.days.ago` counts calendar days across a daylight-saving change; that is not modelled.
- Catalogue prices are non-negative (`nat`). A line item whose product is not in the catalogue adds 0 to the total. The outer join of `includes` keeps its row with a NULL price, and SQL `SUM` skips it. So the `total_price >= 0` validation never fails, and its failure path in `update!` and `create!` is not modelled (`Carts.TotalPriceNonNegative`).
- `Carts.Add` does not model a partial failure. The source saves the line item and then stamps the time in a separate `update!`. That second write can fail only through the validation above, so the model treats `add` as one write.
- `Carts.Add`, `Carts.SaveLineItem`, `Carts.AddSpec`, `Carts.AddTwice`, `CartStore.Store.Add`, `CartsController.AddToLoadedCart`, `CartsController.AddItemResponse`, `CartsController.AddItem` and `CartsController.Create` treat a quantity as an unbounded integer. The source's `cart_items.quantity` is an integer column whose width the schema fixes, and the schema is not part of this model. `item.save!` raises `ActiveModel::RangeError` for a new quantity above the column maximum. Nothing rescues it, so the source answers 500 and saves nothing, while the model adds the quantity and answers 200.
- `Params.ToI` does not model three things. A float parameter (`2.5.to_i`, floating point) is left out. The `0d` decimal prefix that `String#to_i` accepts is left out. A JSON `true` or `false`, which `permit` lets through, is left out too: `true.to_i` raises `NoMethodError`, nothing rescues it, and the source answers 500.
- `AbandonmentJob.MarkPass`, `AbandonmentJob.SweepEffect`, `AbandonmentJob.JobSpecScenario` and `AbandonmentJob.Perform` use one clock reading per run. The job reads `now` once for its filters. Each `mark_as_abandoned` stamps its own `Time.current`, so in the source the stamp is at or after `now`, not equal to it.
- `CartsController.AddItem`, `CartsController.Create` and `CartsController.RemoveItem` use one clock reading per request. In the source the `Cart.create!` of the before-action and the later `mark_as_interacted` read the clock separately.
