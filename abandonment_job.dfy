/** `MarkCartAsAbandonedJob#perform` (app/sidekiq/mark_cart_as_abandoned_job.rb):
    one run of the abandonment sweep at a single instant `now`. The first
    pass marks every active cart idle for more than 3 hours; the second
    destroys every cart abandoned more than 7 days ago. */
module AbandonmentJob {
  import opened Optional
  import opened Clock
  import opened Carts
  import opened CartStore

  /** The store after the first pass: every cart the pass selects gets
      `abandoned_at = now`; every other cart is as it was. */
  function MarkPass(carts: map<CartId, Cart>, now: Time): (r: map<CartId, Cart>)
    ensures r.Keys == carts.Keys
    ensures forall id :: id in carts && IdleDue(carts[id], now) ==> r[id].abandonedAt == Some(now)
    ensures forall id :: id in carts && !IdleDue(carts[id], now) ==> r[id] == carts[id]
    ensures forall id :: id in carts ==>
      r[id].items == carts[id].items && r[id].lastInteractionAt == carts[id].lastInteractionAt
    ensures forall id :: id in carts && IdleDue(carts[id], now) ==>
      r[id].abandonedAt.value > r[id].lastInteractionAt + IdleLimit
  {
    map id | id in carts :: if IdleDue(carts[id], now) then carts[id].(abandonedAt := Some(now)) else carts[id]
  }

  /** The store after the second pass: the carts it selects are gone, with
      their line items; every other cart is as it was. */
  function PurgePass(carts: map<CartId, Cart>, now: Time): (r: map<CartId, Cart>)
    ensures r.Keys <= carts.Keys
    ensures forall id :: id in carts ==> (id in r <==> !PurgeDue(carts[id], now))
    ensures forall id :: id in r ==> r[id] == carts[id]
  {
    map id | id in carts && !PurgeDue(carts[id], now) :: carts[id]
  }

  /** The store after one whole run of the job. */
  function Sweep(carts: map<CartId, Cart>, now: Time): map<CartId, Cart>
  {
    PurgePass(MarkPass(carts, now), now)
  }

  /** The first pass never overwrites an `abandoned_at` that is already set,
      marks a cart only after strictly more than 3 hours without
      interaction (exactly 3 hours is not enough), and leaves the store's
      ids, every cart's line items and every `last_interaction_at` alone. */
  lemma MarkPassSelection(carts: map<CartId, Cart>, now: Time, id: CartId)
    requires id in carts
    ensures carts[id].abandonedAt.Some? ==> MarkPass(carts, now)[id] == carts[id]
    ensures carts[id].lastInteractionAt >= now - IdleLimit ==> MarkPass(carts, now)[id] == carts[id]
    ensures carts[id].lastInteractionAt == now - 3 * Hour ==> MarkPass(carts, now)[id].abandonedAt == carts[id].abandonedAt
    ensures carts[id].abandonedAt == None && carts[id].lastInteractionAt < now - 3 * Hour ==>
      MarkPass(carts, now)[id] == carts[id].(abandonedAt := Some(now))
  {
  }

  /** What one run guarantees about each cart:
      - an active cart idle for more than 3 hours survives, now abandoned at `now`;
      - an active cart that was touched within the last 3 hours survives unchanged;
      - no active cart is ever deleted;
      - a cart abandoned more than 7 days ago is gone, with its line items;
      - a cart abandoned at most 7 days ago survives unchanged;
      - a cart marked by the first pass is not destroyed by the second;
      - no cart is created and no abandoned cart becomes active again. */
  lemma SweepEffect(carts: map<CartId, Cart>, now: Time)
    ensures Sweep(carts, now).Keys <= carts.Keys
    ensures forall id :: id in carts && IdleDue(carts[id], now) ==>
      id in Sweep(carts, now) && Sweep(carts, now)[id] == carts[id].(abandonedAt := Some(now))
    ensures forall id :: id in carts && carts[id].abandonedAt == None && carts[id].lastInteractionAt >= now - IdleLimit ==>
      id in Sweep(carts, now) && Sweep(carts, now)[id] == carts[id]
    ensures forall id :: id in carts && carts[id].abandonedAt == None ==> id in Sweep(carts, now)
    ensures forall id :: id in carts && PurgeDue(carts[id], now) ==> id !in Sweep(carts, now)
    ensures forall id :: id in carts && carts[id].abandonedAt.Some? && carts[id].abandonedAt.value >= now - PurgeAge ==>
      id in Sweep(carts, now) && Sweep(carts, now)[id] == carts[id]
    ensures forall id :: id in carts && MarkPass(carts, now)[id] != carts[id] ==> id in Sweep(carts, now)
    ensures NeverUnabandons(carts, Sweep(carts, now))
  {
  }

  /** After a run, no surviving cart is selected by either pass: a second
      run at the same instant changes nothing. */
  lemma SweepIdempotent(carts: map<CartId, Cart>, now: Time)
    ensures Sweep(Sweep(carts, now), now) == Sweep(carts, now)
  {
    var s := Sweep(carts, now);
    assert forall id :: id in s ==> !IdleDue(s[id], now) && !PurgeDue(s[id], now);
    assert MarkPass(s, now) == s;
  }

  /** The scenario of spec/sidekiq/mark_cart_as_abandoned_job_spec.rb: a
      cart touched 2 hours ago stays active, one touched 5 hours ago is
      marked, one abandoned 3 days ago survives and one abandoned 8 days
      ago is destroyed. */
  lemma JobSpecScenario(now: Time)
    ensures var carts := map[
        1 := Cart([], now - 2 * Hour, None),
        2 := Cart([], now - 5 * Hour, None),
        3 := Cart([], now - 5 * Day, Some(now - 3 * Day)),
        4 := Cart([], now - 10 * Day, Some(now - 8 * Day))];
      Sweep(carts, now) == map[
        1 := carts[1],
        2 := carts[2].(abandonedAt := Some(now)),
        3 := carts[3]]
  {
    var carts := map[
        1 := Cart([], now - 2 * Hour, None),
        2 := Cart([], now - 5 * Hour, None),
        3 := Cart([], now - 5 * Day, Some(now - 3 * Day)),
        4 := Cart([], now - 10 * Day, Some(now - 8 * Day))];
    assert Sweep(carts, now).Keys == {1, 2, 3};
  }

  /** `perform`: both passes over the store at one instant `now`. */
  method Perform(store: Store, now: Time)
    requires store.Valid()
    modifies store
    ensures store.Valid() && store.nextId == old(store.nextId)
    ensures store.carts == Sweep(old(store.carts), now)
    ensures NeverUnabandons(old(store.carts), store.carts)
    ensures NoIdReused(old(store.carts), old(store.nextId), store.carts, store.nextId)
  {
    MarkIdleCarts(store, now);
    DestroyStaleCarts(store, now);
    SweepEffect(old(store.carts), now);
  }

  /** First pass: selects the active carts idle for more than 3 hours, then
      marks them abandoned one by one, in an order the model leaves open. */
  method MarkIdleCarts(store: Store, now: Time)
    requires store.Valid()
    modifies store
    ensures store.Valid() && store.nextId == old(store.nextId)
    ensures store.carts == MarkPass(old(store.carts), now)
  {
    ghost var start := store.carts;
    var idle := set id | id in store.carts && IdleDue(store.carts[id], now);
    var pending := idle;
    while pending != {}
      invariant store.Valid() && store.nextId == old(store.nextId)
      invariant pending <= idle
      invariant store.carts.Keys == start.Keys
      invariant forall id :: id in start ==>
        store.carts[id] == if id in idle && id !in pending then start[id].(abandonedAt := Some(now)) else start[id]
      decreases pending
    {
      var id :| id in pending;
      store.MarkAsAbandoned(id, now);
      pending := pending - {id};
    }
  }

  /** Second pass: selects the carts abandoned more than 7 days ago, then
      destroys them one by one, with their line items. */
  method DestroyStaleCarts(store: Store, now: Time)
    requires store.Valid()
    modifies store
    ensures store.Valid() && store.nextId == old(store.nextId)
    ensures store.carts == PurgePass(old(store.carts), now)
  {
    ghost var start := store.carts;
    var stale := set id | id in store.carts && PurgeDue(store.carts[id], now);
    var pending := stale;
    while pending != {}
      invariant store.Valid() && store.nextId == old(store.nextId)
      invariant pending <= stale
      invariant store.carts == map id | id in start && (id !in stale || id in pending) :: start[id]
      decreases pending
    {
      var id :| id in pending;
      store.Destroy(id);
      pending := pending - {id};
    }
  }
}
