/** The Cart aggregate (app/models/cart.rb) at the level of values: the cart
    record, its line items, and the pure reads and updates that the
    store's methods are specified by. */
module Carts {
  import opened Optional
  import opened Clock

  type ProductId = int
  type CartId = nat

  /** The product catalogue, read-only: product id to unit price in cents. */
  type Catalog = map<ProductId, nat>

  /** One `cart_items` row of a cart. */
  datatype LineItem = LineItem(product: ProductId, quantity: int)

  /** One `carts` row together with the `cart_items` rows it owns
      (`has_many :cart_items, dependent: :destroy`). The rows are kept in
      insertion order; because they live inside the record, deleting the
      record deletes them with it. */
  datatype Cart = Cart(items: seq<LineItem>, lastInteractionAt: Time, abandonedAt: Option<Time>)

  function Products(items: seq<LineItem>): set<ProductId>
  {
    set i | 0 <= i < |items| :: items[i].product
  }

  /** At most one line item per product. */
  predicate UniqueProducts(items: seq<LineItem>)
  {
    forall i, j :: 0 <= i < j < |items| ==> items[i].product != items[j].product
  }

  predicate PositiveQuantities(items: seq<LineItem>)
  {
    forall i :: 0 <= i < |items| ==> items[i].quantity > 0
  }

  /** What every stored cart's line items satisfy. */
  predicate WellFormed(items: seq<LineItem>)
  {
    UniqueProducts(items) && PositiveQuantities(items)
  }

  lemma ProductsConcat(a: seq<LineItem>, b: seq<LineItem>)
    ensures Products(a + b) == Products(a) + Products(b)
  {
    forall p | p in Products(a + b) ensures p in Products(a) + Products(b) {
      var i :| 0 <= i < |a + b| && (a + b)[i].product == p;
      if i >= |a| { assert b[i - |a|].product == p; }
    }
    forall p | p in Products(a) ensures p in Products(a + b) {
      var i :| 0 <= i < |a| && a[i].product == p;
      assert (a + b)[i].product == p;
    }
    forall p | p in Products(b) ensures p in Products(a + b) {
      var i :| 0 <= i < |b| && b[i].product == p;
      assert (a + b)[|a| + i].product == p;
    }
  }

  lemma ProductsSingleton(x: LineItem)
    ensures Products([x]) == {x.product}
  {
    assert [x][0].product == x.product;
  }

  /** `cart_items.find_by(product_id: p)`: the position of the first line
      item for `p`, or None when the cart has no line item for it. */
  function IndexOf(items: seq<LineItem>, p: ProductId): (r: Option<nat>)
    ensures r.Some? ==> r.value < |items| && items[r.value].product == p
    ensures r.Some? ==> forall j :: 0 <= j < r.value ==> items[j].product != p
    ensures r.None? <==> p !in Products(items)
  {
    if |items| == 0 then None
    else if items[0].product == p then Some(0)
    else
      assert items == [items[0]] + items[1..];
      ProductsConcat([items[0]], items[1..]);
      match IndexOf(items[1..], p)
      case None => None
      case Some(k) => Some(k + 1)
  }

  /** The quantity of the line item for `p`, or None when there is none. */
  function QuantityOf(items: seq<LineItem>, p: ProductId): (r: Option<int>)
    ensures r.Some? <==> p in Products(items)
    ensures r.Some? ==> LineItem(p, r.value) in items
  {
    match IndexOf(items, p)
    case None => None
    case Some(i) => Some(items[i].quantity)
  }

  /** With one line item per product, the quantity lookup finds exactly the
      line item stored for the product. */
  lemma QuantityOfUnique(items: seq<LineItem>, p: ProductId, q: int)
    requires UniqueProducts(items)
    ensures QuantityOf(items, p) == Some(q) <==> LineItem(p, q) in items
  {
    if LineItem(p, q) in items {
      var i :| 0 <= i < |items| && items[i] == LineItem(p, q);
      assert p in Products(items);
      var j := IndexOf(items, p).value;
      assert !(i < j) && !(j < i);
    }
  }

  /** The quantity `add` computes before validating it (cart.rb:29-34): the
      delta itself for a product the cart does not hold yet, the stored
      quantity plus the delta otherwise. */
  function NewQuantity(items: seq<LineItem>, p: ProductId, delta: int): int
  {
    match QuantityOf(items, p)
    case None => delta
    case Some(q) => q + delta
  }

  /** Writes the line item for `p` with quantity `n`: in place when the cart
      has one (`find_or_initialize_by` found it), appended otherwise. */
  function Put(items: seq<LineItem>, p: ProductId, n: int): seq<LineItem>
  {
    match IndexOf(items, p)
    case None => items + [LineItem(p, n)]
    case Some(i) => items[i := LineItem(p, n)]
  }

  /** `add(product:, quantity:)`: the cart after the line item is saved and the
      interaction is stamped, or None when the resulting quantity is not
      positive (`RecordInvalid` is raised before anything is saved). */
  function Add(c: Cart, p: ProductId, delta: int, now: Time): Option<Cart>
  {
    var n := NewQuantity(c.items, p, delta);
    if n <= 0 then None
    else Some(c.(items := Put(c.items, p, n), lastInteractionAt := now))
  }

  /** `cart_items.find_by!(product_id: p).destroy!`: drops the line item for `p`. */
  function Without(items: seq<LineItem>, p: ProductId): seq<LineItem>
  {
    match IndexOf(items, p)
    case None => items
    case Some(i) => items[..i] + items[i + 1..]
  }

  /** A product's current catalogue price. A line item whose product is not
      in the catalogue is kept by the outer join with a NULL price, which
      the sum skips, so it adds nothing (the serializer, not modelled here,
      would fail on such a line item). */
  function PriceOf(catalog: Catalog, p: ProductId): nat
  {
    if p in catalog then catalog[p] else 0
  }

  function LineTotal(x: LineItem, catalog: Catalog): int
  {
    x.quantity * PriceOf(catalog, x.product)
  }

  /** `total_price`: the sum of quantity × price over the line items, joined
      against the catalogue's price at the time of the read. */
  function TotalPrice(items: seq<LineItem>, catalog: Catalog): int
  {
    if |items| == 0 then 0
    else LineTotal(items[0], catalog) + TotalPrice(items[1..], catalog)
  }

  /** `abandoned?` */
  predicate IsAbandoned(c: Cart)
  {
    c.abandonedAt.Some?
  }

  /** Selection of the sweep's first pass: still active, and the last
      interaction lies strictly more than 3 hours before `now`. */
  predicate IdleDue(c: Cart, now: Time)
  {
    c.abandonedAt == None && c.lastInteractionAt < now - IdleLimit
  }

  /** Condition of `remove_if_abandoned`, and selection of the sweep's second
      pass: abandoned strictly more than 7 days before `now`. */
  predicate PurgeDue(c: Cart, now: Time)
  {
    c.abandonedAt.Some? && c.abandonedAt.value < now - PurgeAge
  }

  /** `init_last_interaction` (`before_create`, `||=`): a timestamp supplied
      to `create!` is kept; only a missing one is stamped with `now`. */
  function InitLastInteraction(given: Option<Time>, now: Time): (t: Time)
    ensures given.Some? ==> t == given.value
    ensures given == None ==> t == now
  {
    match given
    case Some(t0) => t0
    case None => now
  }

  /** The record `create!` inserts: no line items, `last_interaction_at`
      from `init_last_interaction`, `abandoned_at` as supplied. */
  function NewCart(lastInteraction: Option<Time>, abandoned: Option<Time>, now: Time): (c: Cart)
    ensures c.items == [] && WellFormed(c.items)
    ensures forall catalog :: TotalPrice(c.items, catalog) == 0
    ensures c.lastInteractionAt == InitLastInteraction(lastInteraction, now)
    ensures c.abandonedAt == abandoned
  {
    Cart([], InitLastInteraction(lastInteraction, now), abandoned)
  }

  // ---------------------------------------------------------------------
  // Line items: add, remove

  /** Writing a product's line item keeps one line item per product, gives
      the product exactly the written quantity, grows the cart by one line
      item only when the product is new, and leaves every other line item as
      it was. */
  lemma PutEffect(items: seq<LineItem>, p: ProductId, n: int)
    requires UniqueProducts(items)
    ensures UniqueProducts(Put(items, p, n))
    ensures QuantityOf(Put(items, p, n), p) == Some(n)
    ensures Products(Put(items, p, n)) == Products(items) + {p}
    ensures |Put(items, p, n)| == if p in Products(items) then |items| else |items| + 1
    ensures forall x: LineItem :: x.product != p ==> (x in Put(items, p, n) <==> x in items)
    ensures PositiveQuantities(items) && n > 0 ==> PositiveQuantities(Put(items, p, n))
  {
    var r := Put(items, p, n);
    match IndexOf(items, p) {
    case None =>
      ProductsConcat(items, [LineItem(p, n)]);
      ProductsSingleton(LineItem(p, n));
    case Some(i) =>
      assert r == items[i := LineItem(p, n)];
      assert forall k :: 0 <= k < |r| ==> r[k].product == items[k].product;
      forall q | q in Products(items) ensures q in Products(r) {
        var k :| 0 <= k < |items| && items[k].product == q;
        assert r[k].product == q;
      }
      forall x: LineItem | x.product != p ensures x in r <==> x in items {
        if x in r {
          var k :| 0 <= k < |r| && r[k] == x;
          assert items[k] == x;
        }
        if x in items {
          var k :| 0 <= k < |items| && items[k] == x;
          assert r[k] == x;
        }
      }
    }
    QuantityOfUnique(r, p, n);
  }

  /** `add` succeeds exactly when the resulting quantity is positive. A
      product the cart does not hold yet gets one new line item with the
      given quantity; a held product's quantity becomes old + delta. Either
      way every other line item is unchanged, the cart stays well formed,
      `last_interaction_at` becomes `now` and `abandoned_at` is untouched.
      When it fails the caller keeps the old cart: nothing is saved. */
  lemma AddSpec(c: Cart, p: ProductId, delta: int, now: Time)
    requires WellFormed(c.items)
    ensures Add(c, p, delta, now).Some? <==> NewQuantity(c.items, p, delta) > 0
    ensures p !in Products(c.items) ==> NewQuantity(c.items, p, delta) == delta
    ensures p in Products(c.items) ==> NewQuantity(c.items, p, delta) == QuantityOf(c.items, p).value + delta
    ensures Add(c, p, delta, now).Some? ==>
      var c' := Add(c, p, delta, now).value;
      && WellFormed(c'.items)
      && QuantityOf(c'.items, p) == Some(NewQuantity(c.items, p, delta))
      && |c'.items| == (if p in Products(c.items) then |c.items| else |c.items| + 1)
      && Products(c'.items) == Products(c.items) + {p}
      && (forall x: LineItem :: x.product != p ==> (x in c'.items <==> x in c.items))
      && c'.lastInteractionAt == now
      && c'.abandonedAt == c.abandonedAt
  {
    var n := NewQuantity(c.items, p, delta);
    PutEffect(c.items, p, n);
  }

  /** The line-item half of `add`: `find_or_initialize_by` the product,
      set the new quantity, raise (`ok` false) when it is not positive, else
      save the line item. The result is the cart's new line items. */
  method SaveLineItem(items: seq<LineItem>, p: ProductId, delta: int) returns (ok: bool, items': seq<LineItem>)
    ensures ok <==> NewQuantity(items, p, delta) > 0
    ensures ok ==> items' == Put(items, p, NewQuantity(items, p, delta))
  {
    var found := IndexOf(items, p);
    var quantity := if found == None then delta else items[found.value].quantity + delta;
    if quantity <= 0 {
      return false, items;
    }
    var item := LineItem(p, quantity);
    items' := if found == None then items + [item] else items[found.value := item];
    ok := true;
  }

  /** The part of `AddSpec` the store's invariant needs. */
  lemma AddKeepsWellFormed(c: Cart, p: ProductId, delta: int, now: Time)
    requires WellFormed(c.items) && Add(c, p, delta, now).Some?
    ensures WellFormed(Add(c, p, delta, now).value.items)
  {
    AddSpec(c, p, delta, now);
  }

  /** Two successful adds of the same product accumulate: the quantity ends
      at the old quantity (0 for a new product) plus both deltas. */
  lemma AddTwice(c: Cart, p: ProductId, d1: int, d2: int, t1: Time, t2: Time)
    requires WellFormed(c.items)
    requires d1 > 0 && d2 > 0
    ensures Add(c, p, d1, t1).Some?
    ensures Add(Add(c, p, d1, t1).value, p, d2, t2).Some?
    ensures QuantityOf(Add(Add(c, p, d1, t1).value, p, d2, t2).value.items, p) ==
      Some((if p in Products(c.items) then QuantityOf(c.items, p).value else 0) + d1 + d2)
  {
    if p in Products(c.items) {
      var q := QuantityOf(c.items, p).value;
      QuantityOfUnique(c.items, p, q);
      assert q > 0;
    }
    AddSpec(c, p, d1, t1);
    var c1 := Add(c, p, d1, t1).value;
    AddSpec(c1, p, d2, t2);
  }

  /** Removing the line item for a product the cart holds drops exactly that
      line item: the product is gone, every other line item is unchanged,
      the cart stays well formed and shrinks by one. */
  lemma WithoutEffect(items: seq<LineItem>, p: ProductId)
    requires WellFormed(items)
    requires p in Products(items)
    ensures Products(Without(items, p)) == Products(items) - {p}
    ensures |Without(items, p)| == |items| - 1
    ensures forall x: LineItem :: x.product != p ==> (x in Without(items, p) <==> x in items)
    ensures WellFormed(Without(items, p))
  {
    var i := IndexOf(items, p).value;
    assert Without(items, p) == items[..i] + items[i + 1..];
    WithoutProducts(items, i);
    CutAt(items, i);
  }

  /** Cutting out the line item at position `i` keeps every other line item,
      in order, and keeps the cart well formed. */
  lemma CutAt(items: seq<LineItem>, i: nat)
    requires WellFormed(items)
    requires i < |items|
    ensures forall x: LineItem :: x.product != items[i].product ==>
      (x in items[..i] + items[i + 1..] <==> x in items)
    ensures WellFormed(items[..i] + items[i + 1..])
  {
    var r := items[..i] + items[i + 1..];
    assert |r| == |items| - 1;
    assert forall a :: 0 <= a < |r| ==> r[a] == items[if a < i then a else a + 1];
    forall x: LineItem | x in items && x.product != items[i].product ensures x in r {
      var k :| 0 <= k < |items| && items[k] == x;
      assert r[if k < i then k else k - 1] == x;
    }
  }

  /** Cutting out the line item at position `i` of a cart with one line item
      per product removes exactly its product from the cart's products. */
  lemma WithoutProducts(items: seq<LineItem>, i: nat)
    requires UniqueProducts(items)
    requires i < |items|
    ensures Products(items[..i] + items[i + 1..]) == Products(items) - {items[i].product}
  {
    var p := items[i].product;
    assert items == items[..i] + [items[i]] + items[i + 1..];
    ProductsConcat(items[..i] + [items[i]], items[i + 1..]);
    ProductsConcat(items[..i], [items[i]]);
    ProductsConcat(items[..i], items[i + 1..]);
    ProductsSingleton(items[i]);
    var before, after := items[..i], items[i + 1..];
    forall k | 0 <= k < |before| ensures before[k].product != p {
      assert before[k] == items[k];
    }
    forall k | 0 <= k < |after| ensures after[k].product != p {
      assert after[k] == items[i + 1 + k];
    }
  }

  /** Removing a product's line item lowers the total by its line total at
      the current price; removing the only line item leaves an empty cart
      whose total is 0. */
  lemma TotalAfterWithout(items: seq<LineItem>, p: ProductId, catalog: Catalog)
    requires WellFormed(items)
    requires p in Products(items)
    ensures TotalPrice(Without(items, p), catalog) ==
      TotalPrice(items, catalog) - QuantityOf(items, p).value * PriceOf(catalog, p)
    ensures |items| == 1 ==> Without(items, p) == [] && TotalPrice(Without(items, p), catalog) == 0
  {
    var i := IndexOf(items, p).value;
    assert Without(items, p) == items[..i] + items[i + 1..];
    assert items == items[..i] + [items[i]] + items[i + 1..];
    TotalPriceConcat(items[..i] + [items[i]], items[i + 1..], catalog);
    TotalPriceConcat(items[..i], [items[i]], catalog);
    TotalPriceConcat(items[..i], items[i + 1..], catalog);
    assert TotalPrice([items[i]], catalog) == LineTotal(items[i], catalog);
  }

  // ---------------------------------------------------------------------
  // total_price

  /** The total of a concatenation is the sum of the totals. */
  lemma {:induction false} TotalPriceConcat(a: seq<LineItem>, b: seq<LineItem>, catalog: Catalog)
    ensures TotalPrice(a + b, catalog) == TotalPrice(a, catalog) + TotalPrice(b, catalog)
  {
    if |a| == 0 {
      assert a + b == b;
    } else {
      assert (a + b)[1..] == a[1..] + b;
      TotalPriceConcat(a[1..], b, catalog);
    }
  }

  /** With positive quantities and catalogue prices that are never negative,
      the total is never negative, so `validates_numericality_of
      :total_price, greater_than_or_equal_to: 0` can never reject a stored
      cart. */
  lemma {:induction false} TotalPriceNonNegative(items: seq<LineItem>, catalog: Catalog)
    requires PositiveQuantities(items)
    ensures TotalPrice(items, catalog) >= 0
  {
    if |items| > 0 {
      assert PositiveQuantities(items[1..]) by {
        forall k | 0 <= k < |items| - 1 ensures items[1..][k].quantity > 0 {
          assert items[1..][k] == items[k + 1];
        }
      }
      TotalPriceNonNegative(items[1..], catalog);
    }
  }

  /** Writing a product's line item changes the total by the difference
      between the new and the old line total, at the current price. */
  lemma TotalAfterPut(items: seq<LineItem>, p: ProductId, n: int, catalog: Catalog)
    requires UniqueProducts(items)
    ensures TotalPrice(Put(items, p, n), catalog) ==
      TotalPrice(items, catalog) + n * PriceOf(catalog, p)
        - (if p in Products(items) then QuantityOf(items, p).value * PriceOf(catalog, p) else 0)
  {
    match IndexOf(items, p)
    case None =>
      TotalPriceConcat(items, [LineItem(p, n)], catalog);
      assert TotalPrice([LineItem(p, n)], catalog) == LineTotal(LineItem(p, n), catalog);
    case Some(i) =>
      TotalPriceUpdate(items, i, LineItem(p, n), catalog);
  }

  /** Replacing one line item changes the total by the difference of the
      two line totals. */
  lemma {:induction false} TotalPriceUpdate(items: seq<LineItem>, i: nat, x: LineItem, catalog: Catalog)
    requires i < |items|
    ensures TotalPrice(items[i := x], catalog) ==
      TotalPrice(items, catalog) - LineTotal(items[i], catalog) + LineTotal(x, catalog)
  {
    if i > 0 {
      assert items[i := x][1..] == items[1..][i - 1 := x];
      TotalPriceUpdate(items[1..], i - 1, x, catalog);
    } else {
      assert items[i := x][1..] == items[1..];
    }
  }

  /** A successful `add` raises the total by exactly delta × the product's
      current price. */
  lemma AddRaisesTotal(c: Cart, p: ProductId, delta: int, now: Time, catalog: Catalog)
    requires UniqueProducts(c.items)
    requires Add(c, p, delta, now).Some?
    ensures TotalPrice(Add(c, p, delta, now).value.items, catalog) ==
      TotalPrice(c.items, catalog) + delta * PriceOf(catalog, p)
  {
    var n := NewQuantity(c.items, p, delta);
    var price := PriceOf(catalog, p);
    TotalAfterPut(c.items, p, n, catalog);
    if p in Products(c.items) {
      var q := QuantityOf(c.items, p).value;
      assert n * price - q * price == delta * price by {
        assert n == q + delta;
        assert (q + delta) * price == q * price + delta * price;
      }
    }
  }

  /** The `remove_item` walk-through of spec/requests/carts_spec.rb at the
      level of the aggregate: the cart holds the seeded line item of product
      A with quantity 1, at 10.00; adding 2 makes it 3 and the total 30.00;
      removing A leaves no line items and a total of 0. */
  lemma CartWalkThrough(a: ProductId, t0: Time, t1: Time)
    ensures var catalog := map[a := 1000];
      var c0 := Cart([LineItem(a, 1)], t0, None);
      var c1 := Add(c0, a, 2, t1);
      && TotalPrice(c0.items, catalog) == 1000
      && c1.Some? && QuantityOf(c1.value.items, a) == Some(3) && TotalPrice(c1.value.items, catalog) == 3000
      && Without(c1.value.items, a) == [] && TotalPrice(Without(c1.value.items, a), catalog) == 0
  {
    var c0 := Cart([LineItem(a, 1)], t0, None);
    assert QuantityOf(c0.items, a) == Some(1);
    var c1 := Add(c0, a, 2, t1).value;
    assert c1.items == [LineItem(a, 3)];
  }
}
