/** The pricing and loyalty rules applied when an order is created: the
    base total is the sum of the item prices; a held discount takes a fixed
    1000 off and is consumed; every third order grants the next discount;
    the customer's spending grows by the charged total. */
module Pricing {

  import opened Entities

  /** The fixed amount a held discount takes off an order. */
  const Discount: Money := 1000.0

  /** The sum of the prices of an order's items, added left to right, a
      repeated item counted each time. An order of no items costs nothing
      and an order of one item costs that item's price. */
  function PriceSum(items: seq<ClothesItem>): (r: Money)
    ensures |items| == 0 ==> r == 0.0
    ensures |items| == 1 ==> r == items[0].price
    decreases |items|
  {
    if |items| == 0 then 0.0
    else PriceSum(items[..|items| - 1]) + items[|items| - 1].price
  }

  /** When no price is negative, the base total is not negative either and
      no single item costs more than the whole order. */
  lemma {:induction false} PriceSumBounds(items: seq<ClothesItem>)
    requires forall i :: 0 <= i < |items| ==> items[i].price >= 0.0
    ensures 0.0 <= PriceSum(items)
    ensures forall i :: 0 <= i < |items| ==> items[i].price <= PriceSum(items)
    decreases |items|
  {
    if |items| > 0 {
      var n := |items| - 1;
      PriceSumBounds(items[..n]);
      assert forall i :: 0 <= i < n ==> items[..n][i] == items[i];
    }
  }

  lemma {:induction false} PriceSumAppend(a: seq<ClothesItem>, b: seq<ClothesItem>)
    ensures PriceSum(a + b) == PriceSum(a) + PriceSum(b)
    decreases |b|
  {
    if |b| == 0 {
      assert a + b == a;
    } else {
      assert (a + b)[..|a + b| - 1] == a + b[..|b| - 1];
      assert (a + b)[|a + b| - 1] == b[|b| - 1];
      PriceSumAppend(a, b[..|b| - 1]);
    }
  }

  /** Taking one item out of a list lowers the base total by its price. */
  lemma PriceSumRemove(b: seq<ClothesItem>, k: int)
    requires 0 <= k < |b|
    ensures PriceSum(b) == PriceSum(b[..k] + b[k + 1..]) + b[k].price
  {
    var upTo := b[..k + 1];
    assert upTo + b[k + 1..] == b;
    PriceSumAppend(upTo, b[k + 1..]);
    assert upTo[..k] == b[..k];
    assert PriceSum(upTo) == PriceSum(b[..k]) + b[k].price;
    PriceSumAppend(b[..k], b[k + 1..]);
  }

  /** Removing the last item of one list and an equal item of a permutation
      of it leaves two permutations. */
  lemma RemoveBoth(a: seq<ClothesItem>, b: seq<ClothesItem>, k: int)
    requires multiset(a) == multiset(b) && |a| > 0
    requires 0 <= k < |b| && b[k] == a[|a| - 1]
    ensures multiset(a[..|a| - 1]) == multiset(b[..k] + b[k + 1..])
  {
    var n := |a| - 1;
    var x := a[n];
    assert a == a[..n] + [x];
    assert b == b[..k] + [x] + b[k + 1..];
    calc {
      multiset(b[..k] + b[k + 1..]);
      multiset(b[..k]) + multiset(b[k + 1..]);
      multiset(b) - multiset{x};
      multiset(a) - multiset{x};
      multiset(a[..n]);
    }
  }

  /** The base total does not depend on the order the items are listed in. */
  lemma {:induction false} PriceSumPermutation(a: seq<ClothesItem>, b: seq<ClothesItem>)
    requires multiset(a) == multiset(b)
    ensures PriceSum(a) == PriceSum(b)
    decreases |a|
  {
    if |a| == 0 {
      assert |b| == |multiset(b)| == 0;
    } else {
      var n := |a| - 1;
      var x := a[n];
      assert a == a[..n] + [x];
      assert x in multiset(b);
      var k :| 0 <= k < |b| && b[k] == x;
      var rest := b[..k] + b[k + 1..];
      RemoveBoth(a, b, k);
      PriceSumPermutation(a[..n], rest);
      PriceSumRemove(b, k);
    }
  }

  /** The charged total and the customer after the loyalty rules. */
  datatype Priced = Priced(total: Money, customer: Customer)

  /** Whether a customer's order counter is in the range the loyalty
      cycle keeps it in. */
  predicate InCycle(c: Customer) {
    0 <= c.ordersCount <= 2
  }

  /** The loyalty step of order creation, applied to the fetched customer
      and the base total. */
  function ApplyLoyalty(c: Customer, base: Money): (r: Priced)
    ensures r.total == (if c.hasDiscount then base - Discount else base)
    ensures r.customer.hasDiscount <==> Inc32(c.ordersCount) == 3
    ensures r.customer.ordersCount == (if Inc32(c.ordersCount) == 3 then 0 else Inc32(c.ordersCount))
    ensures InCycle(c) ==> InCycle(r.customer) && r.customer.ordersCount == (c.ordersCount + 1) % 3
    ensures r.customer.totalSpent == c.totalSpent + r.total
    ensures r.customer.id == c.id && r.customer.name == c.name
  {
    var (total, c1) :=
      if c.hasDiscount then (base - Discount, c.(hasDiscount := false)) else (base, c);
    var c2 := c1.(ordersCount := Inc32(c1.ordersCount));
    var c3 := if c2.ordersCount == 3 then c2.(hasDiscount := true, ordersCount := 0) else c2;
    Priced(total, c3.(totalSpent := c3.totalSpent + total))
  }

  /** The same customer placing orders with the given base totals, one
      after another: the final customer and the charged totals. */
  function PlaceOrders(c: Customer, bases: seq<Money>): (Customer, seq<Money>)
    decreases |bases|
  {
    if |bases| == 0 then (c, [])
    else
      var p := ApplyLoyalty(c, bases[0]);
      var (last, totals) := PlaceOrders(p.customer, bases[1..]);
      (last, [p.total] + totals)
  }

  function Total(amounts: seq<Money>): Money
    decreases |amounts|
  {
    if |amounts| == 0 then 0.0 else amounts[0] + Total(amounts[1..])
  }

  /** Whether the order at position `i` of a run (from 0) is discounted:
      the first one when the customer already held a discount, and every
      later one that follows the completion of a third order. */
  predicate Discounted(c: Customer, i: nat) {
    if i == 0 then c.hasDiscount else (c.ordersCount + i) % 3 == 0
  }

  /** Over any run of orders by a customer whose counter starts in the
      cycle, the counter moves round modulo 3, exactly the orders after a
      completed third order are discounted, and spending grows by the sum
      of the charged totals. */
  lemma {:induction false} LoyaltyCycle(c: Customer, bases: seq<Money>)
    requires InCycle(c)
    ensures var (last, totals) := PlaceOrders(c, bases);
      && |totals| == |bases|
      && InCycle(last)
      && last.ordersCount == (c.ordersCount + |bases|) % 3
      && (|bases| > 0 ==> (last.hasDiscount <==> (c.ordersCount + |bases|) % 3 == 0))
      && (forall i :: 0 <= i < |bases| ==>
            totals[i] == (if Discounted(c, i) then bases[i] - Discount else bases[i]))
      && last.totalSpent == c.totalSpent + Total(totals)
      && last.id == c.id
    decreases |bases|
  {
    if |bases| > 0 {
      var p := ApplyLoyalty(c, bases[0]);
      var (last, totals) := PlaceOrders(p.customer, bases[1..]);
      LoyaltyCycle(p.customer, bases[1..]);
      assert p.customer.ordersCount == (c.ordersCount + 1) % 3;
      assert p.customer.hasDiscount <==> (c.ordersCount + 1) % 3 == 0;
      var all := [p.total] + totals;
      assert all[1..] == totals;
      forall i | 1 <= i < |bases|
        ensures Discounted(p.customer, i - 1) <==> Discounted(c, i)
      {
        if i > 1 {
          assert (p.customer.ordersCount + (i - 1)) % 3 == (c.ordersCount + i) % 3;
        }
      }
      if |bases| > 1 {
        assert (p.customer.ordersCount + |bases[1..]|) % 3 == (c.ordersCount + |bases|) % 3;
      }
    }
  }
}
