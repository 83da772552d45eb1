/** The order service: listing, fetching, creating (with pricing and the
    loyalty step), updating and deleting orders. */
module OrderService {

  import opened Guids
  import opened Results
  import opened Entities
  import opened Store
  import opened Pricing

  const OrderNotFound := "Order not found."
  const ItemNotFound := "Item not found."
  const CustomerNotFound := "Customer not found."

  /** The message naming a clothes item id that has no stored item: the id's
      text sits at a fixed position inside a fixed frame. */
  function ClothesItemNotFound(id: Guid): (m: string)
    ensures |m| == |"Clothes item with ID "| + TextLength + |" not found."|
    ensures m[|"Clothes item with ID "|..|"Clothes item with ID "| + TextLength] == Text(id)
  {
    "Clothes item with ID " + Text(id) + " not found."
  }

  /** Distinct missing ids are reported with distinct messages. */
  lemma ClothesItemNotFoundInjective(a: Guid, b: Guid)
    requires ClothesItemNotFound(a) == ClothesItemNotFound(b)
    ensures a == b
  {
    var prefix := |"Clothes item with ID "|;
    assert Text(a) == ClothesItemNotFound(a)[prefix..prefix + TextLength];
    assert Text(b) == ClothesItemNotFound(b)[prefix..prefix + TextLength];
    TextInjective(a, b);
  }

  /** `k` is the position of the first requested id with no stored item. */
  predicate FirstMissing(clothes: map<Guid, ClothesItem>, ids: seq<Guid>, k: int) {
    && 0 <= k < |ids|
    && ids[k] !in clothes
    && forall j :: 0 <= j < k ==> ids[j] in clothes
  }

  predicate AllStored(clothes: map<Guid, ClothesItem>, ids: seq<Guid>) {
    forall i :: 0 <= i < |ids| ==> ids[i] in clothes
  }

  /** The fetch loop of order creation: every requested item in request
      order, or a failure naming the first id that is not stored. */
  function FetchItems(clothes: map<Guid, ClothesItem>, ids: seq<Guid>): (r: Result<seq<ClothesItem>>)
    ensures r.Success? <==> AllStored(clothes, ids)
    ensures r.Success? ==> |r.value| == |ids|
    ensures r.Success? ==> forall i :: 0 <= i < |ids| ==> r.value[i] == clothes[ids[i]]
    decreases |ids|
  {
    if |ids| == 0 then Success([])
    else if ids[0] !in clothes then FailWith(ClothesItemNotFound(ids[0]))
    else
      match FetchItems(clothes, ids[1..])
      case Success(rest) => Success([clothes[ids[0]]] + rest)
      case Failure(errors) => Failure(errors)
  }

  /** The fetch fails naming exactly the first requested id that has no
      stored item: the ids before it were all fetched, it was not. */
  lemma {:induction false} FetchReportsFirstMissing(clothes: map<Guid, ClothesItem>, ids: seq<Guid>, k: int)
    requires FirstMissing(clothes, ids, k)
    ensures FetchItems(clothes, ids) == FailWith(ClothesItemNotFound(ids[k]))
    decreases k
  {
    if k > 0 {
      assert FirstMissing(clothes, ids[1..], k - 1);
      FetchReportsFirstMissing(clothes, ids[1..], k - 1);
      assert ids[1..][k - 1] == ids[k];
    }
  }

  /** A failed fetch always names some first missing id. */
  lemma {:induction false} FetchFailureHasFirstMissing(clothes: map<Guid, ClothesItem>, ids: seq<Guid>)
    requires !AllStored(clothes, ids)
    ensures exists k :: FirstMissing(clothes, ids, k)
    decreases |ids|
  {
    if ids[0] !in clothes {
      assert FirstMissing(clothes, ids, 0);
    } else {
      assert !AllStored(clothes, ids[1..]) by {
        var i :| 0 <= i < |ids| && ids[i] !in clothes;
        assert ids[1..][i - 1] == ids[i];
      }
      FetchFailureHasFirstMissing(clothes, ids[1..]);
      var k :| FirstMissing(clothes, ids[1..], k);
      assert FirstMissing(clothes, ids, k + 1);
    }
  }

  /** `GetAllAsync`. */
  function GetAll(s: Shop): (r: Result<map<Guid, OrderResponse>>)
    ensures r.Failure? <==> |s.orders| == 0
    ensures r.Failure? ==> r.errors == [Message(NothingFound)]
    ensures r.Success? ==> r.value.Keys == s.orders.Keys
    ensures r.Success? ==> forall k :: k in s.orders ==> r.value[k] == OrderView(s.orders[k])
  {
    ListAll(s.orders, OrderView)
  }

  /** `GetByIdAsync`. */
  function GetById(s: Shop, id: Guid): (r: Result<OrderResponse>)
    ensures r.Success? <==> id in s.orders
    ensures r.Success? ==> r.value == OrderView(s.orders[id])
    ensures r.Failure? ==> r.errors == [Message(OrderNotFound)]
  {
    FindById(s.orders, id, OrderView, OrderNotFound)
  }

  /** `AddAsync`: `newId` is the identifier `Guid.NewGuid()` draws for the
      order. Items are fetched first, then the customer; any failure writes
      nothing. On success the priced customer is written, then the order. */
  function Add(s: Shop, request: OrderRequest, newId: Guid): (r: Reply<Result<Order>>)
    requires newId !in s.orders
    ensures r.result.Failure? ==> r.calls == []
    ensures AllStored(s.clothes, request.clothesItemsId) && request.customerId !in s.customers ==>
      r.result == FailWith(CustomerNotFound)
    ensures r.result.Success? <==> AllStored(s.clothes, request.clothesItemsId) && request.customerId in s.customers
    ensures r.result.Success? ==>
      var order := r.result.value;
      var ids := request.clothesItemsId;
      var c := s.customers[request.customerId];
      var p := ApplyLoyalty(c, PriceSum(order.clothesItems));
      && order.id == newId
      && order.customerId == request.customerId
      && |order.clothesItems| == |ids|
      && (forall i :: 0 <= i < |ids| ==> order.clothesItems[i] == s.clothes[ids[i]])
      && order.totalPrice == p.total
      && r.calls == [UpdateCustomer(p.customer), AddOrder(order)]
  {
    match FetchItems(s.clothes, request.clothesItemsId)
    case Failure(errors) => Reply(Failure(errors), [])
    case Success(items) =>
      if request.customerId !in s.customers then Reply(FailWith(CustomerNotFound), [])
      else
        var p := ApplyLoyalty(s.customers[request.customerId], PriceSum(items));
        var order := NewOrder(newId, request).(clothesItems := items, totalPrice := p.total);
        Reply(Success(order), [UpdateCustomer(p.customer), AddOrder(order)])
  }

  /** With an item missing, creation fails naming the first missing id
      in request order, before the customer is looked up, and writes
      nothing. */
  lemma AddFailsOnFirstMissing(s: Shop, request: OrderRequest, newId: Guid, k: int)
    requires newId !in s.orders
    requires FirstMissing(s.clothes, request.clothesItemsId, k)
    ensures Add(s, request, newId) == Reply(FailWith(ClothesItemNotFound(request.clothesItemsId[k])), [])
  {
    FetchReportsFirstMissing(s.clothes, request.clothesItemsId, k);
  }

  /** The store after a successful order creation: the customer's loyalty
      fields have moved on, the order is stored under its fresh id, and
      nothing else has changed. */
  lemma AddEffect(s: Shop, request: OrderRequest, newId: Guid)
    requires WellKeyed(s) && newId !in s.orders
    requires Add(s, request, newId).result.Success?
    ensures
      var r := Add(s, request, newId);
      var s' := Commit(s, r.calls);
      var c := s.customers[request.customerId];
      && request.customerId in s'.customers
      && var c' := s'.customers[request.customerId];
      && s'.customers.Keys == s.customers.Keys
      && (forall k :: k in s.customers && k != request.customerId ==> s'.customers[k] == s.customers[k])
      && c'.id == c.id && c'.name == c.name
      && c'.totalSpent == c.totalSpent + r.result.value.totalPrice
      && (c.hasDiscount ==> r.result.value.totalPrice == PriceSum(r.result.value.clothesItems) - Discount)
      && (!c.hasDiscount ==> r.result.value.totalPrice == PriceSum(r.result.value.clothesItems))
      && (InCycle(c) ==> InCycle(c') && (c'.hasDiscount <==> c.ordersCount == 2))
      && s'.orders == s.orders[newId := r.result.value]
      && |s'.orders| == |s.orders| + 1
      && s'.clothes == s.clothes && s'.types == s.types
      && WellKeyed(s')
  {
    var r := Add(s, request, newId);
    var order := r.result.value;
    var c := s.customers[request.customerId];
    var p := ApplyLoyalty(c, PriceSum(order.clothesItems));
    assert r.calls == [UpdateCustomer(p.customer), AddOrder(order)];
    assert c.id == request.customerId;
    CommitTwo(s, r.calls[0], r.calls[1]);
    CommitWellKeyed(s, r.calls);
    var s' := Commit(s, r.calls);
    assert s'.customers == s.customers[request.customerId := p.customer];
    assert s'.orders == s.orders[newId := order];
  }

  /** Order creation keeps every customer's counter in the loyalty cycle:
      whatever the outcome, a store whose counters are all in 0..2 stays so. */
  lemma AddKeepsLoyaltyCycle(s: Shop, request: OrderRequest, newId: Guid)
    requires WellKeyed(s) && newId !in s.orders
    requires forall k :: k in s.customers ==> InCycle(s.customers[k])
    ensures
      var s' := Commit(s, Add(s, request, newId).calls);
      forall k :: k in s'.customers ==> InCycle(s'.customers[k])
  {
    if Add(s, request, newId).result.Success? {
      AddEffect(s, request, newId);
    }
  }

  /** A customer with 500 spent, no discount and two orders buys one item
      priced 20: the order costs 20 and the third order grants a discount,
      resetting the counter, with 520 spent. */
  lemma ThirdOrderGrantsDiscount(s: Shop, customerId: Guid, itemId: Guid, newId: Guid)
    requires newId !in s.orders && itemId in s.clothes && s.clothes[itemId].price == 20.0
    requires customerId in s.customers
    requires s.customers[customerId] == s.customers[customerId].(totalSpent := 500.0, hasDiscount := false, ordersCount := 2)
    ensures
      var r := Add(s, OrderRequest(customerId, [itemId]), newId);
      && r.result.Success? && r.result.value.totalPrice == 20.0
      && r.calls[0].customer.ordersCount == 0
      && r.calls[0].customer.hasDiscount
      && r.calls[0].customer.totalSpent == 520.0
  {
    var r := Add(s, OrderRequest(customerId, [itemId]), newId);
    assert PriceSum(r.result.value.clothesItems) == 20.0 by {
      assert r.result.value.clothesItems[..0] == [];
    }
  }

  /** A customer holding a discount, with one order so far, buys one item
      priced 2000: the order costs 1000, the discount is consumed and the
      counter moves to 2. */
  lemma DiscountConsumed(s: Shop, customerId: Guid, itemId: Guid, newId: Guid)
    requires newId !in s.orders && itemId in s.clothes && s.clothes[itemId].price == 2000.0
    requires customerId in s.customers
    requires s.customers[customerId].hasDiscount && s.customers[customerId].ordersCount == 1
    ensures
      var r := Add(s, OrderRequest(customerId, [itemId]), newId);
      && r.result.Success? && r.result.value.totalPrice == 1000.0
      && !r.calls[0].customer.hasDiscount
      && r.calls[0].customer.ordersCount == 2
  {
    var r := Add(s, OrderRequest(customerId, [itemId]), newId);
    assert PriceSum(r.result.value.clothesItems) == 2000.0 by {
      assert r.result.value.clothesItems[..0] == [];
    }
  }

  /** The discount is not capped at the base total: a customer holding a
      discount who buys one item priced 20 is charged -980, and the
      customer's spending drops by 980. */
  lemma DiscountCanChargeNegative(s: Shop, customerId: Guid, itemId: Guid, newId: Guid)
    requires newId !in s.orders && itemId in s.clothes && s.clothes[itemId].price == 20.0
    requires customerId in s.customers && s.customers[customerId].hasDiscount
    ensures
      var r := Add(s, OrderRequest(customerId, [itemId]), newId);
      && r.result.Success? && r.result.value.totalPrice == -980.0
      && r.calls[0].customer.totalSpent == s.customers[customerId].totalSpent - 980.0
  {
    var r := Add(s, OrderRequest(customerId, [itemId]), newId);
    assert PriceSum(r.result.value.clothesItems) == 20.0 by {
      assert r.result.value.clothesItems[..0] == [];
    }
  }

  /** A missing clothes item is reported before a missing customer: with
      both missing, the answer names the first missing item. */
  lemma ItemsCheckedBeforeCustomer(s: Shop, request: OrderRequest, newId: Guid)
    requires newId !in s.orders
    requires !AllStored(s.clothes, request.clothesItemsId)
    requires request.customerId !in s.customers
    ensures exists k :: (FirstMissing(s.clothes, request.clothesItemsId, k)
      && Add(s, request, newId).result == FailWith(ClothesItemNotFound(request.clothesItemsId[k])))
    ensures Add(s, request, newId).result != FailWith(CustomerNotFound)
  {
    FetchFailureHasFirstMissing(s.clothes, request.clothesItemsId);
    var k :| FirstMissing(s.clothes, request.clothesItemsId, k);
    AddFailsOnFirstMissing(s, request, newId, k);
    var m := ClothesItemNotFound(request.clothesItemsId[k]);
    assert m != CustomerNotFound by {
      assert |m| == |"Clothes item with ID "| + TextLength + |" not found."|;
    }
  }

  /** `UpdateAsync`: overwrites the stored order's fields from the request
      without re-pricing; an unknown id writes nothing. */
  function Update(s: Shop, id: Guid, request: OrderRequest): (r: Reply<Outcome>)
    ensures r.result.Pass? <==> id in s.orders
    ensures r.result.Fail? ==> r.result.errors == [Message(ItemNotFound)] && r.calls == []
    ensures r.result.Pass? ==> r.calls == [UpdateOrder(EditOrder(s.orders[id], request))]
  {
    if id !in s.orders then Reply(Fail([Message(ItemNotFound)]), [])
    else Reply(Pass, [UpdateOrder(EditOrder(s.orders[id], request))])
  }

  /** `DeleteAsync`: removes a stored order and nothing else; an unknown id
      writes nothing. */
  function Delete(s: Shop, id: Guid): (r: Reply<Outcome>)
    ensures r.result.Pass? <==> id in s.orders
    ensures r.result.Fail? ==> r.result.errors == [Message(ItemNotFound)] && r.calls == []
    ensures r.result.Pass? ==> r.calls == [DeleteOrder(id)]
  {
    if id !in s.orders then Reply(Fail([Message(ItemNotFound)]), [])
    else Reply(Pass, [DeleteOrder(id)])
  }

  /** After an update the order reads back with the request's customer and
      its old items and total; no other table changes. */
  lemma UpdateEffect(s: Shop, id: Guid, request: OrderRequest)
    requires WellKeyed(s) && id in s.orders
    ensures
      var s' := Commit(s, Update(s, id, request).calls);
      && s'.orders == s.orders[id := EditOrder(s.orders[id], request)]
      && GetById(s', id) == Success(OrderResponse(id, request.customerId, s.orders[id].totalPrice))
      && s'.customers == s.customers && s'.clothes == s.clothes && s'.types == s.types
  {
    CommitOne(s, UpdateOrder(EditOrder(s.orders[id], request)));
  }

  /** Deleting an order leaves every customer as it was: the loyalty
      changes made when the order was created are not reversed. */
  lemma DeleteEffect(s: Shop, id: Guid)
    ensures
      var s' := Commit(s, Delete(s, id).calls);
      && s'.orders == s.orders - {id}
      && GetById(s', id).Failure?
      && s'.customers == s.customers && s'.clothes == s.clothes && s'.types == s.types
  {
    if id in s.orders {
      CommitOne(s, DeleteOrder(id));
    }
  }
}
