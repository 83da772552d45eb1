/** The four repositories as finite maps from id to entity, the write calls
    a service issues against them, and the two read shapes every service
    shares (list everything, fetch one by id). */
module Store {

  import opened Guids
  import opened Results
  import opened Entities

  datatype Shop = Shop(
    customers: map<Guid, Customer>,
    clothes: map<Guid, ClothesItem>,
    types: map<Guid, ClothesType>,
    orders: map<Guid, Order>)

  predicate CustomersKeyed(m: map<Guid, Customer>) {
    forall k :: k in m ==> m[k].id == k
  }

  predicate ClothesKeyed(m: map<Guid, ClothesItem>) {
    forall k :: k in m ==> m[k].id == k
  }

  predicate TypesKeyed(m: map<Guid, ClothesType>) {
    forall k :: k in m ==> m[k].id == k
  }

  predicate OrdersKeyed(m: map<Guid, Order>) {
    forall k :: k in m ==> m[k].id == k
  }

  /** Every entity is stored under its own id. */
  predicate WellKeyed(s: Shop) {
    CustomersKeyed(s.customers) && ClothesKeyed(s.clothes) && TypesKeyed(s.types) && OrdersKeyed(s.orders)
  }

  /** A repository write: `AddAsync`, `UpdateAsync` or `DeleteAsync` on one
      of the four repositories. */
  datatype Call =
    | AddCustomer(customer: Customer)
    | UpdateCustomer(customer: Customer)
    | DeleteCustomer(id: Guid)
    | AddClothesItem(item: ClothesItem)
    | UpdateClothesItem(item: ClothesItem)
    | DeleteClothesItem(id: Guid)
    | AddClothesType(clothesType: ClothesType)
    | UpdateClothesType(clothesType: ClothesType)
    | DeleteClothesType(id: Guid)
    | AddOrder(order: Order)
    | UpdateOrder(order: Order)
    | DeleteOrder(id: Guid)

  /** What one write does to the store: add and update store the entity
      under its id, delete removes the id. */
  function Commit1(s: Shop, c: Call): Shop {
    match c
    case AddCustomer(x) => s.(customers := s.customers[x.id := x])
    case UpdateCustomer(x) => s.(customers := s.customers[x.id := x])
    case DeleteCustomer(id) => s.(customers := s.customers - {id})
    case AddClothesItem(x) => s.(clothes := s.clothes[x.id := x])
    case UpdateClothesItem(x) => s.(clothes := s.clothes[x.id := x])
    case DeleteClothesItem(id) => s.(clothes := s.clothes - {id})
    case AddClothesType(x) => s.(types := s.types[x.id := x])
    case UpdateClothesType(x) => s.(types := s.types[x.id := x])
    case DeleteClothesType(id) => s.(types := s.types - {id})
    case AddOrder(x) => s.(orders := s.orders[x.id := x])
    case UpdateOrder(x) => s.(orders := s.orders[x.id := x])
    case DeleteOrder(id) => s.(orders := s.orders - {id})
  }

  /** The store after a sequence of writes, applied in order. */
  function Commit(s: Shop, calls: seq<Call>): Shop
    decreases |calls|
  {
    if |calls| == 0 then s else Commit(Commit1(s, calls[0]), calls[1..])
  }

  lemma CommitOne(s: Shop, a: Call)
    ensures Commit(s, [a]) == Commit1(s, a)
  {
    assert [a][1..] == [];
  }

  lemma CommitTwo(s: Shop, a: Call, b: Call)
    ensures Commit(s, [a, b]) == Commit1(Commit1(s, a), b)
  {
    assert [a, b][1..] == [b];
    CommitOne(Commit1(s, a), b);
  }

  lemma Commit1WellKeyed(s: Shop, c: Call)
    requires WellKeyed(s)
    ensures WellKeyed(Commit1(s, c))
  {
    match c
    case AddCustomer(x) => assert CustomersKeyed(s.customers[x.id := x]);
    case UpdateCustomer(x) => assert CustomersKeyed(s.customers[x.id := x]);
    case DeleteCustomer(id) => assert CustomersKeyed(s.customers - {id});
    case AddClothesItem(x) => assert ClothesKeyed(s.clothes[x.id := x]);
    case UpdateClothesItem(x) => assert ClothesKeyed(s.clothes[x.id := x]);
    case DeleteClothesItem(id) => assert ClothesKeyed(s.clothes - {id});
    case AddClothesType(x) => assert TypesKeyed(s.types[x.id := x]);
    case UpdateClothesType(x) => assert TypesKeyed(s.types[x.id := x]);
    case DeleteClothesType(id) => assert TypesKeyed(s.types - {id});
    case AddOrder(x) => assert OrdersKeyed(s.orders[x.id := x]);
    case UpdateOrder(x) => assert OrdersKeyed(s.orders[x.id := x]);
    case DeleteOrder(id) => assert OrdersKeyed(s.orders - {id});
  }

  /** Writes never store an entity under a foreign id, so every service
      keeps the store well keyed. */
  lemma {:induction false} CommitWellKeyed(s: Shop, calls: seq<Call>)
    requires WellKeyed(s)
    ensures WellKeyed(Commit(s, calls))
    decreases |calls|
  {
    if |calls| > 0 {
      Commit1WellKeyed(s, calls[0]);
      CommitWellKeyed(Commit1(s, calls[0]), calls[1..]);
    }
  }

  /** A service's answer: its result and the writes it issued, in order. */
  datatype Reply<+R> = Reply(result: R, calls: seq<Call>)

  /** The message every list operation fails with on an empty store. */
  const NothingFound := "No orders found."

  /** `GetAllAsync`: fails on an empty store, otherwise one response per
      stored entity. */
  function ListAll<T, R>(m: map<Guid, T>, view: T -> R): (r: Result<map<Guid, R>>)
    ensures r.Failure? <==> |m| == 0
    ensures r.Failure? ==> r.errors == [Message(NothingFound)]
    ensures r.Success? ==> r.value.Keys == m.Keys
    ensures r.Success? ==> forall k :: k in m ==> r.value[k] == view(m[k])
  {
    if |m| == 0 then FailWith(NothingFound)
    else Success(map k | k in m :: view(m[k]))
  }

  /** `GetByIdAsync`: the response for a stored id, or `missing`. */
  function FindById<T, R>(m: map<Guid, T>, id: Guid, view: T -> R, missing: string): (r: Result<R>)
    ensures r.Success? <==> id in m
    ensures r.Success? ==> r.value == view(m[id])
    ensures r.Failure? ==> r.errors == [Message(missing)]
  {
    if id in m then Success(view(m[id])) else FailWith(missing)
  }
}
