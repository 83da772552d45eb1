/** The stored entities, the request and response records, and the
    field-by-field mappings between them. */
module Entities {

  import opened Guids

  /** Monetary amounts (C# `decimal`). */
  type Money = real

  /** A C# `int`. */
  type Int32 = x: int | -0x8000_0000 <= x < 0x8000_0000

  /** `x++` on an `int` in an unchecked context: wraps from the largest
      value to the smallest. */
  function Inc32(x: Int32): (r: Int32)
    ensures x < 0x7fff_ffff ==> r == x + 1
    ensures x == 0x7fff_ffff ==> r == -0x8000_0000
  {
    if x == 0x7fff_ffff then -0x8000_0000 else x + 1
  }

  datatype Customer = Customer(
    id: Guid,
    name: string,
    totalSpent: Money,
    hasDiscount: bool,
    ordersCount: Int32)

  datatype ClothesType = ClothesType(id: Guid, typeName: string)

  datatype ClothesItem = ClothesItem(id: Guid, name: string, price: Money, clothesTypeId: Guid)

  /** An order keeps the items it was placed with, in request order. */
  datatype Order = Order(id: Guid, customerId: Guid, clothesItems: seq<ClothesItem>, totalPrice: Money)

  datatype CustomerRequest = CustomerRequest(name: string)
  datatype ClothesItemRequest = ClothesItemRequest(name: string, price: Money, clothesTypeId: Guid)
  datatype ClothesTypeRequest = ClothesTypeRequest(typeName: string)
  datatype OrderRequest = OrderRequest(customerId: Guid, clothesItemsId: seq<Guid>)

  datatype CustomerResponse = CustomerResponse(id: Guid, name: string, totalSpent: Money)
  datatype ClothesItemsResponse = ClothesItemsResponse(id: Guid, name: string, price: Money, clothesTypeId: Guid)
  datatype ClothesTypesResponse = ClothesTypesResponse(id: Guid, typeName: string)
  datatype OrderResponse = OrderResponse(id: Guid, customerId: Guid, totalPrice: Money)

  /** A customer mapped from a request: the request's name under the given
      id, and the loyalty fields at their defaults of no spending, no
      discount and no orders. */
  function NewCustomer(id: Guid, request: CustomerRequest): (c: Customer)
    ensures c.id == id && c.name == request.name
    ensures c.totalSpent == 0.0 && !c.hasDiscount && c.ordersCount == 0
  {
    Customer(id, request.name, 0.0, false, 0)
  }

  /** A clothes item mapped from a request: every request field, under the
      given id. */
  function NewClothesItem(id: Guid, request: ClothesItemRequest): (item: ClothesItem)
    ensures item.id == id
    ensures item.name == request.name && item.price == request.price
    ensures item.clothesTypeId == request.clothesTypeId
  {
    ClothesItem(id, request.name, request.price, request.clothesTypeId)
  }

  function NewClothesType(id: Guid, request: ClothesTypeRequest): (t: ClothesType)
    ensures t.id == id && t.typeName == request.typeName
  {
    ClothesType(id, request.typeName)
  }

  /** An order mapped from a request: its customer, no items yet, total
      zero. The request's item ids are not copied; order creation fetches
      the items. */
  function NewOrder(id: Guid, request: OrderRequest): (o: Order)
    ensures o.id == id && o.customerId == request.customerId
    ensures o.clothesItems == [] && o.totalPrice == 0.0
  {
    Order(id, request.customerId, [], 0.0)
  }

  /** Overwriting an entity from a request copies the request's fields and
      keeps everything else, the id included. For a customer the loyalty
      fields survive the edit. */
  function EditCustomer(c: Customer, request: CustomerRequest): (r: Customer)
    ensures r.name == request.name
    ensures r.id == c.id
    ensures r.totalSpent == c.totalSpent && r.hasDiscount == c.hasDiscount && r.ordersCount == c.ordersCount
  {
    c.(name := request.name)
  }

  function EditClothesItem(item: ClothesItem, request: ClothesItemRequest): (r: ClothesItem)
    ensures r.id == item.id
    ensures r.name == request.name && r.price == request.price
    ensures r.clothesTypeId == request.clothesTypeId
  {
    item.(name := request.name, price := request.price, clothesTypeId := request.clothesTypeId)
  }

  function EditClothesType(t: ClothesType, request: ClothesTypeRequest): (r: ClothesType)
    ensures r.id == t.id && r.typeName == request.typeName
  {
    t.(typeName := request.typeName)
  }

  /** An order edited from a request moves to the request's customer but
      keeps its items and its total: the request's item ids are not
      applied and the total is not recomputed. */
  function EditOrder(o: Order, request: OrderRequest): (r: Order)
    ensures r.customerId == request.customerId
    ensures r.id == o.id
    ensures r.clothesItems == o.clothesItems && r.totalPrice == o.totalPrice
  {
    o.(customerId := request.customerId)
  }

  /** An edit leaves no trace of an earlier edit: editing twice is editing
      once with the later request. */
  lemma EditOverwrites(c: Customer, item: ClothesItem, t: ClothesType, o: Order,
                       c1: CustomerRequest, c2: CustomerRequest,
                       i1: ClothesItemRequest, i2: ClothesItemRequest,
                       t1: ClothesTypeRequest, t2: ClothesTypeRequest,
                       o1: OrderRequest, o2: OrderRequest)
    ensures EditCustomer(EditCustomer(c, c1), c2) == EditCustomer(c, c2)
    ensures EditClothesItem(EditClothesItem(item, i1), i2) == EditClothesItem(item, i2)
    ensures EditClothesType(EditClothesType(t, t1), t2) == EditClothesType(t, t2)
    ensures EditOrder(EditOrder(o, o1), o2) == EditOrder(o, o2)
  {
  }

  /** Editing a freshly mapped entity gives what mapping the later request
      would have given under the same id. */
  lemma EditAfterNew(id: Guid, c1: CustomerRequest, c2: CustomerRequest,
                     i1: ClothesItemRequest, i2: ClothesItemRequest,
                     t1: ClothesTypeRequest, t2: ClothesTypeRequest,
                     o1: OrderRequest, o2: OrderRequest)
    ensures EditCustomer(NewCustomer(id, c1), c2) == NewCustomer(id, c2)
    ensures EditClothesItem(NewClothesItem(id, i1), i2) == NewClothesItem(id, i2)
    ensures EditClothesType(NewClothesType(id, t1), t2) == NewClothesType(id, t2)
    ensures EditOrder(NewOrder(id, o1), o2) == NewOrder(id, o2)
  {
  }

  /** The response views copy the fields the client sees. A customer's view
      hides the loyalty state; an order's view hides its items. */
  function CustomerView(c: Customer): (v: CustomerResponse)
    ensures v.id == c.id && v.name == c.name && v.totalSpent == c.totalSpent
  {
    CustomerResponse(c.id, c.name, c.totalSpent)
  }

  function ClothesItemView(item: ClothesItem): (v: ClothesItemsResponse)
    ensures v.id == item.id && v.name == item.name
    ensures v.price == item.price && v.clothesTypeId == item.clothesTypeId
  {
    ClothesItemsResponse(item.id, item.name, item.price, item.clothesTypeId)
  }

  function ClothesTypeView(t: ClothesType): (v: ClothesTypesResponse)
    ensures v.id == t.id && v.typeName == t.typeName
  {
    ClothesTypesResponse(t.id, t.typeName)
  }

  function OrderView(o: Order): (v: OrderResponse)
    ensures v.id == o.id && v.customerId == o.customerId && v.totalPrice == o.totalPrice
  {
    OrderResponse(o.id, o.customerId, o.totalPrice)
  }

  /** A view shows the loyalty state of neither a customer nor an order's
      items: two customers differing only in discount and order count, or
      two orders differing only in their items, look the same. */
  lemma ViewsHideState(c: Customer, hasDiscount: bool, ordersCount: Int32,
                       o: Order, items: seq<ClothesItem>)
    ensures CustomerView(c.(hasDiscount := hasDiscount, ordersCount := ordersCount)) == CustomerView(c)
    ensures OrderView(o.(clothesItems := items)) == OrderView(o)
  {
  }
}
