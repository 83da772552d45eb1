/** The clothes item service: CRUD over the clothes item repository. Its
    not-found message is its own. */
module ClothesService {

  import opened Guids
  import opened Results
  import opened Entities
  import opened Store

  const NoSuchItem := "Nema takvog artikla bree"

  /** `GetAllAsync`. */
  function GetAll(s: Shop): (r: Result<map<Guid, ClothesItemsResponse>>)
    ensures r.Failure? <==> |s.clothes| == 0
    ensures r.Failure? ==> r.errors == [Message(NothingFound)]
    ensures r.Success? ==> r.value.Keys == s.clothes.Keys
    ensures r.Success? ==> forall k :: k in s.clothes ==> r.value[k] == ClothesItemView(s.clothes[k])
  {
    ListAll(s.clothes, ClothesItemView)
  }

  /** `GetByIdAsync`. */
  function GetById(s: Shop, id: Guid): (r: Result<ClothesItemsResponse>)
    ensures r.Success? <==> id in s.clothes
    ensures r.Success? ==> r.value == ClothesItemView(s.clothes[id])
    ensures r.Failure? ==> r.errors == [Message(NoSuchItem)]
  {
    FindById(s.clothes, id, ClothesItemView, NoSuchItem)
  }

  /** `AddAsync`: always succeeds; the item mapped from the request gets
      the fresh identifier `newId` and is added once, name, price and type
      as requested. */
  function Add(s: Shop, request: ClothesItemRequest, newId: Guid): (r: Reply<Result<ClothesItem>>)
    requires newId !in s.clothes
    ensures r.result.Success?
    ensures r.result.value.id == newId
    ensures r.result.value.name == request.name && r.result.value.price == request.price
    ensures r.result.value.clothesTypeId == request.clothesTypeId
    ensures r.calls == [AddClothesItem(r.result.value)]
  {
    var item := NewClothesItem(newId, request);
    Reply(Success(item), [AddClothesItem(item)])
  }

  /** `UpdateAsync`: overwrites the stored item's fields from the request;
      an unknown id writes nothing. */
  function Update(s: Shop, id: Guid, request: ClothesItemRequest): (r: Reply<Outcome>)
    ensures r.result.Pass? <==> id in s.clothes
    ensures r.result.Fail? ==> r.result.errors == [Message(NoSuchItem)] && r.calls == []
    ensures r.result.Pass? ==> r.calls == [UpdateClothesItem(EditClothesItem(s.clothes[id], request))]
  {
    if id !in s.clothes then Reply(Fail([Message(NoSuchItem)]), [])
    else Reply(Pass, [UpdateClothesItem(EditClothesItem(s.clothes[id], request))])
  }

  /** `DeleteAsync`: removes a stored item; for an unknown id the
      repository's delete is never called. */
  function Delete(s: Shop, id: Guid): (r: Reply<Outcome>)
    ensures r.result.Pass? <==> id in s.clothes
    ensures r.result.Fail? ==> r.result.errors == [Message(NoSuchItem)] && r.calls == []
    ensures r.result.Pass? ==> r.calls == [DeleteClothesItem(id)]
  {
    if id !in s.clothes then Reply(Fail([Message(NoSuchItem)]), [])
    else Reply(Pass, [DeleteClothesItem(id)])
  }

  /** An added item reads back as requested, under its new id. */
  lemma AddThenGet(s: Shop, request: ClothesItemRequest, newId: Guid)
    requires newId !in s.clothes
    ensures
      var s' := Commit(s, Add(s, request, newId).calls);
      && s'.clothes == s.clothes[newId := NewClothesItem(newId, request)]
      && |s'.clothes| == |s.clothes| + 1
      && GetById(s', newId) == Success(ClothesItemsResponse(newId, request.name, request.price, request.clothesTypeId))
      && s'.customers == s.customers && s'.types == s.types && s'.orders == s.orders
  {
    CommitOne(s, AddClothesItem(NewClothesItem(newId, request)));
  }

  /** An update rewrites only the addressed item, keeping its id. */
  lemma UpdateEffect(s: Shop, id: Guid, request: ClothesItemRequest)
    requires WellKeyed(s) && id in s.clothes
    ensures
      var s' := Commit(s, Update(s, id, request).calls);
      && s'.clothes == s.clothes[id := ClothesItem(id, request.name, request.price, request.clothesTypeId)]
      && s'.customers == s.customers && s'.types == s.types && s'.orders == s.orders
  {
    CommitOne(s, UpdateClothesItem(EditClothesItem(s.clothes[id], request)));
  }

  /** A delete removes exactly the addressed item. */
  lemma DeleteEffect(s: Shop, id: Guid)
    ensures
      var s' := Commit(s, Delete(s, id).calls);
      && s'.clothes == s.clothes - {id}
      && GetById(s', id).Failure?
      && s'.customers == s.customers && s'.types == s.types && s'.orders == s.orders
  {
    if id in s.clothes {
      CommitOne(s, DeleteClothesItem(id));
    }
  }
}
