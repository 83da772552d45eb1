/** The clothes type service: CRUD over the clothes type repository. */
module TypesService {

  import opened Guids
  import opened Results
  import opened Entities
  import opened Store

  const ItemNotFound := "Item not found."

  /** `GetAllAsync`. */
  function GetAll(s: Shop): (r: Result<map<Guid, ClothesTypesResponse>>)
    ensures r.Failure? <==> |s.types| == 0
    ensures r.Failure? ==> r.errors == [Message(NothingFound)]
    ensures r.Success? ==> r.value.Keys == s.types.Keys
    ensures r.Success? ==> forall k :: k in s.types ==> r.value[k] == ClothesTypeView(s.types[k])
  {
    ListAll(s.types, ClothesTypeView)
  }

  /** `GetByIdAsync`. */
  function GetById(s: Shop, id: Guid): (r: Result<ClothesTypesResponse>)
    ensures r.Success? <==> id in s.types
    ensures r.Success? ==> r.value == ClothesTypeView(s.types[id])
    ensures r.Failure? ==> r.errors == [Message(ItemNotFound)]
  {
    FindById(s.types, id, ClothesTypeView, ItemNotFound)
  }

  /** `AddAsync`: always succeeds; the type mapped from the request gets
      the fresh identifier `newId` and is added once with its label. */
  function Add(s: Shop, request: ClothesTypeRequest, newId: Guid): (r: Reply<Result<ClothesType>>)
    requires newId !in s.types
    ensures r.result.Success?
    ensures r.result.value.id == newId && r.result.value.typeName == request.typeName
    ensures r.calls == [AddClothesType(r.result.value)]
  {
    var t := NewClothesType(newId, request);
    Reply(Success(t), [AddClothesType(t)])
  }

  /** `UpdateAsync`: overwrites the stored type's label; an unknown id
      writes nothing. */
  function Update(s: Shop, id: Guid, request: ClothesTypeRequest): (r: Reply<Outcome>)
    ensures r.result.Pass? <==> id in s.types
    ensures r.result.Fail? ==> r.result.errors == [Message(ItemNotFound)] && r.calls == []
    ensures r.result.Pass? ==> r.calls == [UpdateClothesType(EditClothesType(s.types[id], request))]
  {
    if id !in s.types then Reply(Fail([Message(ItemNotFound)]), [])
    else Reply(Pass, [UpdateClothesType(EditClothesType(s.types[id], request))])
  }

  /** `DeleteAsync`: removes a stored type; an unknown id writes nothing. */
  function Delete(s: Shop, id: Guid): (r: Reply<Outcome>)
    ensures r.result.Pass? <==> id in s.types
    ensures r.result.Fail? ==> r.result.errors == [Message(ItemNotFound)] && r.calls == []
    ensures r.result.Pass? ==> r.calls == [DeleteClothesType(id)]
  {
    if id !in s.types then Reply(Fail([Message(ItemNotFound)]), [])
    else Reply(Pass, [DeleteClothesType(id)])
  }

  /** An added type reads back with its label, under its new id. */
  lemma AddThenGet(s: Shop, request: ClothesTypeRequest, newId: Guid)
    requires newId !in s.types
    ensures
      var s' := Commit(s, Add(s, request, newId).calls);
      && s'.types == s.types[newId := NewClothesType(newId, request)]
      && GetById(s', newId) == Success(ClothesTypesResponse(newId, request.typeName))
      && s'.customers == s.customers && s'.clothes == s.clothes && s'.orders == s.orders
  {
    CommitOne(s, AddClothesType(NewClothesType(newId, request)));
  }

  /** An update rewrites only the addressed type. */
  lemma UpdateEffect(s: Shop, id: Guid, request: ClothesTypeRequest)
    requires WellKeyed(s) && id in s.types
    ensures
      var s' := Commit(s, Update(s, id, request).calls);
      && s'.types == s.types[id := ClothesType(id, request.typeName)]
      && GetById(s', id) == Success(ClothesTypesResponse(id, request.typeName))
      && s'.customers == s.customers && s'.clothes == s.clothes && s'.orders == s.orders
  {
    CommitOne(s, UpdateClothesType(EditClothesType(s.types[id], request)));
  }

  /** A delete removes exactly the addressed type. */
  lemma DeleteEffect(s: Shop, id: Guid)
    ensures
      var s' := Commit(s, Delete(s, id).calls);
      && s'.types == s.types - {id}
      && GetById(s', id).Failure?
      && s'.customers == s.customers && s'.clothes == s.clothes && s'.orders == s.orders
  {
    if id in s.types {
      CommitOne(s, DeleteClothesType(id));
    }
  }
}
