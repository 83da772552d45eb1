/** The customer service: CRUD over the customer repository, and the import
    of customers fetched from an external service, skipping every name
    already stored. */
module CustomerService {

  import opened Guids
  import opened Results
  import opened Entities
  import opened Store

  const ItemNotFound := "Item not found."

  /** `CustomerExistsByNameAsync`: some stored customer has this name. */
  predicate NameTaken(customers: map<Guid, Customer>, name: string): (r: bool)
    ensures r <==> name in (set k | k in customers :: customers[k].name)
  {
    exists k :: k in customers && customers[k].name == name
  }

  /** Identifiers drawn for imported customers: new to the store and
      pairwise distinct. */
  predicate FreshIds(customers: map<Guid, Customer>, ids: seq<Guid>) {
    && (forall i :: 0 <= i < |ids| ==> ids[i] !in customers)
    && (forall i, j :: 0 <= i < j < |ids| ==> ids[i] != ids[j])
  }

  /** Whether the import adds the `i`-th fetched customer: its name is
      neither stored nor used by an earlier fetched customer. */
  predicate Imported(customers: map<Guid, Customer>, fetched: seq<CustomerRequest>, i: int)
    requires 0 <= i < |fetched|
  {
    && !NameTaken(customers, fetched[i].name)
    && forall j :: 0 <= j < i ==> fetched[j].name != fetched[i].name
  }

  /** `FetchAndSaveCustomersAsync`, with the fetched list as input and
      `ids[i]` the identifier the mapping draws for `fetched[i]`: each
      fetched customer is added unless a stored customer already has its
      name. The check sees the customers added earlier in the same run. */
  function Import(s: Shop, fetched: seq<CustomerRequest>, ids: seq<Guid>): (calls: seq<Call>)
    requires |ids| == |fetched| && FreshIds(s.customers, ids)
    ensures |calls| <= |fetched|
    ensures forall i :: 0 <= i < |calls| ==> calls[i].AddCustomer?
    decreases |fetched|
  {
    if |fetched| == 0 then []
    else if NameTaken(s.customers, fetched[0].name) then Import(s, fetched[1..], ids[1..])
    else
      var c := NewCustomer(ids[0], fetched[0]);
      [AddCustomer(c)] + Import(Commit1(s, AddCustomer(c)), fetched[1..], ids[1..])
  }

  /** The store after the first fetched customer has been handled. */
  function ImportNext(s: Shop, fetched: seq<CustomerRequest>, ids: seq<Guid>): Shop
    requires |ids| == |fetched| > 0
  {
    if NameTaken(s.customers, fetched[0].name) then s
    else Commit1(s, AddCustomer(NewCustomer(ids[0], fetched[0])))
  }

  lemma ImportUnfold(s: Shop, fetched: seq<CustomerRequest>, ids: seq<Guid>)
    requires |ids| == |fetched| > 0 && FreshIds(s.customers, ids)
    ensures FreshIds(ImportNext(s, fetched, ids).customers, ids[1..])
    ensures Commit(s, Import(s, fetched, ids))
      == Commit(ImportNext(s, fetched, ids), Import(ImportNext(s, fetched, ids), fetched[1..], ids[1..]))
  {
    var s1 := ImportNext(s, fetched, ids);
    if !NameTaken(s.customers, fetched[0].name) {
      var c := NewCustomer(ids[0], fetched[0]);
      assert s1.customers == s.customers[ids[0] := c];
      var calls := [AddCustomer(c)] + Import(s1, fetched[1..], ids[1..]);
      assert calls[1..] == Import(s1, fetched[1..], ids[1..]);
    }
  }

  /** Adding the first fetched customer makes exactly its name newly taken. */
  lemma NameTakenNext(s: Shop, fetched: seq<CustomerRequest>, ids: seq<Guid>, n: string)
    requires |ids| == |fetched| > 0 && FreshIds(s.customers, ids)
    ensures NameTaken(ImportNext(s, fetched, ids).customers, n)
      <==> NameTaken(s.customers, n) || n == fetched[0].name
  {
    var s1 := ImportNext(s, fetched, ids);
    if !NameTaken(s.customers, fetched[0].name) {
      assert s1.customers == s.customers[ids[0] := NewCustomer(ids[0], fetched[0])];
      if NameTaken(s1.customers, n) {
        var k :| k in s1.customers && s1.customers[k].name == n;
        if k != ids[0] {
          assert k in s.customers;
        }
      }
      if NameTaken(s.customers, n) {
        var k :| k in s.customers && s.customers[k].name == n;
        assert k != ids[0];
        assert k in s1.customers && s1.customers[k].name == n;
      }
      if n == fetched[0].name {
        assert s1.customers[ids[0]].name == n;
      }
    }
  }

  /** The import only adds customers: stored customers are untouched, every
      new key is one of the drawn identifiers, and no other table changes. */
  lemma {:induction false} ImportFrame(s: Shop, fetched: seq<CustomerRequest>, ids: seq<Guid>)
    requires |ids| == |fetched| && FreshIds(s.customers, ids)
    ensures
      var s' := Commit(s, Import(s, fetched, ids));
      && s'.clothes == s.clothes && s'.types == s.types && s'.orders == s.orders
      && (forall k :: k in s.customers ==> k in s'.customers && s'.customers[k] == s.customers[k])
      && (forall k :: k in s'.customers ==> k in s.customers || k in ids)
    decreases |fetched|
  {
    if |fetched| > 0 {
      var s1 := ImportNext(s, fetched, ids);
      ImportUnfold(s, fetched, ids);
      ImportFrame(s1, fetched[1..], ids[1..]);
      var s' := Commit(s, Import(s, fetched, ids));
      forall k | k in s'.customers
        ensures k in s.customers || k in ids
      {
        if k !in s1.customers {
          var j :| 0 <= j < |ids[1..]| && ids[1..][j] == k;
          assert ids[j + 1] == k;
        }
      }
    }
  }

  /** After the import every fetched name is held by some customer. */
  lemma {:induction false} ImportCoversNames(s: Shop, fetched: seq<CustomerRequest>, ids: seq<Guid>)
    requires |ids| == |fetched| && FreshIds(s.customers, ids)
    ensures
      var s' := Commit(s, Import(s, fetched, ids));
      forall i :: 0 <= i < |fetched| ==> NameTaken(s'.customers, fetched[i].name)
    decreases |fetched|
  {
    if |fetched| > 0 {
      var s1 := ImportNext(s, fetched, ids);
      ImportUnfold(s, fetched, ids);
      ImportCoversNames(s1, fetched[1..], ids[1..]);
      ImportFrame(s1, fetched[1..], ids[1..]);
      var s' := Commit(s, Import(s, fetched, ids));
      NameTakenNext(s, fetched, ids, fetched[0].name);
      var k :| k in s1.customers && s1.customers[k].name == fetched[0].name;
      assert k in s'.customers && s'.customers[k].name == fetched[0].name;
      forall i | 1 <= i < |fetched|
        ensures NameTaken(s'.customers, fetched[i].name)
      {
        assert fetched[1..][i - 1] == fetched[i];
      }
    }
  }

  /** The `i`-th fetched customer is stored under `ids[i]`, with the
      default loyalty fields, exactly when the import adds it. */
  lemma {:induction false} ImportAddsExactly(s: Shop, fetched: seq<CustomerRequest>, ids: seq<Guid>)
    requires |ids| == |fetched| && FreshIds(s.customers, ids)
    ensures
      var s' := Commit(s, Import(s, fetched, ids));
      && (forall i :: 0 <= i < |fetched| ==> (ids[i] in s'.customers <==> Imported(s.customers, fetched, i)))
      && (forall i :: 0 <= i < |fetched| && ids[i] in s'.customers ==>
            s'.customers[ids[i]] == NewCustomer(ids[i], fetched[i]))
    decreases |fetched|
  {
    if |fetched| > 0 {
      var tail, tailIds := fetched[1..], ids[1..];
      var s1 := ImportNext(s, fetched, ids);
      ImportUnfold(s, fetched, ids);
      ImportAddsExactly(s1, tail, tailIds);
      ImportFrame(s1, tail, tailIds);
      var s' := Commit(s, Import(s, fetched, ids));
      var added := !NameTaken(s.customers, fetched[0].name);
      assert ids[0] !in tailIds;
      forall i | 1 <= i < |fetched|
        ensures ids[i] in s'.customers <==> Imported(s.customers, fetched, i)
        ensures ids[i] in s'.customers ==> s'.customers[ids[i]] == NewCustomer(ids[i], fetched[i])
      {
        assert tail[i - 1] == fetched[i] && tailIds[i - 1] == ids[i];
        NameTakenNext(s, fetched, ids, fetched[i].name);
        forall j | 0 <= j < i - 1
          ensures tail[j] == fetched[j + 1]
        {
        }
        if Imported(s1.customers, tail, i - 1) {
          forall j | 0 <= j < i
            ensures fetched[j].name != fetched[i].name
          {
            if j > 0 {
              assert tail[j - 1] == fetched[j];
            }
          }
        }
      }
    }
  }

  /** Together: the import adds the fetched customers whose names are new,
      the first time each new name appears, and leaves everything else. */
  lemma ImportEffect(s: Shop, fetched: seq<CustomerRequest>, ids: seq<Guid>)
    requires |ids| == |fetched| && FreshIds(s.customers, ids)
    ensures
      var s' := Commit(s, Import(s, fetched, ids));
      && s'.clothes == s.clothes && s'.types == s.types && s'.orders == s.orders
      && (forall k :: k in s.customers ==> k in s'.customers && s'.customers[k] == s.customers[k])
      && (forall k :: k in s'.customers ==> k in s.customers || k in ids)
      && (forall i :: 0 <= i < |fetched| ==> NameTaken(s'.customers, fetched[i].name))
      && (forall i :: 0 <= i < |fetched| ==> (ids[i] in s'.customers <==> Imported(s.customers, fetched, i)))
      && (forall i :: 0 <= i < |fetched| && ids[i] in s'.customers ==>
            s'.customers[ids[i]] == NewCustomer(ids[i], fetched[i]))
  {
    ImportFrame(s, fetched, ids);
    ImportCoversNames(s, fetched, ids);
    ImportAddsExactly(s, fetched, ids);
  }

  /** An import in which every fetched name is already stored writes nothing. */
  lemma {:induction false} ImportNothingNew(s: Shop, fetched: seq<CustomerRequest>, ids: seq<Guid>)
    requires |ids| == |fetched| && FreshIds(s.customers, ids)
    requires forall i :: 0 <= i < |fetched| ==> NameTaken(s.customers, fetched[i].name)
    ensures Import(s, fetched, ids) == []
    decreases |fetched|
  {
    if |fetched| > 0 {
      assert forall i :: 0 <= i < |fetched| - 1 ==> fetched[1..][i] == fetched[i + 1];
      ImportNothingNew(s, fetched[1..], ids[1..]);
    }
  }

  /** Importing the same list twice adds nothing the second time, whatever
      identifiers the second run draws. */
  lemma ImportIdempotent(s: Shop, fetched: seq<CustomerRequest>, ids: seq<Guid>, ids2: seq<Guid>)
    requires |ids| == |fetched| && FreshIds(s.customers, ids)
    requires |ids2| == |fetched|
    requires FreshIds(Commit(s, Import(s, fetched, ids)).customers, ids2)
    ensures Import(Commit(s, Import(s, fetched, ids)), fetched, ids2) == []
  {
    ImportEffect(s, fetched, ids);
    ImportNothingNew(Commit(s, Import(s, fetched, ids)), fetched, ids2);
  }

  /** `GetAllAsync`. */
  function GetAll(s: Shop): (r: Result<map<Guid, CustomerResponse>>)
    ensures r.Failure? <==> |s.customers| == 0
    ensures r.Failure? ==> r.errors == [Message(NothingFound)]
    ensures r.Success? ==> r.value.Keys == s.customers.Keys
    ensures r.Success? ==> forall k :: k in s.customers ==> r.value[k] == CustomerView(s.customers[k])
  {
    ListAll(s.customers, CustomerView)
  }

  /** `GetByIdAsync`. */
  function GetById(s: Shop, id: Guid): (r: Result<CustomerResponse>)
    ensures r.Success? <==> id in s.customers
    ensures r.Success? ==> r.value == CustomerView(s.customers[id])
    ensures r.Failure? ==> r.errors == [Message(ItemNotFound)]
  {
    FindById(s.customers, id, CustomerView, ItemNotFound)
  }

  /** `AddAsync`: always succeeds; the customer mapped from the request,
      under the identifier its construction draws, is added once. */
  function Add(s: Shop, request: CustomerRequest, newId: Guid): (r: Reply<Result<Customer>>)
    requires newId !in s.customers
    ensures r.result.Success?
    ensures r.result.value.id == newId && r.result.value.name == request.name
    ensures r.result.value.totalSpent == 0.0 && !r.result.value.hasDiscount && r.result.value.ordersCount == 0
    ensures r.calls == [AddCustomer(r.result.value)]
  {
    var c := NewCustomer(newId, request);
    Reply(Success(c), [AddCustomer(c)])
  }

  /** `UpdateAsync`: overwrites the stored customer's fields from the
      request; an unknown id writes nothing. */
  function Update(s: Shop, id: Guid, request: CustomerRequest): (r: Reply<Outcome>)
    ensures r.result.Pass? <==> id in s.customers
    ensures r.result.Fail? ==> r.result.errors == [Message(ItemNotFound)] && r.calls == []
    ensures r.result.Pass? ==> r.calls == [UpdateCustomer(EditCustomer(s.customers[id], request))]
  {
    if id !in s.customers then Reply(Fail([Message(ItemNotFound)]), [])
    else Reply(Pass, [UpdateCustomer(EditCustomer(s.customers[id], request))])
  }

  /** `DeleteAsync`: removes a stored customer; an unknown id writes nothing. */
  function Delete(s: Shop, id: Guid): (r: Reply<Outcome>)
    ensures r.result.Pass? <==> id in s.customers
    ensures r.result.Fail? ==> r.result.errors == [Message(ItemNotFound)] && r.calls == []
    ensures r.result.Pass? ==> r.calls == [DeleteCustomer(id)]
  {
    if id !in s.customers then Reply(Fail([Message(ItemNotFound)]), [])
    else Reply(Pass, [DeleteCustomer(id)])
  }

  /** An added customer reads back with its name and no spending. */
  lemma AddThenGet(s: Shop, request: CustomerRequest, newId: Guid)
    requires newId !in s.customers
    ensures
      var s' := Commit(s, Add(s, request, newId).calls);
      && s'.customers == s.customers[newId := NewCustomer(newId, request)]
      && GetById(s', newId) == Success(CustomerResponse(newId, request.name, 0.0))
      && GetAll(s').Success?
  {
    CommitOne(s, AddCustomer(NewCustomer(newId, request)));
  }

  /** An update changes only the addressed customer's name: its spending
      and loyalty fields stay, and no other entry or table changes. */
  lemma UpdateEffect(s: Shop, id: Guid, request: CustomerRequest)
    requires WellKeyed(s) && id in s.customers
    ensures
      var s' := Commit(s, Update(s, id, request).calls);
      && s'.customers.Keys == s.customers.Keys
      && s'.customers[id] == s.customers[id].(name := request.name)
      && (forall k :: k in s.customers && k != id ==> s'.customers[k] == s.customers[k])
      && s'.clothes == s.clothes && s'.types == s.types && s'.orders == s.orders
  {
    CommitOne(s, UpdateCustomer(EditCustomer(s.customers[id], request)));
  }

  /** A delete removes exactly the addressed customer. */
  lemma DeleteEffect(s: Shop, id: Guid)
    ensures
      var s' := Commit(s, Delete(s, id).calls);
      && s'.customers == s.customers - {id}
      && GetById(s', id).Failure?
      && s'.clothes == s.clothes && s'.types == s.types && s'.orders == s.orders
  {
    if id in s.customers {
      CommitOne(s, DeleteCustomer(id));
    }
  }
}
