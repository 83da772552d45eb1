/** The four request validators. Every rule of a validator runs, and within
    a rule every check runs even after an earlier one failed (the default
    cascade), so one value can draw several failures; failures are listed
    rule by rule, check by check, in declaration order. */
module Validators {

  import opened Guids
  import opened Entities

  /** The property a failure is reported on: a request field, or the
      element at an index of a list field (`ClothesItemsId[1]`). */
  datatype Property = Field(name: string) | Element(name: string, index: nat)

  datatype ValidationFailure = ValidationFailure(property: Property, message: string)

  const NameRequired := "Name is required."
  const NameLength := "Name must be between 3 and 20 characters."
  const PricePositive := "Price must be greater than 0."
  const TypeIdRequired := "ClothesTypeId is required."
  const TypeIdNotEmpty := "ClothesTypeId cannot be an empty GUID."
  const TypeRequired := "Type is required."
  const TypeLength := "Type must be between 3 and 20 characters."
  const CustomerIdRequired := "CustomerId is required."
  const CustomerIdNotEmpty := "CustomerId cannot be an empty GUID."
  const ItemsRequired := "At least one ClothesItemId is required."
  const ItemIdNotEmpty := "ClothesItemId cannot be an empty GUID."

  /** The bounds of the `Length(3, 20)` checks, both inclusive. */
  const MinLength := 3
  const MaxLength := 20

  /** `char.IsWhiteSpace`: the Unicode space separators, the line and
      paragraph separators, and the controls U+0009 to U+000D and U+0085. */
  predicate IsWhiteSpace(c: char) {
    || ('\U{9}' <= c <= '\U{D}')
    || c == ' ' || c == '\U{85}' || c == '\U{A0}' || c == '\U{1680}'
    || ('\U{2000}' <= c <= '\U{200A}')
    || c == '\U{2028}' || c == '\U{2029}' || c == '\U{202F}' || c == '\U{205F}' || c == '\U{3000}'
  }

  /** What `NotEmpty` rejects in a string: nothing but white space,
      the empty string included. */
  predicate IsNullOrWhiteSpace(s: string): (r: bool)
    ensures |s| == 0 ==> r
    ensures r <==> forall c :: c in s ==> IsWhiteSpace(c)
  {
    forall i :: 0 <= i < |s| ==> IsWhiteSpace(s[i])
  }

  /** A string is blank exactly when both its halves are: padding a blank
      string with white space keeps it blank, and one visible character
      anywhere makes the whole string non-blank. */
  lemma BlankConcat(a: string, b: string)
    ensures IsNullOrWhiteSpace(a + b) <==> IsNullOrWhiteSpace(a) && IsNullOrWhiteSpace(b)
  {
    if IsNullOrWhiteSpace(a) && IsNullOrWhiteSpace(b) {
      forall i | 0 <= i < |a + b|
        ensures IsWhiteSpace((a + b)[i])
      {
        if i >= |a| {
          assert (a + b)[i] == b[i - |a|];
        }
      }
    }
    if IsNullOrWhiteSpace(a + b) {
      forall i | 0 <= i < |b|
        ensures IsWhiteSpace(b[i])
      {
        assert (a + b)[|a| + i] == b[i];
      }
    }
  }

  /** The length `Length` measures: UTF-16 code units, so a character
      beyond the Basic Multilingual Plane counts twice. */
  function Utf16Length(s: string): (n: nat)
    ensures |s| <= n <= 2 * |s|
    ensures n == |s| <==> forall i :: 0 <= i < |s| ==> s[i] <= '\U{FFFF}'
    decreases |s|
  {
    if |s| == 0 then 0
    else Utf16Length(s[..|s| - 1]) + (if s[|s| - 1] <= '\U{FFFF}' then 1 else 2)
  }

  /** A `NotEmpty().Length(3, 20)` rule on a string field. */
  function TextRule(field: string, value: string, required: string, length: string): (r: seq<ValidationFailure>)
    ensures |r| == 0 <==> !IsNullOrWhiteSpace(value) && MinLength <= Utf16Length(value) <= MaxLength
    ensures forall f :: f in r ==> f.property == Field(field)
  {
    (if IsNullOrWhiteSpace(value) then [ValidationFailure(Field(field), required)] else [])
    + (if MinLength <= Utf16Length(value) <= MaxLength then [] else [ValidationFailure(Field(field), length)])
  }

  /** A `NotEmpty().NotEqual(Guid.Empty)` rule on a GUID field: for a GUID
      both checks reject exactly the empty GUID. */
  function GuidRule(field: string, value: Guid, required: string, notEmpty: string): (r: seq<ValidationFailure>)
    ensures |r| == 0 <==> !IsEmpty(value)
    ensures forall f :: f in r ==> f.property == Field(field)
  {
    if IsEmpty(value) then [ValidationFailure(Field(field), required), ValidationFailure(Field(field), notEmpty)]
    else []
  }

  /** The `ForEach` check of the order validator: one failure per empty
      GUID, reported at its index, in list order. */
  function ElementFailures(ids: seq<Guid>): (r: seq<ValidationFailure>)
    ensures forall f :: f in r ==>
      && f.property.Element? && f.property.name == "ClothesItemsId"
      && f.property.index < |ids| && IsEmpty(ids[f.property.index])
      && f.message == ItemIdNotEmpty
    ensures forall i :: 0 <= i < |ids| && IsEmpty(ids[i]) ==>
      ValidationFailure(Element("ClothesItemsId", i), ItemIdNotEmpty) in r
    ensures |r| == 0 <==> forall i :: 0 <= i < |ids| ==> !IsEmpty(ids[i])
    decreases |ids|
  {
    if |ids| == 0 then []
    else
      var n := |ids| - 1;
      var front := ElementFailures(ids[..n]);
      assert forall i :: 0 <= i < n ==> ids[..n][i] == ids[i];
      assert forall a :: 0 <= a < |front| ==> front[a] in front;
      if IsEmpty(ids[n]) then front + [ValidationFailure(Element("ClothesItemsId", n), ItemIdNotEmpty)]
      else front
  }

  /** Element failures listed in increasing element index. */
  predicate InListOrder(r: seq<ValidationFailure>) {
    forall a, b :: 0 <= a < b < |r| ==>
      r[a].property.Element? && r[b].property.Element? && r[a].property.index < r[b].property.index
  }

  lemma AppendInListOrder(front: seq<ValidationFailure>, last: ValidationFailure)
    requires InListOrder(front) && last.property.Element?
    requires forall f :: f in front ==> f.property.Element? && f.property.index < last.property.index
    ensures InListOrder(front + [last])
  {
    var r := front + [last];
    forall a, b | 0 <= a < b < |r|
      ensures r[a].property.Element? && r[b].property.Element? && r[a].property.index < r[b].property.index
    {
      assert r[a] == front[a] && front[a] in front;
      if b < |front| {
        assert r[b] == front[b];
      }
    }
  }

  /** The element failures come in list order. */
  lemma {:induction false} ElementFailuresOrdered(ids: seq<Guid>)
    ensures InListOrder(ElementFailures(ids))
    decreases |ids|
  {
    if |ids| > 0 {
      var n := |ids| - 1;
      ElementFailuresOrdered(ids[..n]);
      var front := ElementFailures(ids[..n]);
      if IsEmpty(ids[n]) {
        AppendInListOrder(front, ValidationFailure(Element("ClothesItemsId", n), ItemIdNotEmpty));
      }
    }
  }

  /** `CustomerRequestValidator`. */
  function ValidateCustomer(request: CustomerRequest): (r: seq<ValidationFailure>)
    ensures ValidationFailure(Field("Name"), NameRequired) in r <==> IsNullOrWhiteSpace(request.name)
    ensures ValidationFailure(Field("Name"), NameLength) in r
      <==> !(MinLength <= Utf16Length(request.name) <= MaxLength)
    ensures forall f :: f in r ==> f.property == Field("Name") && f.message in {NameRequired, NameLength}
    ensures |r| == 0 <==>
      !IsNullOrWhiteSpace(request.name) && MinLength <= Utf16Length(request.name) <= MaxLength
  {
    TextRule("Name", request.name, NameRequired, NameLength)
  }

  /** `ClothesTypeRequestValidator`: the rule is on the `Type` field. */
  function ValidateClothesType(request: ClothesTypeRequest): (r: seq<ValidationFailure>)
    ensures ValidationFailure(Field("Type"), TypeRequired) in r <==> IsNullOrWhiteSpace(request.typeName)
    ensures ValidationFailure(Field("Type"), TypeLength) in r
      <==> !(MinLength <= Utf16Length(request.typeName) <= MaxLength)
    ensures forall f :: f in r ==> f.property == Field("Type") && f.message in {TypeRequired, TypeLength}
    ensures |r| == 0 <==>
      !IsNullOrWhiteSpace(request.typeName) && MinLength <= Utf16Length(request.typeName) <= MaxLength
  {
    TextRule("Type", request.typeName, TypeRequired, TypeLength)
  }

  /** `ClothesItemRequestValidator`: the name rule, then the price, then
      the type id. */
  function ValidateClothesItem(request: ClothesItemRequest): (r: seq<ValidationFailure>)
    ensures ValidationFailure(Field("Name"), NameRequired) in r <==> IsNullOrWhiteSpace(request.name)
    ensures ValidationFailure(Field("Name"), NameLength) in r
      <==> !(MinLength <= Utf16Length(request.name) <= MaxLength)
    ensures ValidationFailure(Field("Price"), PricePositive) in r <==> request.price <= 0.0
    ensures ValidationFailure(Field("ClothesTypeId"), TypeIdRequired) in r <==> IsEmpty(request.clothesTypeId)
    ensures ValidationFailure(Field("ClothesTypeId"), TypeIdNotEmpty) in r <==> IsEmpty(request.clothesTypeId)
    ensures forall f :: f in r ==> f.property in {Field("Name"), Field("Price"), Field("ClothesTypeId")}
    ensures |r| == 0 <==>
      && !IsNullOrWhiteSpace(request.name) && MinLength <= Utf16Length(request.name) <= MaxLength
      && request.price > 0.0 && !IsEmpty(request.clothesTypeId)
  {
    TextRule("Name", request.name, NameRequired, NameLength)
    + (if request.price > 0.0 then [] else [ValidationFailure(Field("Price"), PricePositive)])
    + GuidRule("ClothesTypeId", request.clothesTypeId, TypeIdRequired, TypeIdNotEmpty)
  }

  /** `OrderRequestValidator`: the customer id rule, then the item list
      rule (non-empty, and no element the empty GUID). */
  function ValidateOrder(request: OrderRequest): (r: seq<ValidationFailure>)
    ensures ValidationFailure(Field("CustomerId"), CustomerIdRequired) in r <==> IsEmpty(request.customerId)
    ensures ValidationFailure(Field("CustomerId"), CustomerIdNotEmpty) in r <==> IsEmpty(request.customerId)
    ensures ValidationFailure(Field("ClothesItemsId"), ItemsRequired) in r <==> |request.clothesItemsId| == 0
    ensures forall i :: 0 <= i < |request.clothesItemsId| ==>
      (ValidationFailure(Element("ClothesItemsId", i), ItemIdNotEmpty) in r <==> IsEmpty(request.clothesItemsId[i]))
    ensures forall f :: f in r && f.property.Element? ==>
      f.property.index < |request.clothesItemsId| && IsEmpty(request.clothesItemsId[f.property.index])
    ensures |r| == 0 <==>
      && !IsEmpty(request.customerId) && |request.clothesItemsId| > 0
      && forall i :: 0 <= i < |request.clothesItemsId| ==> !IsEmpty(request.clothesItemsId[i])
  {
    var ids := request.clothesItemsId;
    var elements := ElementFailures(ids);
    GuidRule("CustomerId", request.customerId, CustomerIdRequired, CustomerIdNotEmpty)
    + (if |ids| == 0 then [ValidationFailure(Field("ClothesItemsId"), ItemsRequired)] else [])
    + elements
  }

  /** A value of three spaces has an acceptable length but is still
      rejected as missing, and only as missing. */
  lemma BlankNameOnlyRequired()
    ensures ValidateCustomer(CustomerRequest("   ")) == [ValidationFailure(Field("Name"), NameRequired)]
  {
    assert Utf16Length("   ") == 3;
  }

  /** The empty string draws both failures, the required one first. */
  lemma EmptyNameBothFailures()
    ensures ValidateCustomer(CustomerRequest("")) ==
      [ValidationFailure(Field("Name"), NameRequired), ValidationFailure(Field("Name"), NameLength)]
  {
  }

  /** A string made only of characters beyond the Basic Multilingual
      Plane measures twice its number of characters. */
  lemma {:induction false} Utf16LengthAstral(s: string)
    requires forall i :: 0 <= i < |s| ==> s[i] > '\U{FFFF}'
    ensures Utf16Length(s) == 2 * |s|
    decreases |s|
  {
    if |s| > 0 {
      Utf16LengthAstral(s[..|s| - 1]);
    }
  }

  /** A character outside the Basic Multilingual Plane counts twice, so
      ten of them already reach the upper bound and eleven exceed it. */
  lemma AstralCharactersCountTwice()
    ensures ValidateCustomer(CustomerRequest(seq(10, _ => '\U{1F600}'))) == []
    ensures ValidateCustomer(CustomerRequest(seq(11, _ => '\U{1F600}'))) ==
      [ValidationFailure(Field("Name"), NameLength)]
  {
    var ten := seq(10, _ => '\U{1F600}');
    var eleven := seq(11, _ => '\U{1F600}');
    assert !IsWhiteSpace(ten[0]);
    assert !IsWhiteSpace(eleven[0]);
    Utf16LengthAstral(ten);
    Utf16LengthAstral(eleven);
  }
}
