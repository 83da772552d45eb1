# WebShop service core in Dafny

A model of the application core of WebShop, a small ASP.NET shop for
customers, clothes items, clothes types and orders:

- the four services (`OrderService`, `CustomerService`, `ClothesService`,
  `TypesService`) that answer with FluentResults `Result` values and write
  through the repositories;
- order creation: fetching the ordered items, summing their prices, the
  loyalty rule (a held discount takes 1000 off and is consumed, every third
  order grants the next discount), the customer's running total;
- the customer import (`FetchAndSaveCustomersAsync`), which adds each
  fetched customer whose name is not yet stored;
- the presenter that turns a `Result` into Ok / NoContent / BadRequest with
  an `ErrorResponse`, and `ErrorWithReason.WithReason`;
- the four FluentValidation request validators.

How the model is put together:

- `results.dfy`: the FluentResults shapes used here. An `Error` is a message
  and a metadata map; `Result<T>` is a success with a value or a failure
  with its errors; `Outcome` is the payload-less `Result`. FluentResults
  counts a result as failed exactly when it holds an error, so a failure's
  error list is a non-empty sequence by its type.
- `guids.dfy`: a GUID is its 32 hexadecimal digits. `Text` is the
  lower-case `8-4-4-4-12` form string interpolation produces. `Parse`
  reads it back. `Empty` is `Guid.Empty`.
- `entities.dfy`: the stored entities, request and response records, and
  the field copies the object mapper performs. `decimal` is `real`. The
  `int` order counter is a 32-bit integer whose `++` wraps.
- `store.dfy`: the four repositories as maps from id to entity (`Shop`).
  A service call returns a `Reply`: its result plus the repository writes it
  issued, in order. `Commit` applies those writes to a store. "Writes
  nothing" therefore reads `calls == []`.
- `pricing.dfy`: the price sum and the loyalty step of order creation.
- `order_service.dfy`, `customer_service.dfy`, `clothes_service.dfy`,
  `types_service.dfy`: the services.
- `error_response.dfy`, `presenter.dfy`: the error response and presenter.
- `validators.dfy`: the validators. Each returns the list of
  `ValidationFailure`s (property and message) FluentValidation would report.

`Guid.NewGuid()` is not modelled as a generator. The id it draws is a
parameter, and the operation requires it to be new to its table.

The model follows the code in two places where a reader might expect
otherwise. `OrderService.Add` accepts an empty item list: the service
checks nothing, and only the order validator rejects such a request. The
held discount is not floored at zero: `OrderService.DiscountCanChargeNegative`
shows a negative charge and falling spending.

## Model

| member | source | states |
|---|---|---|
| Entities.Inc32 | WebShop/WebShopApp/Services/OrderService.cs:75 | `OrdersCount++` adds one, except that the largest `int` wraps to the smallest |
| Entities.NewCustomer | WebShop/WebShopData/DataModels/Customer.cs:5-9 | a customer mapped from a request has the request's name under the given id and the zero loyalty defaults: nothing spent, no discount, no orders |
| Entities.NewClothesItem | WebShop/WebShopApp/Mappings/MappingProfile.cs:17 | a mapped item has the request's name, price and type id under the given id |
| Entities.NewClothesType | WebShop/WebShopApp/Mappings/MappingProfile.cs:18 | a mapped type has the request's label under the given id |
| Entities.NewOrder | WebShop/WebShopApp/Mappings/MappingProfile.cs:20 | a mapped order has the request's customer under the given id, no items and a zero total; the request's item ids are not copied |
| Entities.EditCustomer | WebShop/WebShopApp/Services/CustomerService.cs:64-75 | an edited customer takes the request's name and keeps its id, spending, discount and order counter |
| Entities.EditClothesItem | WebShop/WebShopApp/Services/ClothesService.cs:49-60 | an edited item takes the request's name, price and type id and keeps its id |
| Entities.EditClothesType | WebShop/WebShopApp/Services/TypesService.cs:50-61 | an edited type takes the request's label and keeps its id |
| Entities.EditOrder | WebShop/WebShopApp/Services/OrderService.cs:98 | an edited order takes the request's customer and keeps its id, its items and its total: the request's item ids are not applied and nothing is re-priced |
| Entities.EditOverwrites | WebShop/WebShopApp/Mappings/MappingProfile.cs:17-20 | editing twice is editing once with the later request, for all four entities |
| Entities.EditAfterNew | WebShop/WebShopApp/Mappings/MappingProfile.cs:17-20 | editing a freshly mapped entity gives what mapping the later request would give under the same id |
| Entities.CustomerView | WebShop/WebShopApp/Mappings/MappingProfile.cs:25 | the customer response shows id, name and spending |
| Entities.ClothesItemView | WebShop/WebShopApp/Mappings/MappingProfile.cs:23 | the item response shows id, name, price and type id |
| Entities.ClothesTypeView | WebShop/WebShopApp/Mappings/MappingProfile.cs:24 | the type response shows id and label |
| Entities.OrderView | WebShop/WebShopApp/Mappings/MappingProfile.cs:26 | the order response shows id, customer id and total |
| Entities.ViewsHideState | WebShop/WebShopApp/Mappings/MappingProfile.cs:25-26 | a customer's discount and order counter, and an order's items, do not show in the responses |
| Guids.Text | WebShop/WebShopApp/Services/OrderService.cs:55 | the text of a GUID interpolated into a message is always 36 characters |
| Guids.TextFormat | WebShop/WebShopApp/Services/OrderService.cs:55 | the text has hyphens at positions 8, 13, 18 and 23 and the GUID's digits, in order, everywhere else |
| Guids.ParseText | WebShop/WebShopApp/Services/OrderService.cs:55 | reading the text back gives the same GUID |
| Guids.TextParse | WebShop/WebShopApp/Services/OrderService.cs:55 | every string that reads as a GUID is exactly that GUID's text |
| Guids.TextInjective | WebShop/WebShopApp/Services/OrderService.cs:55 | distinct GUIDs have distinct texts |
| ErrorResponses.NewErrorItem | WebShop/WebShopApp/Models/ErrorResponse.cs:12-15 | a new error item carries the given message and no reason |
| ErrorResponses.WithReason | WebShop/WebShopApp/Models/ErrorResponse.cs:42-47 | adding a reason succeeds iff neither reason key is present yet (a duplicate key throws); it keeps the message and every old key, and adds the description and the name under their own keys |
| Presenter.TextOrEmpty | WebShop/WebShopApp/Models/ValidatedResultPresenter.cs:45-46 | a present metadata value is read as itself; the text is empty iff the value is null or the empty string |
| Presenter.MapError | WebShop/WebShopApp/Models/ValidatedResultPresenter.cs:38-51 | the item keeps the error's message; it has a reason iff both reason keys are present; description and name each come from their own key, a null value read as the empty string |
| Presenter.MapErrors | WebShop/WebShopApp/Models/ValidatedResultPresenter.cs:32 | one item per error, same length, item `i` mapped from error `i` |
| Presenter.PresentErrorResponse | WebShop/WebShopApp/Models/ValidatedResultPresenter.cs:28-36 | always a bad request whose error list has the errors' length and order, messages preserved, each reason present iff both keys are |
| Presenter.Present | WebShop/WebShopApp/Models/ValidatedResultPresenter.cs:8-16 | Ok iff the result is a success, carrying exactly its value; a failure becomes the bad request of its errors, which lists at least one item |
| Presenter.PresentOutcome | WebShop/WebShopApp/Models/ValidatedResultPresenter.cs:18-26 | NoContent iff the payload-less result is a success; a failure becomes the bad request of its errors, which lists at least one item |
| Presenter.FailurePresented | WebShop/WebShopApp/Models/ValidatedResultPresenter.cs:8-26 | a service failure made from a plain message, with or without a value type, reaches the client as a bad request with exactly that message and no reason; the plain error maps to a new error item |
| Presenter.ReasonRoundTrip | WebShop/WebShopApp/Models/ErrorResponse.cs:38-47 | presenting `new ErrorWithReason(m).WithReason(d, n)` gives the item with message `m`, description `d` and name `n`, never swapped |
| Presenter.PresentReasons | WebShop/WebShopApp/Models/ValidatedResultPresenter.cs:28-36 | a list of errors that all carry reasons is presented with every message and reason intact, in order |
| Presenter.SingleKeyNoReason | WebShop/WebShopApp/Models/ValidatedResultPresenter.cs:42 | an error with only one of the two reason keys gets no reason |
| Store.CommitWellKeyed | WebShop/WebShopData/Repositories/CustomerRepository.cs:22-40 | repository writes store every entity under its own id, so a store keyed by entity id stays so |
| Store.ListAll | WebShop/WebShopApp/Services/OrderService.cs:25-33 | listing fails with "No orders found." iff the table is empty; otherwise one response per stored entity, under its id |
| Store.FindById | WebShop/WebShopApp/Services/OrderService.cs:35-43 | fetching by id succeeds iff the id is stored, with that entity's response; otherwise it fails with the given message |
| Pricing.PriceSum | WebShop/WebShopApp/Services/OrderService.cs:61 | the base total of an order with no items is zero, and of an order with one item that item's price |
| Pricing.PriceSumBounds | WebShop/WebShopApp/Services/OrderService.cs:61 | with no negative price the base total is not negative and no single item costs more than the whole order |
| Pricing.PriceSumAppend | WebShop/WebShopApp/Services/OrderService.cs:61 | the price sum of two item lists put together is the sum of their sums |
| Pricing.PriceSumPermutation | WebShop/WebShopApp/Services/OrderService.cs:61 | the base total does not depend on the order in which items are listed |
| Pricing.ApplyLoyalty | WebShop/WebShopApp/Services/OrderService.cs:69-83 | the total is the base minus 1000 iff a discount was held; the new discount is held iff the wrapped counter reached 3, which resets it to 0; a counter in 0..2 stays there and advances modulo 3; spending grows by the charged total; id and name kept |
| Pricing.LoyaltyCycle | WebShop/WebShopApp/Services/OrderService.cs:69-83 | over any run of orders by one customer the counter advances modulo 3, exactly the orders after a completed third order (and the first, if a discount was held) are discounted, and spending grows by the sum of the charged totals |
| OrderService.ClothesItemNotFound | WebShop/WebShopApp/Services/OrderService.cs:55 | the missing-item message has a fixed length and holds the missing id's text at a fixed position |
| OrderService.ClothesItemNotFoundInjective | WebShop/WebShopApp/Services/OrderService.cs:55 | different missing ids give different "Clothes item with ID … not found." messages |
| OrderService.FetchItems | WebShop/WebShopApp/Services/OrderService.cs:50-58 | the fetch succeeds iff every requested id is stored, returning the stored items one per requested id, in request order, repeats kept |
| OrderService.FetchReportsFirstMissing | WebShop/WebShopApp/Services/OrderService.cs:50-58 | when some id is missing, the fetch fails with the single message naming the first missing id |
| OrderService.FetchFailureHasFirstMissing | WebShop/WebShopApp/Services/OrderService.cs:50-58 | a list with a missing id has a first missing id |
| OrderService.GetAll | WebShop/WebShopApp/Services/OrderService.cs:25-33 | fails with "No orders found." iff no order is stored; otherwise one response (id, customer id, total) per order |
| OrderService.GetById | WebShop/WebShopApp/Services/OrderService.cs:35-43 | succeeds iff the order is stored, with its response; otherwise fails with "Order not found." |
| OrderService.Add | WebShop/WebShopApp/Services/OrderService.cs:45-88 | creation succeeds iff every requested item and the customer are stored; any failure writes nothing; a missing customer, with all items found, fails with "Customer not found."; a created order has the fresh id, the request's customer, the stored items in request order and the loyalty-adjusted total, and the writes are the customer update followed by the order insert |
| OrderService.AddFailsOnFirstMissing | WebShop/WebShopApp/Services/OrderService.cs:50-58 | with an item missing, creation fails naming the first missing id in request order and writes nothing |
| OrderService.ItemsCheckedBeforeCustomer | WebShop/WebShopApp/Services/OrderService.cs:50-67 | with both an item and the customer missing, the failure names the missing item, never the customer |
| OrderService.AddEffect | WebShop/WebShopApp/Services/OrderService.cs:45-88 | after a successful creation only the ordering customer changed: spending grows by the total, the total is the price sum less 1000 iff a discount was held, a counter in the cycle stays in it and grants a discount iff it was at 2; the order is stored under its fresh id and the order count grows by one; items and types are untouched |
| OrderService.AddKeepsLoyaltyCycle | WebShop/WebShopApp/Services/OrderService.cs:75-81 | whatever the outcome of a creation, a store whose counters are all in 0..2 stays so |
| OrderService.ThirdOrderGrantsDiscount | WebShop/WebShopTests/ServiceTests/OrderServiceTests.cs:104-128 | 500 spent, no discount, two orders, one item at 20: charged 20, counter reset to 0, discount granted, 520 spent |
| OrderService.DiscountConsumed | WebShop/WebShopTests/ServiceTests/OrderServiceTests.cs:130-182 | a discount holder with one order buys an item at 2000: charged 1000, discount cleared, counter at 2 |
| OrderService.DiscountCanChargeNegative | WebShop/WebShopApp/Services/OrderService.cs:69-83 | the discount is not capped: one item at 20 with a held discount is charged -980 and spending drops by 980 |
| OrderService.Update | WebShop/WebShopApp/Services/OrderService.cs:90-101 | succeeds iff the order is stored, then writing it back with the request's customer; otherwise fails with "Item not found." and writes nothing |
| OrderService.Delete | WebShop/WebShopApp/Services/OrderService.cs:103-113 | succeeds iff the order is stored, then deleting exactly it; otherwise fails with "Item not found." and writes nothing |
| OrderService.UpdateEffect | WebShop/WebShopApp/Services/OrderService.cs:90-101 | after an update the order has the request's customer but keeps its items and its total (no re-pricing); other tables unchanged |
| OrderService.DeleteEffect | WebShop/WebShopApp/Services/OrderService.cs:103-113 | a delete removes only that order; customers keep the loyalty changes the order made |
| CustomerService.NameTaken | WebShop/WebShopData/Repositories/CustomerRepository.cs:41-44 | a name is taken iff it is among the names of the stored customers |
| CustomerService.Import | WebShop/WebShopApp/Services/CustomerService.cs:23-35 | the import adds at most one customer per fetched record and issues nothing but inserts |
| CustomerService.ImportFrame | WebShop/WebShopApp/Services/CustomerService.cs:23-35 | the import keeps every stored customer as it was, adds only under drawn ids, and touches no other table |
| CustomerService.ImportCoversNames | WebShop/WebShopApp/Services/CustomerService.cs:23-35 | after the import every fetched name is held by some customer |
| CustomerService.ImportAddsExactly | WebShop/WebShopApp/Services/CustomerService.cs:23-35 | fetched record `i` is added iff its name was neither stored nor used by an earlier fetched record, and then with default loyalty fields |
| CustomerService.ImportEffect | WebShop/WebShopApp/Services/CustomerService.cs:23-35 | the frame, cover and exactly-added properties together |
| CustomerService.ImportNothingNew | WebShop/WebShopApp/Services/CustomerService.cs:27-33 | when every fetched name is already stored the import writes nothing |
| CustomerService.ImportIdempotent | WebShop/WebShopApp/Services/CustomerService.cs:23-35 | importing the same list a second time adds nothing |
| CustomerService.GetAll | WebShop/WebShopApp/Services/CustomerService.cs:36-44 | fails with "No orders found." iff no customer is stored; otherwise one response (id, name, spending) per customer |
| CustomerService.GetById | WebShop/WebShopApp/Services/CustomerService.cs:46-55 | succeeds iff the customer is stored, with its response; otherwise fails with "Item not found." |
| CustomerService.Add | WebShop/WebShopApp/Services/CustomerService.cs:57-62 | always succeeds with a customer under the drawn id, the requested name, no spending, no discount and no orders, inserted once |
| CustomerService.Update | WebShop/WebShopApp/Services/CustomerService.cs:64-75 | succeeds iff the customer is stored, then writing it back renamed; otherwise fails with "Item not found." and writes nothing |
| CustomerService.Delete | WebShop/WebShopApp/Services/CustomerService.cs:77-87 | succeeds iff the customer is stored, then deleting exactly it; otherwise fails with "Item not found." and writes nothing |
| CustomerService.AddThenGet | WebShop/WebShopApp/Services/CustomerService.cs:57-62 | an added customer reads back with its name and no spending, and listing then succeeds |
| CustomerService.UpdateEffect | WebShop/WebShopApp/Services/CustomerService.cs:64-75 | an update changes only the name of the addressed customer; spending, discount and counter stay |
| CustomerService.DeleteEffect | WebShop/WebShopApp/Services/CustomerService.cs:77-87 | a delete removes exactly the addressed customer, which then reads as not found |
| ClothesService.GetAll | WebShop/WebShopApp/Services/ClothesService.cs:20-28 | fails with "No orders found." iff no item is stored; otherwise one response per item |
| ClothesService.GetById | WebShop/WebShopApp/Services/ClothesService.cs:30-39 | succeeds iff the item is stored, with its response; otherwise fails with "Nema takvog artikla bree" |
| ClothesService.Add | WebShop/WebShopApp/Services/ClothesService.cs:41-47 | always succeeds with the requested name, price and type under the drawn id, inserted once |
| ClothesService.Update | WebShop/WebShopApp/Services/ClothesService.cs:49-60 | succeeds iff the item is stored, then writing it back with the request's fields; otherwise fails and writes nothing |
| ClothesService.Delete | WebShop/WebShopApp/Services/ClothesService.cs:62-72 | succeeds iff the item is stored, then deleting exactly it; otherwise fails and writes nothing |
| ClothesService.AddThenGet | WebShop/WebShopApp/Services/ClothesService.cs:41-47 | an added item reads back as requested under its new id; the table grows by one |
| ClothesService.UpdateEffect | WebShop/WebShopApp/Services/ClothesService.cs:49-60 | an update rewrites name, price and type of the addressed item only, keeping its id |
| ClothesService.DeleteEffect | WebShop/WebShopApp/Services/ClothesService.cs:62-72 | a delete removes exactly the addressed item |
| TypesService.GetAll | WebShop/WebShopApp/Services/TypesService.cs:21-29 | fails with "No orders found." iff no type is stored; otherwise one response per type |
| TypesService.GetById | WebShop/WebShopApp/Services/TypesService.cs:31-40 | succeeds iff the type is stored, with its response; otherwise fails with "Item not found." |
| TypesService.Add | WebShop/WebShopApp/Services/TypesService.cs:42-48 | always succeeds with the requested label under the drawn id, inserted once |
| TypesService.Update | WebShop/WebShopApp/Services/TypesService.cs:50-61 | succeeds iff the type is stored, then writing it back relabelled; otherwise fails with "Item not found." and writes nothing |
| TypesService.Delete | WebShop/WebShopApp/Services/TypesService.cs:63-73 | succeeds iff the type is stored, then deleting exactly it; otherwise fails and writes nothing |
| TypesService.AddThenGet | WebShop/WebShopApp/Services/TypesService.cs:42-48 | an added type reads back with its label under its new id |
| TypesService.UpdateEffect | WebShop/WebShopApp/Services/TypesService.cs:50-61 | an update relabels the addressed type only and it reads back relabelled |
| TypesService.DeleteEffect | WebShop/WebShopApp/Services/TypesService.cs:63-73 | a delete removes exactly the addressed type |
| Validators.IsNullOrWhiteSpace | WebShop/WebShopApp/Validators/CustomerRequestValidator.cs:11 | the empty string is blank, and a string is blank iff every character in it is white space |
| Validators.BlankConcat | WebShop/WebShopApp/Validators/CustomerRequestValidator.cs:11 | two strings put together are blank iff both are |
| Validators.Utf16Length | WebShop/WebShopApp/Validators/CustomerRequestValidator.cs:12 | the measured length lies between the number of characters and twice it, and equals it iff no character lies beyond the Basic Multilingual Plane |
| Validators.Utf16LengthAstral | WebShop/WebShopApp/Validators/CustomerRequestValidator.cs:12 | a string of characters beyond the Basic Multilingual Plane measures twice its character count |
| Validators.TextRule | WebShop/WebShopApp/Validators/CustomerRequestValidator.cs:10-12 | a `NotEmpty().Length(3, 20)` rule reports nothing iff the value is not blank and its length is within 3..20, and only on its own property |
| Validators.GuidRule | WebShop/WebShopApp/Validators/OrderRequestValidator.cs:10-12 | a `NotEmpty().NotEqual(Guid.Empty)` rule reports nothing iff the GUID is not empty, and only on its own property |
| Validators.ElementFailures | WebShop/WebShopApp/Validators/OrderRequestValidator.cs:16 | one "ClothesItemId cannot be an empty GUID." failure at index `i` of `ClothesItemsId` iff element `i` is the empty GUID, and nothing else |
| Validators.ElementFailuresOrdered | WebShop/WebShopApp/Validators/OrderRequestValidator.cs:16 | the element failures come in list order |
| Validators.ValidateCustomer | WebShop/WebShopApp/Validators/CustomerRequestValidator.cs:10-12 | "Name is required." iff the name is blank; "Name must be between 3 and 20 characters." iff its length is outside 3..20; both on `Name`, and no failure iff neither |
| Validators.ValidateClothesType | WebShop/WebShopApp/Validators/ClothesTypeRequestValidator.cs:10-12 | "Type is required." iff the label is blank; "Type must be between 3 and 20 characters." iff its length is outside 3..20; no failure iff neither |
| Validators.ValidateClothesItem | WebShop/WebShopApp/Validators/ClothesItemRequestValidator.cs:10-19 | the name failures as for a customer; "Price must be greater than 0." iff the price is at most 0; both type id messages iff the type id is the empty GUID; no failure iff the request is valid on all three fields |
| Validators.ValidateOrder | WebShop/WebShopApp/Validators/OrderRequestValidator.cs:10-16 | both customer id messages iff the customer id is empty; "At least one ClothesItemId is required." iff the list is empty; an element failure at exactly the empty elements; no failure iff the customer id is set and the list is non-empty with no empty element |
| Validators.BlankNameOnlyRequired | WebShop/WebShopApp/Validators/CustomerRequestValidator.cs:10-12 | a name of three spaces is of acceptable length but reported as required, and only that |
| Validators.EmptyNameBothFailures | WebShop/WebShopTests/ValidatorsTests/CustomerRequestValidatorTests.cs:17-23 | the empty name draws "Name is required." and then the length message |
| Validators.AstralCharactersCountTwice | WebShop/WebShopApp/Validators/CustomerRequestValidator.cs:12 | ten characters beyond the Basic Multilingual Plane pass the length check, eleven do not |

## Left out

- Controllers, hosting, dependency injection, the mediator handlers and the
  database context: they only route calls to the services and presenter.
- The HTTP client of the customer import. The fetched customer list is an
  input to `CustomerService.Import`.
- Asynchrony, concurrency and transactions. Each service call is one atomic
  step. In the source, the customer update and the order insert of order
  creation are two separate saves. A failure between them is not modelled.
- Reads issued by the services are not recorded, only writes.
- `Guid.NewGuid()`: the drawn id is a parameter required to be new to its
  table. The customer import requires its drawn ids to be pairwise distinct.
- Repository listing order: lists are modelled as maps from id to response,
  because the repositories promise no order.
- The object mapper is modelled by explicit field copies. The request
  records for customers, clothes types and orders, and the order and clothes
  type response records, are not part of this model's sources. Their fields
  are inferred from the validators, the mapping profile and the tests.
- `null` strings and lists. Requests and entities always hold a value, so the
  `null` cases of `NotEmpty`, `Length` and `ForEach` are not modelled.
- Navigation properties (`Customer.Orders`, `ClothesItem.Orders`,
  `ClothesType.ClothesItems`, `Order.Customer`) and foreign-key integrity:
  deleting a customer or item is not checked against existing orders.
- `decimal` range and precision: money is an exact `real`, so overflow and
  rounding of sums are not modelled.
- The boolean that repository `UpdateAsync` / `DeleteAsync` return: every
  service ignores it.
- ErrorResponses.WithReason: a duplicate key throws in the source and gives
  `None` in the model. When `ReasonDescription` is already present the
  first add throws and the error is left as it was. When only `ReasonName`
  is present the description is added before the second add throws, so the
  error is left partly changed; the model does not describe that error.
- Metadata values: FluentResults metadata holds any object, and the
  presenter reads a reason through `ToString()`. The model holds a value as
  an optional string, so a non-string value and its `ToString()` are not
  modelled.
- Validators.ValidateOrder: a failure at an element index is modelled as
  the structured property (`ClothesItemsId`, index), not as the text
  `ClothesItemsId[1]`.
