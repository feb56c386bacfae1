# RightShip order and product services: a Dafny model of the domain core

This project models the domain core of the RightShip order and product services and
proves properties of it in Dafny. The services are event-sourced in style:

- Every change to an aggregate goes through `Apply`. `Apply` stamps the event with the
  next version, runs the aggregate's `When` transition, bumps the version, checks the
  aggregate's invariant and queues the event for publication.
- At save time, the DbContext turns every queued event of a changed aggregate into one
  outbox row in the same save. It empties the queues only once the save has gone through.

What is modelled:

- **Aggregate-root base** (`aggregate_root.dfy`). The typed and base `Apply` steps as
  methods of a class `AggregateRoot`. Each aggregate class owns one, because the model
  uses composition where C# uses inheritance.
- **Value objects.** `Money` (`money.dfy`) and `ProductQuantity` (`product_quantity.dfy`)
  are subset types: a value of the type has passed the constructor's check. Each
  operator that can fail returns a `Result`.
- **Order aggregates.** `Order` and its lines (`order.dfy`, `order_line.dfy`). The order's
  snapshot total is kept equal to the sum of its lines' subtotals by every successful
  `Create`, `AddLines` and `RemoveLine`.
- **Product aggregates.** `Product` and the `ProductReservation` state machine
  (`product.dfy`, `product_reservation.dfy`). A reservation moves Pending → Confirmed or
  Pending → Expired, and both end states are terminal.
- **`ReservationConfirmationService`** (`reservation_confirmation.dfy`).
- **The product service's unit of work** (`product_store.dfy`). It covers:
  - the tracked products and reservations;
  - the repositories' `LoadAsync`/`AddAsync`;
  - the commits and the outbox table. Each commit writes one outbox row per queued
    event of a tracked aggregate and then empties every queue.

  A ghost field `roots` names the tracked aggregates' event queues, so that a method
  can say which objects it may change. A commit scans every tracked aggregate instead
  of only the changed entries. Only an aggregate that has changed holds queued events,
  so the rows written are the same.
- **The reservation repository's two queries** (`reservation_queries.dfy`): the pending
  total used for admission, and the batch of expired pending reservations.
- **The gRPC service** (`product_grpc_service.dfy`, with `reservation_batch.dfy`):
  - argument checks;
  - TTL defaulting;
  - admission against `quantity − pending`;
  - batch confirmation that commits once or not at all.
- **One tick of the expiry sweeper** (`expiry_sweeper.dfy`).
- **The product list.** Filter, count, sort-key choice and paging (`product_listing.dfy`,
  with `sorting.dfy` and `text.dfy` for the LINQ and string operations it uses), and
  `ProductAppService` (`product_app_service.dfy`).
- **The transactional outbox** of `BaseEfCoreDbContext` (`outbox.dfy`).

How the model stands in for the environment:

- `Guid` is a natural number, and `Guid.Empty` is 0.
- Times are `int` ticks.
- C# `int` is the subset type `Int32`, and unchecked wrap-around is written out
  (`Common.Wrap32`).
- `decimal` is `real`.
- The clock (`DateTime.UtcNow`) and `Guid.NewGuid` are parameters (`now`, `newId`, and
  explicit fresh ids).
- `Guid.TryParse`, the JSON serialiser and `Guid.ToString` are function parameters.
- The exceptions are the constructors of one `Error` datatype. A method that may throw
  returns an `Outcome` or a `Result`.
- A gRPC `RpcException` is an `RpcFailure` carrying its status code.

Three places where the code behaves differently from what a reader might expect. The
model follows the code in each:

- `Product.Create` takes a `createdBy` argument but puts it in no event. `CreatedBy` and
  `UpdatedBy` are set from the event's `PerformedBy`, which is never filled in, so they
  stay `Guid.Empty`.
- A negative order total or price never reaches `EnsureValidState`. The `Money` init
  accessor inside `When` throws first, so `NegativeOrderTotalException` cannot be raised.
- `Confirm` refuses a reservation only when `now > ExpiresAt`, but the sweeper releases
  one once `ExpiresAt <= now`. At `now == ExpiresAt` a reservation can be both confirmed
  and swept (`ProductReservations.ConfirmBoundary`).

## Model

| member | source | states |
|---|---|---|
| AggregateRoots.EventTopic | Revamped/RightShip.Core/RightShip.Core.Domain/Entities/AggregateRoot.cs:59-62 | the topic is the type name followed by `_events` |
| AggregateRoots.EventTopicInjective | Revamped/RightShip.Core/RightShip.Core.Domain/Entities/AggregateRoot.cs:59-62 | two aggregate types with the same topic have the same name |
| AggregateRoots.TypedSourceId | Revamped/RightShip.Core/RightShip.Core.Domain/Entities/AggregateRoot.cs:70-82 | a non-default Id overwrites the SourceId; a default Id with a missing or default SourceId gets the fresh id; otherwise the SourceId is kept; a SourceId is always present afterwards |
| AggregateRoots.StampEvent | Revamped/RightShip.Core/RightShip.Core.Domain/Entities/AggregateRoot.cs:46-48 | a null SourceId is refused with ArgumentNullException; otherwise the event is stamped with Version + 1 and is otherwise unchanged |
| AggregateRoots.ApplyOutcome.ToOutcome | Revamped/RightShip.Core/RightShip.Core.Domain/Entities/AggregateRoot.cs:44-52 | Apply succeeds exactly when no step threw, and reports the exception of the step that did |
| AggregateRoots.PendingOrderedAppend | Revamped/RightShip.Core/RightShip.Core.Domain/Entities/AggregateRoot.cs:49-57 | queuing the event that produced the new version keeps the queue in application order, each event naming its aggregate |
| AggregateRoots.PendingAscending | Revamped/RightShip.Core/RightShip.Core.Domain/Entities/AggregateRoot.cs:54-57 | a queue whose events each step up in version is strictly ascending in version throughout |
| AggregateRoots.AggregateRoot.constructor | Revamped/RightShip.Core/RightShip.Core.Domain/Entities/AggregateRoot.cs:14-15 | a new aggregate has version 0 and an empty queue |
| AggregateRoots.AggregateRoot.GetDistributedEvents | Revamped/RightShip.Core/RightShip.Core.Domain/Entities/AggregateRoot.cs:17 | the copy has the queue's events, in order, and keeps the queue's ordering |
| AggregateRoots.AggregateRoot.ClearDistributedEvents | Revamped/RightShip.Core/RightShip.Core.Domain/Entities/AggregateRoot.cs:16 | the queue is empty afterwards |
| AggregateRoots.AggregateRoot.GetEventTopic | Revamped/RightShip.Core/RightShip.Core.Domain/Entities/AggregateRoot.cs:59-62 | the aggregate publishes on its own type's topic |
| AggregateRoots.AggregateRoot.Stamp | Revamped/RightShip.Core/RightShip.Core.Domain/Entities/AggregateRoot.cs:70-82 | the typed Apply then the base stamp: the SourceId is resolved as TypedSourceId says, the version is Version + 1, and time, payload and performer are kept; the null check cannot fire after the typed step |
| AggregateRoots.AggregateRoot.AdvanceVersion | Revamped/RightShip.Core/RightShip.Core.Domain/Entities/AggregateRoot.cs:28-36 | Version takes the applied event's version, and the queue stays ordered |
| AggregateRoots.AggregateRoot.AddDistributedEvent | Revamped/RightShip.Core/RightShip.Core.Domain/Entities/AggregateRoot.cs:54-57 | the event is appended at the end of the queue, which stays ordered |
| MoneyValue.FromAmount | Revamped/RightShip.Core/RightShip.Core.Domain/ValueObjects/Money.cs:19-31 | a negative amount throws ArgumentException; any other amount is kept as given |
| MoneyValue.Zero | Revamped/RightShip.Core/RightShip.Core.Domain/ValueObjects/Money.cs:33-36 | the amount is 0 |
| MoneyValue.Add | Revamped/RightShip.Core/RightShip.Core.Domain/ValueObjects/Money.cs:38-44 | the amount is the sum, and the init check always accepts it |
| MoneyValue.Sub | Revamped/RightShip.Core/RightShip.Core.Domain/ValueObjects/Money.cs:46-52 | fails exactly when the difference would be negative; otherwise adding `b` back gives `a` |
| MoneyValue.MulDecimal | Revamped/RightShip.Core/RightShip.Core.Domain/ValueObjects/Money.cs:59-65 | the amount is the product; fails exactly when that product is negative |
| MoneyValue.MulInt | Revamped/RightShip.Core/RightShip.Core.Domain/ValueObjects/Money.cs:54-57 | the same as the decimal overload on the converted int; never fails for a non-negative multiplier |
| MoneyValue.Div | Revamped/RightShip.Core/RightShip.Core.Domain/ValueObjects/Money.cs:67-78 | a zero divisor throws DivideByZeroException before the init check; otherwise the result times the divisor is the amount, and it fails exactly when the quotient is negative |
| MoneyValue.MulDivRoundTrip | Revamped/RightShip.Core/RightShip.Core.Domain/ValueObjects/Money.cs:59-78 | multiplying by a positive factor and dividing by it gives the original money back |
| MoneyValue.NegativeMultiplierFails | Revamped/RightShip.Core/RightShip.Core.Domain/ValueObjects/Money.cs:54-65 | a negative int multiplier on a positive amount fails |
| ProductQuantityValue.FromValue | Revamped/RightShip.ProductService/RightShip.ProductService.Domain.Shared/ValueObjects/ProductQuantity.cs:19-27 | a negative value throws ArgumentException; otherwise the value is kept |
| ProductQuantityValue.Zero | Revamped/RightShip.ProductService/RightShip.ProductService.Domain.Shared/ValueObjects/ProductQuantity.cs:29 | the value is 0 |
| ProductQuantityValue.Add | Revamped/RightShip.ProductService/RightShip.ProductService.Domain.Shared/ValueObjects/ProductQuantity.cs:31-32 | the value is `a + b`; a sum past the int range wraps negative and is refused |
| ProductQuantityValue.Sub | Revamped/RightShip.ProductService/RightShip.ProductService.Domain.Shared/ValueObjects/ProductQuantity.cs:34-43 | the difference when it is not negative; otherwise the "negative after subtraction" ArgumentException |
| ProductQuantityValue.AddSubRoundTrip | Revamped/RightShip.ProductService/RightShip.ProductService.Domain.Shared/ValueObjects/ProductQuantity.cs:31-43 | subtraction undoes addition and addition undoes subtraction |
| Common.Wrap32 | Revamped/RightShip.ProductService/RightShip.ProductService.Domain.Shared/ValueObjects/ProductQuantity.cs:31-32 | C#'s unchecked `int` arithmetic: an in-range value is kept, and any value is congruent to its wrapped result modulo 2^32 |
| Events.NewEvent | Revamped/RightShip.ProductService/RightShip.ProductService.Domain/Entities/Product.cs:55-64 | an event as the domain methods build it: the SourceId, time and payload given, version 0 until Apply stamps it, and no PerformedBy |
| OrderLines.CreateOrderLine | Revamped/RightShip.OrderService/RightShip.OrderService.Domain/Entities/OrderLine.cs:22-43 | an empty product id fails first, then a quantity <= 0; on success the fields are the arguments |
| OrderLines.SubTotal | Revamped/RightShip.OrderService/RightShip.OrderService.Domain/Entities/OrderLine.cs:16 | the subtotal is unit price × quantity, and the multiplication cannot fail |
| OrderLines.LinesTotal | Revamped/RightShip.OrderService/RightShip.OrderService.Domain/Entities/Order.cs:55 | the sum of the lines' subtotals, never negative; the snapshot total is kept equal to it |
| OrderLines.LinesTotalAppend | Revamped/RightShip.OrderService/RightShip.OrderService.Domain/Entities/Order.cs:93-94 | the total of appended lines is the old total plus the added subtotals |
| OrderLines.LinesTotalRemove | Revamped/RightShip.OrderService/RightShip.OrderService.Domain/Entities/Order.cs:114 | removing a line takes exactly its subtotal off the total |
| Orders.PayloadLine | Revamped/RightShip.OrderService/RightShip.OrderService.Domain/Entities/Order.cs:139-144 | `When` accepts a payload exactly when its unit price is not negative, its product is not empty and its quantity is positive, and it throws the first check's exception otherwise |
| Orders.FirstBadPayload | Revamped/RightShip.OrderService/RightShip.OrderService.Domain/Entities/Order.cs:139-144 | every payload before the returned index is accepted, and the one at the index is refused |
| Orders.FirstBadPayloadIs | Revamped/RightShip.OrderService/RightShip.OrderService.Domain/Entities/Order.cs:139-144 | a run of accepted payloads ended by a refused one, or by the end, locates the first refusal |
| Orders.PayloadLines | Revamped/RightShip.OrderService/RightShip.OrderService.Domain/Entities/Order.cs:139-144 | one line per accepted payload, in order, each the line `OrderLine.Create` builds from it |
| Orders.PayloadTotalIsLinesTotal | Revamped/RightShip.OrderService/RightShip.OrderService.Domain/Entities/Order.cs:55 | the total the `Aggregate` fold announces is the sum of the subtotals of the lines the payloads become |
| Orders.PayloadTotal | Revamped/RightShip.OrderService/RightShip.OrderService.Domain/Entities/Order.cs:93 | the `Aggregate` fold of unit price × quantity over the payloads; PayloadTotalIsLinesTotal relates it to the lines they become |
| Orders.CreatePayloads | Revamped/RightShip.OrderService/RightShip.OrderService.Domain/Entities/Order.cs:45-53 | one payload per input line, with the fresh line id and the line's product, quantity and unit price |
| Orders.AddPayloads | Revamped/RightShip.OrderService/RightShip.OrderService.Domain/Entities/Order.cs:78-86 | one payload per added tuple, with the fresh line id and the tuple's product, quantity and unit price |
| Orders.CreatePayloadsAccepted | Revamped/RightShip.OrderService/RightShip.OrderService.Domain/Entities/Order.cs:130-147 | re-issued lines are all accepted again, and become the input lines under their new ids |
| Orders.CreatePayloadsTotal | Revamped/RightShip.OrderService/RightShip.OrderService.Domain/Entities/Order.cs:55 | the total `Create` announces is the sum of the input lines' subtotals (2×10 + 1×5 = 25) |
| Orders.FirstLineIndex | Revamped/RightShip.OrderService/RightShip.OrderService.Domain/Entities/Order.cs:108 | the index of the first line with the id; none exactly when no line has it |
| Orders.Transition | Revamped/RightShip.OrderService/RightShip.OrderService.Domain/Entities/Order.cs:126-167 | When as a function of the snapshot and the event: the new snapshot and whether a step threw, with the assignments made before a throw kept; CreatedTransition, AddedTransition and RemovedTransition state its cases |
| Orders.AddedTransition | Revamped/RightShip.OrderService/RightShip.OrderService.Domain/Entities/Order.cs:149-158 | a line-added event announcing the old total plus the payloads' sum appends the lines before the first refused payload and throws its exception; otherwise it appends every line, sets a non-negative total and UpdatedAt, and a total that agreed with the lines still does |
| Orders.CreatedTransition | Revamped/RightShip.OrderService/RightShip.OrderService.Domain/Entities/Order.cs:130-147 | an accepted creation event sets the header fields, the lines and the total, and submits the order |
| Orders.RemovedTransition | Revamped/RightShip.OrderService/RightShip.OrderService.Domain/Entities/Order.cs:160-165 | removing a line that exists drops exactly that line, then takes the announced total, which must not be negative |
| Orders.ReissuedTotals | Revamped/RightShip.OrderService/RightShip.OrderService.Domain/Entities/Order.cs:45-64 | the total `Create` announces equals the sum of the lines the event rebuilds |
| Orders.EnsureValidState | Revamped/RightShip.OrderService/RightShip.OrderService.Domain/Entities/Order.cs:169-185 | passes exactly when a customer is present and there is at least one line, and throws the first failing check's exception otherwise |
| Orders.Order.constructor | Revamped/RightShip.OrderService/RightShip.OrderService.Domain/Entities/Order.cs:32-34 | a new order is an empty draft with version 0 |
| Orders.Order.AppendPayloadLines | Revamped/RightShip.OrderService/RightShip.OrderService.Domain/Entities/Order.cs:139-144 | the lines are appended in order up to the first refused payload, and the outcome is that payload's exception |
| Orders.Order.When | Revamped/RightShip.OrderService/RightShip.OrderService.Domain/Entities/Order.cs:126-167 | the new fields and the outcome are those of the transition function, including the partial updates a throw leaves behind |
| Orders.Order.Apply | Revamped/RightShip.Core/RightShip.Core.Domain/Entities/AggregateRoot.cs:44-52 | stamp, `When`, version bump with UpdatedAt, invariant check, enqueue; the event is queued only when every step passed, and a failing `When` leaves the version alone |
| Orders.Order.Create | Revamped/RightShip.OrderService/RightShip.OrderService.Domain/Entities/Order.cs:36-69 | an empty customer is refused before anything is built, and no lines fail the invariant; otherwise the order is Submitted with one line per input, total = Σ subtotals, version 1 and one queued creation event |
| Orders.Order.AddLines | Revamped/RightShip.OrderService/RightShip.OrderService.Domain/Entities/Order.cs:76-104 | an empty batch is refused with nothing changed; a refused tuple leaves the earlier tuples appended and no event; otherwise the lines are appended in order, total = old total + Σ added subtotals, and one event is queued; a valid order stays valid |
| Orders.Order.ApplyLines | Revamped/RightShip.OrderService/RightShip.OrderService.Domain/Entities/Order.cs:93-103 | the non-empty batch after the empty check: a refused payload leaves the earlier lines appended, the version and the queue; otherwise the lines are appended, total = old total + Σ added subtotals, the version advances and the event is queued exactly when a customer is set; on a valid order it succeeds exactly when every payload is accepted and the order stays valid |
| Orders.Order.AddLine | Revamped/RightShip.OrderService/RightShip.OrderService.Domain/Entities/Order.cs:71-74 | on a valid order it succeeds exactly when the product is set and the quantity positive, and then appends that one line and adds its subtotal to the total |
| Orders.Order.RemoveLine | Revamped/RightShip.OrderService/RightShip.OrderService.Domain/Entities/Order.cs:106-124 | an unknown id throws OrderLineNotFound with nothing changed; otherwise exactly that line goes and the total drops by its subtotal, a negative new total being refused by Money; on a valid order it succeeds exactly when another line remains, and removing the last line fails with OrderMustHaveAtLeastOneLine |
| Products.EnsureValidState | Revamped/RightShip.ProductService/RightShip.ProductService.Domain/Entities/Product.cs:130-146 | passes exactly when the name is not blank, and otherwise throws ProductNameRequired |
| Products.Transition | Revamped/RightShip.ProductService/RightShip.ProductService.Domain/Entities/Product.cs:101-128 | When as a function of the snapshot and the event: creation, price change and stock adjustment, each through the value objects' init checks; Product.When is proved equal to it |
| Products.AdjustInverse | Revamped/RightShip.ProductService/RightShip.ProductService.Domain/Entities/Product.cs:122-126 | adjusting the stock by `delta` and then by `−delta` gives the stock back |
| Products.Product.constructor | Revamped/RightShip.ProductService/RightShip.ProductService.Domain/Entities/Product.cs:31-33 | a new product has an empty name, zero price and stock, and version 0 |
| Products.Product.When | Revamped/RightShip.ProductService/RightShip.ProductService.Domain/Entities/Product.cs:101-128 | the new fields and the outcome are those of the transition function |
| Products.Product.Apply | Revamped/RightShip.Core/RightShip.Core.Domain/Entities/AggregateRoot.cs:28-52 | stamp, `When`, version bump with UpdatedAt, invariant check, enqueue; the event is queued only when every step passed |
| Products.Product.Create | Revamped/RightShip.ProductService/RightShip.ProductService.Domain/Entities/Product.cs:35-66 | a blank name is refused; otherwise the product has the given name, price and stock, a non-empty id, CreatedBy empty, version 1 and one queued creation event |
| Products.Product.ChangePrice | Revamped/RightShip.ProductService/RightShip.ProductService.Domain/Entities/Product.cs:68-82 | the price becomes the new price and nothing but UpdatedAt changes with it; the version always advances, and the event is queued exactly when the name is not blank, so always on a valid product |
| Products.Product.AdjustQuantity | Revamped/RightShip.ProductService/RightShip.ProductService.Domain/Entities/Product.cs:84-99 | stock + delta out of range throws ProductQuantityMustBeNonNegative before any event, with nothing changed; otherwise stock = old + delta, name and price are kept and one event is queued |
| ProductReservations.Transition | Revamped/RightShip.ProductService/RightShip.ProductService.Domain/Entities/ProductReservation.cs:97-118 | a confirmation event sets Confirmed and an expiry event sets Expired, and nothing else |
| ProductReservations.EnsureValidState | Revamped/RightShip.ProductService/RightShip.ProductService.Domain/Entities/ProductReservation.cs:120-126 | passes exactly when the quantity is positive, and otherwise throws ProductQuantityMustBeNonNegative |
| ProductReservations.ConfirmCheck | Revamped/RightShip.ProductService/RightShip.ProductService.Domain/Entities/ProductReservation.cs:57-71 | passes exactly when the reservation is Pending and `now <= ExpiresAt`; Confirmed throws AlreadyConfirmed, Expired or late throws ReservationExpired |
| ProductReservations.Expire | Revamped/RightShip.ProductService/RightShip.ProductService.Domain/Entities/ProductReservation.cs:86-95 | the result is not Pending, only the status changes, and only a step the state machine allows |
| ProductReservations.ExpireIdempotent | Revamped/RightShip.ProductService/RightShip.ProductService.Domain/Entities/ProductReservation.cs:86-95 | marking expired twice is marking expired once |
| ProductReservations.ConfirmBoundary | Revamped/RightShip.ProductService/RightShip.ProductService.Domain/Entities/ProductReservation.cs:68-71 | a Pending reservation Confirm accepts is one the sweeper would also release exactly when `now == ExpiresAt` |
| ProductReservations.ProductReservation.constructor | Revamped/RightShip.ProductService/RightShip.ProductService.Domain/Entities/ProductReservation.cs:24-26 | a new reservation has default fields and version 0 |
| ProductReservations.ProductReservation.When | Revamped/RightShip.ProductService/RightShip.ProductService.Domain/Entities/ProductReservation.cs:97-118 | the new fields are those of the transition function |
| ProductReservations.ProductReservation.Apply | Revamped/RightShip.Core/RightShip.Core.Domain/Entities/AggregateRoot.cs:28-52 | stamp, `When`, version bump, invariant check, enqueue; the event is queued only when the invariant holds |
| ProductReservations.ProductReservation.Create | Revamped/RightShip.ProductService/RightShip.ProductService.Domain/Entities/ProductReservation.cs:31-52 | a quantity <= 0 is refused; otherwise the reservation is Pending with the given product and quantity, expires at `now + ttl`, has version 1 and one queued creation event |
| ProductReservations.ProductReservation.Confirm | Revamped/RightShip.ProductService/RightShip.ProductService.Domain/Entities/ProductReservation.cs:57-81 | a refusal leaves the reservation as it was; otherwise it becomes Confirmed with product and quantity kept and one event queued |
| ProductReservations.ProductReservation.MarkExpired | Revamped/RightShip.ProductService/RightShip.ProductService.Domain/Entities/ProductReservation.cs:86-95 | Pending becomes Expired with one event queued; any other status is left alone with no event |
| ReservationConfirmation.ConfirmPair | Revamped/RightShip.ProductService/RightShip.ProductService.Domain/Services/ReservationConfirmationService.cs:11-15 | Confirm's refusals leave both untouched; otherwise the reservation is Confirmed, and the stock drops by exactly its quantity, or, when the stock is short, is unchanged with ProductQuantityMustBeNonNegative while the reservation stays Confirmed |
| ReservationConfirmation.ConfirmReservation | Revamped/RightShip.ProductService/RightShip.ProductService.Domain/Services/ReservationConfirmationService.cs:11-15 | the reservation, the product and the outcome are as ConfirmPair says and both stay valid; a refused Confirm queues nothing and keeps the reservation's version, a passed one queues exactly one ProductReservationConfirmed; the product gains one version and exactly one ProductQuantityAdjusted by minus the quantity when the whole confirmation passes, and keeps its version and queue otherwise |
| ReservationConfirmation.ConfirmTwice | Revamped/RightShip.ProductService/RightShip.ProductService.Domain/Services/ReservationConfirmationService.cs:13-14 | after a successful first confirmation the second is refused as already confirmed, and the stock went down once |
| ReservationQueries.PendingSplit | Revamped/RightShip.ProductService/RightShip.ProductService.Persistence.EfCore/ProductReservationRepository.cs:57-74 | a Pending reservation of a product either counts as pending or is eligible for release, never both |
| ReservationQueries.PendingTotal | Revamped/RightShip.ProductService/RightShip.ProductService.Persistence.EfCore/ProductReservationRepository.cs:57-63 | the pending total is 0 when nothing matches, and not negative when the stored quantities are positive |
| ReservationQueries.PendingTotalConcat | Revamped/RightShip.ProductService/RightShip.ProductService.Persistence.EfCore/ProductReservationRepository.cs:60-62 | the sum over two sets of rows is the sum of their sums |
| ReservationQueries.PendingTotalAppend | Revamped/RightShip.ProductService/RightShip.ProductService.Persistence.EfCore/ProductReservationRepository.cs:60-62 | a row adds its quantity exactly when it is the product's, Pending and unexpired |
| ReservationQueries.PendingTotalSame | Revamped/RightShip.ProductService/RightShip.ProductService.Persistence.EfCore/ProductReservationRepository.cs:60-62 | rows that count alike, with the same quantities where they count, have the same pending total |
| ReservationQueries.EligibleIndices | Revamped/RightShip.ProductService/RightShip.ProductService.Persistence.EfCore/ProductReservationRepository.cs:70 | exactly the rows that are Pending with `ExpiresAt <= now`, in storage order |
| ReservationQueries.SortedEligible | Revamped/RightShip.ProductService/RightShip.ProductService.Persistence.EfCore/ProductReservationRepository.cs:70-71 | the eligible rows, each once, reordered |
| ReservationQueries.ExpiredIndicesSize | Revamped/RightShip.ProductService/RightShip.ProductService.Persistence.EfCore/ProductReservationRepository.cs:66-74 | the batch holds as many rows as are eligible, up to `maxCount` |
| ReservationQueries.ExpiredIndicesEligible | Revamped/RightShip.ProductService/RightShip.ProductService.Persistence.EfCore/ProductReservationRepository.cs:70 | every row of the batch is Pending and expired |
| ReservationQueries.ExpiredIndicesOrdered | Revamped/RightShip.ProductService/RightShip.ProductService.Persistence.EfCore/ProductReservationRepository.cs:71 | the batch names each row once, by ascending ExpiresAt |
| ReservationQueries.ExpiredIndicesEarliest | Revamped/RightShip.ProductService/RightShip.ProductService.Persistence.EfCore/ProductReservationRepository.cs:71-72 | no eligible row left out of the batch expires before a row in it |
| ReservationQueries.ExpiredPending | Revamped/RightShip.ProductService/RightShip.ProductService.Persistence.EfCore/ProductReservationRepository.cs:66-74 | the rows of the batch, in batch order |
| ReservationQueries.ExpiredIndices | Revamped/RightShip.ProductService/RightShip.ProductService.Persistence.EfCore/ProductReservationRepository.cs:66-74 | GetExpiredPendingReservationsAsync as row indices: the eligible rows ordered by ExpiresAt, the first `maxCount` of them; ExpiredIndicesSize, ExpiredIndicesEligible, ExpiredIndicesOrdered and ExpiredIndicesEarliest state what it returns |
| ProductStore.FindReservation | Revamped/RightShip.ProductService/RightShip.ProductService.Persistence.EfCore/ProductReservationRepository.cs:23 | `FirstOrDefault` by id: the first row with the id, or none when no row has it |
| ProductStore.FindProduct | Revamped/RightShip.ProductService/RightShip.ProductService.Persistence.EfCore/ProductRepository.cs:22 | `FirstOrDefault` by id: the first row with the id, or none when no row has it |
| ProductStore.FindReservationUnique | Revamped/RightShip.ProductService/RightShip.ProductService.Persistence.EfCore/ProductReservationRepository.cs:23 | with distinct ids, the row found is the one with that id |
| ProductStore.ProductUnitOfWork.LoadProduct | Revamped/RightShip.ProductService/RightShip.ProductService.Persistence.EfCore/ProductRepository.cs:20-28 | the tracked product with the id, or InvalidOperationException naming the id exactly when there is none |
| ProductStore.ProductUnitOfWork.LoadReservation | Revamped/RightShip.ProductService/RightShip.ProductService.Persistence.EfCore/ProductReservationRepository.cs:21-29 | the tracked reservation with the id, or InvalidOperationException naming the id exactly when there is none |
| ProductStore.ProductUnitOfWork.AddProduct | Revamped/RightShip.ProductService/RightShip.ProductService.Persistence.EfCore/ProductRepository.cs:31-35 | the product is tracked at the end, and the reservations are untouched |
| ProductStore.ProductUnitOfWork.AddReservation | Revamped/RightShip.ProductService/RightShip.ProductService.Persistence.EfCore/ProductReservationRepository.cs:32-36 | the reservation is tracked at the end, and the products are untouched |
| ProductStore.ProductUnitOfWork.Commit | Revamped/RightShip.Core/RightShip.Core.Persistence.EfCore/BaseEfCoreDbContext.cs:108-128 | CommitAsync, which is SaveChangesAsync: the outbox gains one row per queued event of every tracked aggregate, products first, after the rows already there; every queue is then empty with versions kept; the rows, the stock and validity are kept and the commit count goes up by one |
| ProductStore.ProductUnitOfWork.ClearQueues | Revamped/RightShip.Core/RightShip.Core.Persistence.EfCore/BaseEfCoreDbContext.cs:127 | every tracked queue is empty afterwards, with versions, rows, stock and validity kept, so no rows are left to write |
| ProductStore.PendingIsAll | Revamped/RightShip.Core/RightShip.Core.Persistence.EfCore/BaseEfCoreDbContext.cs:110-112 | the rows a commit writes are exactly those GetOutboxMessages builds over every tracked aggregate, products first |
| ReservationBatch.ConfirmAllStopsAtFailure | Revamped/RightShip.ProductService/RightShip.ProductService.Application/Products/ProductGrpcService.cs:140-149 | once a prefix of the batch fails, the batch fails with the same error |
| ReservationBatch.ConfirmStep | Revamped/RightShip.ProductService/RightShip.ProductService.Application/Products/ProductGrpcService.cs:142-146 | one loop pass on the stored rows: an unknown reservation or product is the repository's InvalidOperationException, a refused confirmation is its exception, and otherwise the pair is replaced as ConfirmPair says; StepEffect states the successful case |
| ReservationBatch.ConfirmAll | Revamped/RightShip.ProductService/RightShip.ProductService.Application/Products/ProductGrpcService.cs:140-147 | the loop over the ids in order, stopping at the first failure; ConfirmAllConfirms, ConfirmAllDeducts, ConfirmAllShape and DuplicateIdFails state what a successful batch did |
| ReservationBatch.ConfirmAllExtend | Revamped/RightShip.ProductService/RightShip.ProductService.Application/Products/ProductGrpcService.cs:140-147 | the batch over one more id is one more loop step |
| ReservationBatch.StepEffect | Revamped/RightShip.ProductService/RightShip.ProductService.Application/Products/ProductGrpcService.cs:142-146 | a successful step found the reservation and its product, the reservation was Pending and unexpired, and the step confirms it and takes its quantity off that product |
| ReservationBatch.StepOfUpdate | Revamped/RightShip.ProductService/RightShip.ProductService.Application/Products/ProductGrpcService.cs:142-146 | confirming the loaded pair in place, with every other row unchanged, is the step function |
| ReservationBatch.ConfirmAllShape | Revamped/RightShip.ProductService/RightShip.ProductService.Application/Products/ProductGrpcService.cs:140-147 | a successful batch keeps every row in place and changes only reservation statuses and product stock and UpdatedAt |
| ReservationBatch.ConfirmAllConfirms | Revamped/RightShip.ProductService/RightShip.ProductService.Application/Products/ProductGrpcService.cs:140-147 | a successful batch listed distinct ids that all exist, each was Pending and unexpired, and exactly those are now Confirmed |
| ReservationBatch.ConfirmAllDeducts | Revamped/RightShip.ProductService/RightShip.ProductService.Application/Products/ProductGrpcService.cs:140-147 | a successful batch takes from each product exactly the quantities reserved against it |
| ReservationBatch.DuplicateIdFails | Revamped/RightShip.ProductService/RightShip.ProductService.Application/Products/ProductGrpcService.cs:140-147 | a batch listing a reservation twice fails |
| ProductGrpc.EffectiveTtlSeconds | Revamped/RightShip.ProductService/RightShip.ProductService.Application/Products/ProductGrpcService.cs:73 | the request's TTL when positive, otherwise the default of 300 seconds |
| ProductGrpc.TtlTicks | Revamped/RightShip.ProductService/RightShip.ProductService.Application/Products/ProductGrpcService.cs:73-74 | a positive whole number of seconds, the effective TTL |
| ProductGrpc.ParseIds | Revamped/RightShip.ProductService/RightShip.ProductService.Application/Products/ProductGrpcService.cs:120-127 | the ids of the texts that parse, in order; empty exactly when none parses |
| ProductGrpc.CollectIds | Revamped/RightShip.ProductService/RightShip.ProductService.Application/Products/ProductGrpcService.cs:120-127 | the loop builds exactly the parsed ids |
| ProductGrpc.MapConfirmError | Revamped/RightShip.ProductService/RightShip.ProductService.Application/Products/ProductGrpcService.cs:152-167 | expired, already confirmed and short stock become FailedPrecondition, not found becomes NotFound, and anything else goes through uncaught |
| ProductGrpc.ConfirmAllFailuresHandled | Revamped/RightShip.ProductService/RightShip.ProductService.Application/Products/ProductGrpcService.cs:140-167 | every way a batch can fail is caught and mapped to a status |
| ProductGrpc.GetProductPrice | Revamped/RightShip.ProductService/RightShip.ProductService.Application/Products/ProductGrpcService.cs:33-57 | InvalidArgument for text that is not a Guid, NotFound exactly when no product has the id, otherwise the product's id and price |
| ProductGrpc.ConfirmAt | Revamped/RightShip.ProductService/RightShip.ProductService.Application/Products/ProductGrpcService.cs:144-146 | confirming the loaded pair changes those two rows as ConfirmPair says and no other, and the two queues and versions change as ConfirmReservation says |
| ProductGrpc.ConfirmOne | Revamped/RightShip.ProductService/RightShip.ProductService.Application/Products/ProductGrpcService.cs:142-146 | one loop pass changes the stored rows as the step function says, or fails with its error |
| ProductGrpc.ConfirmBatch | Revamped/RightShip.ProductService/RightShip.ProductService.Application/Products/ProductGrpcService.cs:140-147 | the loop changes the stored rows as the whole-batch function says, or fails with the first error |
| ProductGrpc.ConfirmAndCommit | Revamped/RightShip.ProductService/RightShip.ProductService.Application/Products/ProductGrpcService.cs:134-167 | a successful batch is committed exactly once, keeping the earlier outbox rows and emptying every queue; a failure is mapped to its status, nothing is committed and the outbox is untouched |
| ProductGrpc.ConfirmReservations | Revamped/RightShip.ProductService/RightShip.ProductService.Application/Products/ProductGrpcService.cs:111-168 | an empty request succeeds with no effect; no parseable id is InvalidArgument; otherwise the parsed ids are confirmed in order with one commit, which keeps the earlier outbox rows and empties every queue, or the first failure is reported and nothing committed |
| ProductGrpc.AdmissionWithinStock | Revamped/RightShip.ProductService/RightShip.ProductService.Application/Products/ProductGrpcService.cs:82-93 | admitting a reservation that fits lowers the available stock by its quantity, so pending reservations never hold more than the stock |
| ProductGrpc.AdmissionCases | Revamped/RightShip.ProductService/RightShip.ProductService.Application/Products/ProductGrpcService.cs:82-89 | admission passes exactly when the product exists and the quantity is at most the available stock (equal is accepted); an unknown product is NotFound, otherwise FailedPrecondition |
| ProductGrpc.Admission | Revamped/RightShip.ProductService/RightShip.ProductService.Application/Products/ProductGrpcService.cs:82-89 | the load and the available-stock check of CreateReservation; AdmissionCases and AdmissionWithinStock state its outcome |
| ProductGrpc.Available | Revamped/RightShip.ProductService/RightShip.ProductService.Application/Products/ProductGrpcService.cs:83-84 | the product's stock minus the pending total of its unexpired Pending reservations |
| ProductGrpc.ReservationCreated | Revamped/RightShip.ProductService/RightShip.ProductService.Application/Products/ProductGrpcService.cs:91-93 | the effect of a successful reservation on the unit of work: the product list untouched, one commit, the new Pending row appended, and the outbox extended by the queued rows with the creation row last, every queue emptied |
| ProductGrpc.CreatedRow | Revamped/RightShip.ProductService/RightShip.ProductService.Application/Products/ProductGrpcService.cs:91-93 | the outbox row of the reservation's ProductReservationCreated event: its topic, id as text, serialised event and time |
| ProductGrpc.TrackAndCommit | Revamped/RightShip.ProductService/RightShip.ProductService.Application/Products/ProductGrpcService.cs:92-93 | the reservation is added to the tracked rows and the unit of work committed once: the outbox gains the queued rows, the reservation's own rows last, and every queue is emptied |
| ProductGrpc.AddPending | Revamped/RightShip.ProductService/RightShip.ProductService.Application/Products/ProductGrpcService.cs:91-93 | one Pending row with the requested product and quantity, expiring at `now + ttl`, is added and committed once, and the outbox gains its ProductReservationCreated row after the rows already queued |
| ProductGrpc.Reserve | Revamped/RightShip.ProductService/RightShip.ProductService.Application/Products/ProductGrpcService.cs:76-108 | a refused admission adds nothing, commits nothing and changes nothing; otherwise exactly one Pending reservation is added and one commit made, which writes its creation row to the outbox, and its id and expiry are returned |
| ProductGrpc.ValidateRequest | Revamped/RightShip.ProductService/RightShip.ProductService.Application/Products/ProductGrpcService.cs:63-71 | a product id that does not parse, then a quantity <= 0, is InvalidArgument; otherwise the parsed id |
| ProductGrpc.CreateReservation | Revamped/RightShip.ProductService/RightShip.ProductService.Application/Products/ProductGrpcService.cs:59-109 | argument failures and refused admissions change nothing; otherwise exactly one Pending reservation with the requested product and quantity, expiring after the effective TTL, is added with one commit that writes its ProductReservationCreated row to the outbox, and its id and expiry are returned |
| ProductListing.SortKeyIgnoresCase | Revamped/RightShip.ProductService/RightShip.ProductService.Persistence.EfCore/ProductRepository.cs:75-81 | price, quantity and createdat are chosen by a case-insensitive match, and anything else sorts by name |
| ProductListing.KeyLePreorder | Revamped/RightShip.ProductService/RightShip.ProductService.Persistence.EfCore/ProductRepository.cs:75-81 | every sort key compares any two products and comparisons chain |
| ProductListing.Order | Revamped/RightShip.ProductService/RightShip.ProductService.Persistence.EfCore/ProductRepository.cs:74-81 | a total preorder, ascending on the key unless the direction is Desc |
| ProductListing.Where | Revamped/RightShip.ProductService/RightShip.ProductService.Persistence.EfCore/ProductRepository.cs:69 | exactly the products whose name contains the term |
| ProductListing.GetListCount | Revamped/RightShip.ProductService/RightShip.ProductService.Persistence.EfCore/ProductRepository.cs:64-72 | the count is that of the filtered products, all of them for a blank search, and no page or sort argument changes it |
| ProductListing.GetListItems | Revamped/RightShip.ProductService/RightShip.ProductService.Persistence.EfCore/ProductRepository.cs:64-86 | at most `pageSize` items, each a stored product passing the filter, in the requested order |
| ProductListing.GetListSlice | Revamped/RightShip.ProductService/RightShip.ProductService.Persistence.EfCore/ProductRepository.cs:83-86 | the page is the slice of the sorted products starting at the offset, or at 0 when the offset is negative |
| ProductListing.PageOffsetExact | Revamped/RightShip.ProductService/RightShip.ProductService.Persistence.EfCore/ProductRepository.cs:84 | the offset is `(pageNumber − 1) × pageSize` while that fits in an int |
| ProductListing.PageOffsetWraps | Revamped/RightShip.ProductService/RightShip.ProductService.Persistence.EfCore/ProductRepository.cs:84 | page 21474838 of size 100 wraps to a negative offset, so it returns the first page |
| ProductListing.SortKeyOf | Revamped/RightShip.ProductService/RightShip.ProductService.Persistence.EfCore/ProductRepository.cs:75-81 | the sort key `sortBy?.ToLowerInvariant()` selects; SortKeyIgnoresCase states it |
| ProductListing.NameFilter | Revamped/RightShip.ProductService/RightShip.ProductService.Persistence.EfCore/ProductRepository.cs:66-70 | no filter for a null or blank search, otherwise the trimmed term's `Contains` filter; Where and GetListCount state it |
| ProductListing.PageOffset | Revamped/RightShip.ProductService/RightShip.ProductService.Persistence.EfCore/ProductRepository.cs:84 | `(pageNumber - 1) * pageSize` in unchecked 32-bit arithmetic; PageOffsetExact and PageOffsetWraps state its values |
| ProductListing.Sorted | Revamped/RightShip.ProductService/RightShip.ProductService.Persistence.EfCore/ProductRepository.cs:74-81 | the filtered products in the requested order, ascending unless the direction is `Desc` ignoring case |
| ProductListing.GetList | Revamped/RightShip.ProductService/RightShip.ProductService.Persistence.EfCore/ProductRepository.cs:56-89 | GetListAsync: the page of the sorted, filtered products and the filtered count; GetListCount, GetListItems and GetListSlice state it |
| ProductApp.ClampRanges | Revamped/RightShip.ProductService/RightShip.ProductService.Application/Products/ProductAppService.cs:46-47 | the page number is at least 1 and the page size within [1, 100]; values already in range are kept, so the clamps are idempotent |
| ProductApp.ClampPageNumber | Revamped/RightShip.ProductService/RightShip.ProductService.Application/Products/ProductAppService.cs:46 | a page number below 1 becomes 1; ClampRanges states its range |
| ProductApp.ClampPageSize | Revamped/RightShip.ProductService/RightShip.ProductService.Application/Products/ProductAppService.cs:47 | `Math.Clamp(pageSize, 1, 100)`; ClampRanges states its range |
| ProductApp.MapToDto | Revamped/RightShip.ProductService/RightShip.ProductService.Application/Products/ProductAppService.cs:79-88 | the DTO carries the product's id, name, price amount and stock value |
| ProductApp.GetListPaged | Revamped/RightShip.ProductService/RightShip.ProductService.Application/Products/ProductAppService.cs:41-64 | GetListAsync: the repository's page under the clamped arguments and the defaults, mapped to DTOs; GetListPagedSpec, RepositoryPageItems and DefaultOrder state it |
| ProductApp.GetListPagedSpec | Revamped/RightShip.ProductService/RightShip.ProductService.Application/Products/ProductAppService.cs:41-64 | the result echoes the clamped page number and size and the repository's count, with one DTO per item in order |
| ProductApp.RepositoryPageItems | Revamped/RightShip.ProductService/RightShip.ProductService.Application/Products/ProductAppService.cs:49-55 | the repository sees the clamped arguments: its count is the filtered count, and its page is at most the clamped size and in the requested order |
| ProductApp.DefaultOrder | Revamped/RightShip.ProductService/RightShip.ProductService.Application/Products/ProductAppService.cs:53-54 | with no sort field or direction the list is by name, ascending |
| ProductApp.GetById | Revamped/RightShip.ProductService/RightShip.ProductService.Application/Products/ProductAppService.cs:25-38 | the product's DTO, or null exactly when no product has the id |
| ProductApp.AddAndCommit | Revamped/RightShip.ProductService/RightShip.ProductService.Application/Products/ProductAppService.cs:74-75 | the product is added to the tracked rows and committed once: the outbox gains the queued rows with the product's own rows after the other products' and every queue is emptied |
| ProductApp.AddNewProduct | Revamped/RightShip.ProductService/RightShip.ProductService.Application/Products/ProductAppService.cs:73-76 | a blank name adds, commits and changes nothing; otherwise the product is added with one commit that writes its ProductCreated row to the outbox, and its DTO repeats the input |
| ProductApp.CreateProduct | Revamped/RightShip.ProductService/RightShip.ProductService.Application/Products/ProductAppService.cs:67-77 | a negative price or quantity is refused as the value objects are built, then a blank name, and nothing changes; otherwise one product is added with one commit that writes its ProductCreated row to the outbox, and its DTO repeats the input |
| ProductApp.ProductAdded | Revamped/RightShip.ProductService/RightShip.ProductService.Application/Products/ProductAppService.cs:73-75 | the effect of a successful creation on the unit of work: reservations untouched, one commit, the product appended to the stock, and the outbox extended by the queued rows with the creation row after the other products' rows, every queue emptied |
| ProductApp.CreatedRow | Revamped/RightShip.ProductService/RightShip.ProductService.Application/Products/ProductAppService.cs:73-75 | the outbox row of the product's ProductCreated event: its topic, id as text, serialised event and time |
| ExpirySweeper.ExpireEachEffect | Revamped/RightShip.ProductService/RightShip.ProductService.WebApi/HostedServices/ExpiredReservationReleaseService.cs:40-44 | marking a batch expires exactly the listed rows, however often one is listed |
| ExpirySweeper.ExpireEach | Revamped/RightShip.ProductService/RightShip.ProductService.WebApi/HostedServices/ExpiredReservationReleaseService.cs:40-44 | MarkExpired on each listed row in turn, as values; ExpireEachEffect states its result |
| ExpirySweeper.TickReleases | Revamped/RightShip.ProductService/RightShip.ProductService.WebApi/HostedServices/ExpiredReservationReleaseService.cs:38-44 | a tick releases at most 100 rows, all Expired afterwards; other rows and non-Pending rows are untouched, only statuses change, and the pending total is unchanged |
| ExpirySweeper.MarkAt | Revamped/RightShip.ProductService/RightShip.ProductService.WebApi/HostedServices/ExpiredReservationReleaseService.cs:42-43 | marking one tracked reservation expires that row and no other, and leaves the products alone |
| ExpirySweeper.ExpireBatch | Revamped/RightShip.ProductService/RightShip.ProductService.WebApi/HostedServices/ExpiredReservationReleaseService.cs:40-44 | the loop leaves the rows as marking each batch row in turn says, and the products alone |
| ExpirySweeper.Tick | Revamped/RightShip.ProductService/RightShip.ProductService.WebApi/HostedServices/ExpiredReservationReleaseService.cs:36-50 | the batch is the expired-pending query with BatchSize 100; each batch row is marked expired; products are untouched; one commit exactly when the batch was not empty, which keeps the earlier outbox rows and empties every queue, and no commit and no new row otherwise |
| Outbox.ChangedEntities | Revamped/RightShip.Core/RightShip.Core.Persistence.EfCore/BaseEfCoreDbContext.cs:185-188 | exactly the entries that are neither Unchanged nor Detached, from the tracker |
| Outbox.AggregatesOf | Revamped/RightShip.Core/RightShip.Core.Persistence.EfCore/BaseEfCoreDbContext.cs:168-179 | exactly the aggregates among the entries |
| Outbox.ScannedAggregates | Revamped/RightShip.Core/RightShip.Core.Persistence.EfCore/BaseEfCoreDbContext.cs:110-111 | the aggregates of the changed entries, in tracker order; ScannedAggregatesSpec states which are scanned |
| Outbox.ScannedAggregatesSpec | Revamped/RightShip.Core/RightShip.Core.Persistence.EfCore/BaseEfCoreDbContext.cs:82-83 | an aggregate is scanned exactly when its entry is Added, Modified or Deleted |
| Outbox.MessagesOf | Revamped/RightShip.Core/RightShip.Core.Persistence.EfCore/BaseEfCoreDbContext.cs:142-158 | one row per queued event of the aggregate, in queue order |
| Outbox.MessageFor | Revamped/RightShip.Core/RightShip.Core.Persistence.EfCore/BaseEfCoreDbContext.cs:150-156 | the row of one event: the aggregate's topic, the SourceId as text, the serialised event and its time, neither sent nor processing |
| Outbox.MessagesOfAt | Revamped/RightShip.Core/RightShip.Core.Persistence.EfCore/BaseEfCoreDbContext.cs:148-156 | row `k` of an aggregate is the row of its `k`-th queued event, on its type's topic |
| Outbox.GetOutboxMessages | Revamped/RightShip.Core/RightShip.Core.Persistence.EfCore/BaseEfCoreDbContext.cs:137-162 | as many rows as there are queued events on the scanned aggregates |
| Outbox.GetOutboxMessagesAppend | Revamped/RightShip.Core/RightShip.Core.Persistence.EfCore/BaseEfCoreDbContext.cs:142-159 | one more aggregate adds its own rows after those of the others |
| Outbox.GetOutboxMessagesConcat | Revamped/RightShip.Core/RightShip.Core.Persistence.EfCore/BaseEfCoreDbContext.cs:142-159 | the rows of two runs of aggregates are those of the first run, then those of the second |
| Outbox.OutboxMessageAt | Revamped/RightShip.Core/RightShip.Core.Persistence.EfCore/BaseEfCoreDbContext.cs:137-162 | each event has its row at its aggregate-then-event position, with the aggregate's topic, the SourceId as text, the serialised event and its time, not sent and not processing |
| Outbox.NoEventsNoMessages | Revamped/RightShip.Core/RightShip.Core.Persistence.EfCore/BaseEfCoreDbContext.cs:140-158 | no rows exactly when no scanned aggregate has a queued event |
| Outbox.ClearAll | Revamped/RightShip.Core/RightShip.Core.Persistence.EfCore/BaseEfCoreDbContext.cs:99 | every scanned aggregate's queue is empty, and versions are kept |
| Outbox.DbContext.SaveChanges | Revamped/RightShip.Core/RightShip.Core.Persistence.EfCore/BaseEfCoreDbContext.cs:80-101 | the rows are added before the save; after a successful save they are in the outbox table with the aggregates and every scanned queue is empty; after a failed save the table is untouched and every event stays queued |
| Text.Trim | Revamped/RightShip.ProductService/RightShip.ProductService.Persistence.EfCore/ProductRepository.cs:68 | what is removed at both ends is whitespace, and what is kept is the middle of the string |
| Text.TrimEmptyIffBlank | Revamped/RightShip.ProductService/RightShip.ProductService.Persistence.EfCore/ProductRepository.cs:66-68 | trimming gives the empty string exactly on a blank string |
| Text.ContainsIff | Revamped/RightShip.ProductService/RightShip.ProductService.Persistence.EfCore/ProductRepository.cs:69 | contains holds exactly when the term occurs at some position |
| Text.ToLowerInvariant | Revamped/RightShip.ProductService/RightShip.ProductService.Persistence.EfCore/ProductRepository.cs:75 | each character lower-cased |
| Text.LowerMatchesIgnoreCase | Revamped/RightShip.ProductService/RightShip.ProductService.Persistence.EfCore/ProductRepository.cs:74-75 | lower-casing to a lower-case key is equality with it ignoring case |
| Sorting.SortBy | Revamped/RightShip.ProductService/RightShip.ProductService.Persistence.EfCore/ProductRepository.cs:77-80 | `OrderBy`: a sorted permutation of the input |
| Sorting.Take | Revamped/RightShip.ProductService/RightShip.ProductService.Persistence.EfCore/ProductRepository.cs:85 | LINQ `Take`: the first `n` elements, none when `n` is not positive |
| Sorting.Skip | Revamped/RightShip.ProductService/RightShip.ProductService.Persistence.EfCore/ProductRepository.cs:84 | LINQ `Skip`: all but the first `n` elements, all of them when `n` is not positive |
| Sorting.TakeIsLeast | Revamped/RightShip.ProductService/RightShip.ProductService.Persistence.EfCore/ProductReservationRepository.cs:71-72 | the first elements taken from a sorted sequence come no later than any element left out |

## Left out

- HTTP controllers, the gRPC transport, dependency injection and hosting are plumbing around the modelled operations and are not modelled.
- The expiry sweeper's timer, its `Task.Delay`, cancellation and its catch-and-log of a failed tick are not modelled: the modelled tick cannot throw. Each tick in the source opens a fresh scope with its own unit of work, and `ExpirySweeper.Tick` models one such tick on that unit of work.
- Concurrency is not modelled: two CreateReservation calls racing past the admission check, and EF Core concurrency tokens, are outside a sequential model.
- EF Core's change tracking is reduced to the tracked entries and their states; `AcceptAllChanges`, the states of the outbox rows after the save and the model configuration are not modelled.
- The JSON serialiser, `Guid.TryParse` and `Guid.ToString` are function parameters; their formats are not modelled.
- The repositories' `UpdateAsync` is a no-op for an already tracked entity and is modelled as nothing; `DeleteAsync` is not modelled, since no modelled operation calls it.
- `OrderAppService`, `Price.cs` and the legacy application are not part of this model.
- `ProductUnitOfWork.GetRepository` and `EfCoreUow.StartAsync` are not modelled: the repositories are the unit of work's own load and add operations, and a transaction start has no effect on the values modelled.
- Clocks and id generation are parameters: `now`, the new aggregate id and the fresh line ids are passed in by the caller.
- Sorting.SortBy: ties are ordered by insertion sort, whereas the database is free to order equal keys any way; the contract states only sortedness and permutation, which both orders meet.
- ProductListing.Where: `Contains` is an ordinal, case-sensitive substring test; a database collation that compares case-insensitively is not modelled.
- Text.ToLowerInvariant: only ASCII letters are mapped; the invariant culture's case mapping of other letters is not modelled.
- ReservationQueries.PendingTotal: the sum is an unbounded integer; an `int` overflow inside `SumAsync` is not modelled.
- ProductGrpc.GetProductPrice: the price is returned as the exact `real`; the conversion of the decimal to a `double` for the reply is not modelled.
- Outbox.DbContext.SaveChanges: after a failed save the outbox rows stay tracked as Added, so a retried save adds them again beside new copies; the contract states this as written rather than ruling out the duplicates.
- MoneyValue: amounts are exact reals rather than 28-digit decimals, so decimal rounding and decimal overflow are not modelled.
- ProductGrpc.ConfirmBatch: the fresh id handed to each typed Apply is one parameter shared by the batch; it is never used, since every confirmed reservation already has its id.
- ProductListing.GetListSlice: the page offset is computed in unchecked 32-bit arithmetic as written, so a very large page number wraps to a negative offset and returns the first page (`ProductListing.PageOffsetWraps`).
- ReservationConfirmation.ConfirmPair: when the stock is short the reservation has already been confirmed in memory and stays so; the unit of work is not committed, which is how the service leaves it.
- ReservationConfirmation.ConfirmReservation: the confirmation does not check that the product passed in is the reservation's product; the callers load it by the reservation's product id.
- ProductGrpc.MapConfirmError: the `when (ex.Message.Contains("not found"))` filter is not modelled; every `InvalidOperation` error in the model comes from a repository load, whose message contains those words, so each is reported as NotFound.
- ProductStore.ProductUnitOfWork.Commit: the save always goes through. A failed `SaveChangesAsync` would leave the queues and the table as they were; `Outbox.DbContext.SaveChanges` models that path, but the unit of work does not, since no modelled caller catches it.
- ExpirySweeper.Tick: the contract says the commit keeps the earlier outbox rows and empties every queue. It does not say which rows are added: one ProductReservationExpired row per released reservation, after any rows already queued.
- ProductGrpc.ConfirmAndCommit: the contract says a successful commit keeps the earlier outbox rows and empties every queue. It does not say which rows are added: one ProductReservationConfirmed and one ProductQuantityAdjusted row per confirmed reservation.
- ProductGrpc.ConfirmReservations: the outbox rows a successful batch adds are left unstated, as for ProductGrpc.ConfirmAndCommit.
- ProductGrpc.ConfirmReservations: the store stands for one request's unit of work, which the source creates per scope and discards afterwards. After a failed call, the confirmations already made stay in the store as tracked changes and queued events, and a later `Commit` on the same store would write them. In the source, the scope and its DbContext are thrown away, so nothing of a failed batch reaches the database. The model promises all-or-nothing per call, through `commits` and `outbox`, not across calls that reuse one store.
- ProductStore.RootSeqOf: the order of outbox rows across entity types (products' rows before reservations', each in tracking order) is fixed by the model. EF's `Entries()` follows the change tracker's internal order, which the model does not reproduce; the rows of each aggregate stay in queue order.
- ProductListing.GetList: for `pageSize <= 0` the model's `Take` returns no items, whereas EF Core on SQLite would emit a negative `LIMIT`, meaning no limit. `ProductAppService` clamps the page size to [1, 100] before calling it, so no modelled caller reaches that case.
