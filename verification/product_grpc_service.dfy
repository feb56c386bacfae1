/** ProductGrpcService: the product service's internal RPC surface. Price lookup,
  * reservation admission against stock not already held by pending reservations,
  * and batch confirmation, each turning domain exceptions into RPC statuses. */
module ProductGrpc {
  import opened Common
  import opened ProductQuantityValue
  import opened Products
  import opened ProductReservations
  import opened ProductStore
  import opened ReservationQueries
  import opened ReservationBatch
  import opened ReservationConfirmation
  import opened Events
  import opened AggregateRoots
  import Outbox

  datatype StatusCode = InvalidArgument | NotFound | FailedPrecondition

  /** The text of a Status, one constructor per message the service writes. */
  datatype Detail =
    | InvalidProductId
    | QuantityMustBePositive
    | InsufficientAvailableStock
    | NoValidReservationIds
    | InsufficientStockForConfirmation
    | ProductNotFoundDetail(productId: Guid)
    | ExceptionMessage(error: Error)

  /** What a call throws: an RpcException with a Status, or a domain exception the
    * service does not catch. */
  datatype RpcFailure = Status(code: StatusCode, detail: Detail) | Unhandled(error: Error)

  /** ReservationOptions.DefaultTtlSeconds. */
  const DefaultTtlSeconds: Int32 := 300

  /** The TTL of a new reservation, in seconds: the request's when positive, else the
    * default. */
  function EffectiveTtlSeconds(requested: Int32): (s: Int32)
    ensures 0 < s
    ensures 0 < requested ==> s == requested
    ensures requested <= 0 ==> s == DefaultTtlSeconds
  {
    if requested > 0 then requested else DefaultTtlSeconds
  }

  /** The same TTL as a TimeSpan, in ticks. */
  function TtlTicks(requested: Int32): (t: Time)
    ensures 0 < t
    ensures t % TicksPerSecond == 0 && t / TicksPerSecond == EffectiveTtlSeconds(requested)
  {
    EffectiveTtlSeconds(requested) * TicksPerSecond
  }

  /** The ids of the texts that parse, in order; those that do not are dropped. */
  function ParseIds(texts: seq<string>, parse: string -> Option<Guid>): (ids: seq<Guid>)
    ensures |ids| <= |texts|
    ensures ids == [] <==> forall i :: 0 <= i < |texts| ==> parse(texts[i]).None?
    ensures forall k :: 0 <= k < |ids| ==> exists i :: 0 <= i < |texts| && parse(texts[i]) == Some(ids[k])
  {
    if texts == [] then []
    else
      var init := ParseIds(texts[..|texts| - 1], parse);
      var last := parse(texts[|texts| - 1]);
      assert forall i :: 0 <= i < |texts| - 1 ==> texts[..|texts| - 1][i] == texts[i];
      if last.Some? then init + [last.value] else init
  }

  /** The foreach over the request's ids, keeping those Guid.TryParse accepts. */
  method CollectIds(texts: seq<string>, parse: string -> Option<Guid>) returns (ids: seq<Guid>)
    ensures ids == ParseIds(texts, parse)
  {
    ids := [];
    var i := 0;
    while i < |texts|
      invariant 0 <= i <= |texts|
      invariant ids == ParseIds(texts[..i], parse)
    {
      assert texts[..i + 1][..i] == texts[..i];
      var parsed := parse(texts[i]);
      if parsed.Some? {
        ids := ids + [parsed.value];
      }
      i := i + 1;
    }
    assert texts[..i] == texts;
  }

  /** The catch clauses of ConfirmReservations. Both repositories' not-found messages
    * contain "not found", so every InvalidOperationException becomes NotFound. */
  function MapConfirmError(e: Error): (f: RpcFailure)
    ensures f.Status? <==> (e.ReservationExpired? || e.ReservationAlreadyConfirmed?
                            || e.ProductQuantityMustBeNonNegative? || e.InvalidOperation?)
    ensures f.Status? && f.code == NotFound <==> e.InvalidOperation?
    ensures f.Unhandled? ==> f.error == e
  {
    match e
    case ReservationExpired(_) => Status(FailedPrecondition, ExceptionMessage(e))
    case ReservationAlreadyConfirmed(_) => Status(FailedPrecondition, ExceptionMessage(e))
    case ProductQuantityMustBeNonNegative => Status(FailedPrecondition, InsufficientStockForConfirmation)
    case InvalidOperation(_) => Status(NotFound, ExceptionMessage(e))
    case _ => Unhandled(e)
  }

  /** Every way a batch can fail is one of the caught exceptions. */
  lemma {:induction false} ConfirmAllFailuresHandled(rows: seq<ReservationState>, prods: seq<ProductState>, ids: seq<Guid>, now: Time)
    requires ConfirmAll(rows, prods, ids, now).Err?
    ensures MapConfirmError(ConfirmAll(rows, prods, ids, now).error).Status?
    decreases |ids|
  {
    var init := ids[..|ids| - 1];
    if ConfirmAll(rows, prods, init, now).Err? {
      ConfirmAllFailuresHandled(rows, prods, init, now);
    }
  }

  /** GetProductPrice: the product's id and price, InvalidArgument for text that is not
    * a Guid, NotFound for an unknown id. */
  method GetProductPrice(store: ProductUnitOfWork, productIdText: string, parse: string -> Option<Guid>)
    returns (r: Result<(Guid, real), RpcFailure>)
    ensures parse(productIdText).None? ==> r == Err(Status(InvalidArgument, InvalidProductId))
    ensures parse(productIdText).Some? ==> var id := parse(productIdText).value;
      && (r.Ok? <==> exists i :: 0 <= i < |store.products| && store.products[i].id == id)
      && (r.Err? ==> r.error == Status(NotFound, ProductNotFoundDetail(id)))
      && (r.Ok? ==> (exists i :: 0 <= i < |store.products| && store.products[i].id == id
                                 && r.value == (id, store.products[i].price.amount)))
  {
    var parsed := parse(productIdText);
    if parsed.None? {
      return Err(Status(InvalidArgument, InvalidProductId));
    }
    var productId := parsed.value;
    var product := store.LoadProduct(productId);
    if product.Err? {
      return Err(Status(NotFound, ProductNotFoundDetail(productId)));
    }
    r := Ok((product.value.id, product.value.price.amount));
  }

  /** ReservationConfirmationService.ConfirmReservation on the tracked reservation at
    * `k` and the tracked product at `p`: those two rows change as ConfirmPair says,
    * every other row reads as before, and the two event queues grow as
    * ConfirmReservation says. */
  method ConfirmAt(store: ProductUnitOfWork, reservation: ProductReservation, product: Product, ghost k: nat, ghost p: nat,
                   ghost rows0: seq<ReservationState>, ghost prods0: seq<ProductState>, now: Time, newId: Guid)
    returns (r: Outcome<Error>)
    requires store.Valid() && k < |store.reservations| && p < |store.products|
    requires reservation == store.reservations[k] && product == store.products[p]
    requires rows0 == store.Rows() && prods0 == store.Stock()
    modifies reservation, reservation.root, product, product.root
    ensures store.Valid() && unchanged(store)
    ensures store.Rows() == rows0[k := reservation.State()] && store.Stock() == prods0[p := product.State()]
    ensures (reservation.State(), product.State(), r) == ConfirmPair(old(reservation.State()), old(product.State()), now)
    ensures ConfirmCheck(old(reservation.State()), now).Fail? ==>
      reservation.root.version == old(reservation.root.version)
      && reservation.root.distributedEvents == old(reservation.root.distributedEvents)
    ensures ConfirmCheck(old(reservation.State()), now).Pass? ==>
      reservation.root.version == old(reservation.root.version) + 1
      && reservation.root.distributedEvents == old(reservation.root.distributedEvents)
           + [ConfirmedEvent(old(reservation.State()), old(reservation.root.version), now)]
    ensures r.Fail? ==>
      product.root.version == old(product.root.version)
      && product.root.distributedEvents == old(product.root.distributedEvents)
    ensures r.Pass? ==>
      product.root.version == old(product.root.version) + 1
      && product.root.distributedEvents == old(product.root.distributedEvents)
           + [AdjustedEvent(old(product.State()), -old(reservation.quantity), old(product.root.version), now)]
  {
    r := ConfirmReservation(reservation, product, now, newId);
    store.PairUpdated((k, p));
  }

  /** One pass of the confirmation loop: load the reservation, load its product, confirm
    * them. UpdateAsync does nothing to an entity the context already tracks. The stored
    * rows change exactly as ConfirmStep says. */
  method ConfirmOne(store: ProductUnitOfWork, id: Guid, now: Time, newId: Guid) returns (r: Outcome<Error>)
    requires store.Valid()
    modifies store.products, store.reservations, store.roots
    ensures store.Valid() && unchanged(store)
    ensures var c := ConfirmStep(old(store.Rows()), old(store.Stock()), id, now);
      && (c.Ok? ==> r.Pass? && store.Rows() == c.value.0 && store.Stock() == c.value.1)
      && (c.Err? ==> r == Fail(c.error))
  {
    ghost var rows0 := store.Rows();
    ghost var prods0 := store.Stock();
    var loaded := store.LoadReservation(id);
    if loaded.Err? {
      return Fail(loaded.error);
    }
    var reservation := loaded.value;
    ghost var k := FindReservation(rows0, id).value;
    assert reservation == store.reservations[k];
    var loadedProduct := store.LoadProduct(reservation.productId);
    if loadedProduct.Err? {
      return Fail(loadedProduct.error);
    }
    var product := loadedProduct.value;
    ghost var p := FindProduct(prods0, reservation.productId).value;
    assert product == store.products[p];
    r := ConfirmAt(store, reservation, product, k, p, rows0, prods0, now, newId);
    StepOfUpdate(rows0, prods0, id, now, k, p, reservation.State(), product.State(), r);
  }

  /** The foreach of ConfirmReservations over the parsed ids: the rows change as
    * ConfirmAll says, and the first failure ends the loop. */
  method ConfirmBatch(store: ProductUnitOfWork, ids: seq<Guid>, now: Time, newId: Guid) returns (r: Outcome<Error>)
    requires store.Valid()
    modifies store.products, store.reservations, store.roots
    ensures store.Valid() && unchanged(store)
    ensures var c := ConfirmAll(old(store.Rows()), old(store.Stock()), ids, now);
      && (c.Ok? ==> r.Pass? && store.Rows() == c.value.0 && store.Stock() == c.value.1)
      && (c.Err? ==> r == Fail(c.error))
  {
    ghost var rows0 := store.Rows();
    ghost var prods0 := store.Stock();
    for i := 0 to |ids|
      invariant store.Valid() && unchanged(store)
      invariant ConfirmAll(rows0, prods0, ids[..i], now) == Ok((store.Rows(), store.Stock()))
    {
      ConfirmAllExtend(rows0, prods0, ids, i, now, (store.Rows(), store.Stock()));
      var step := ConfirmOne(store, ids[i], now, newId);
      if step.Fail? {
        ConfirmAllStopsAtFailure(rows0, prods0, ids, i + 1, now);
        return step;
      }
    }
    assert ids[..|ids|] == ids;
    r := Pass;
  }

  /** The try block of ConfirmReservations: the batch, then one commit; a failure is
    * turned into its RPC status and nothing is committed. The commit keeps the rows
    * already in the outbox, adds the rows of the queued events after them, and empties
    * every queue; without it the outbox stays as it was. */
  method ConfirmAndCommit(store: ProductUnitOfWork, ids: seq<Guid>, now: Time, newId: Guid) returns (r: Outcome<RpcFailure>)
    requires store.Valid()
    modifies store`commits, store`outbox, store.products, store.reservations, store.roots
    ensures store.Valid()
    ensures unchanged(store`products, store`reservations)
    ensures var c := ConfirmAll(old(store.Rows()), old(store.Stock()), ids, now);
      && (c.Ok? ==> r == Pass && store.Rows() == c.value.0 && store.Stock() == c.value.1
                    && store.commits == old(store.commits) + 1 && old(store.outbox) <= store.outbox
                    && store.ProductMessages() == [] && store.ReservationMessages() == [])
      && (c.Err? ==> r == Fail(MapConfirmError(c.error)) && store.commits == old(store.commits)
                     && store.outbox == old(store.outbox))
  {
    var outcome := ConfirmBatch(store, ids, now, newId);
    if outcome.Fail? {
      return Fail(MapConfirmError(outcome.error));
    }
    store.Commit();
    r := Pass;
  }

  /** ConfirmReservations: an empty request does nothing; a request none of whose ids
    * parse is InvalidArgument; otherwise the parsed ids are confirmed in order and the
    * changes committed once, or the first failure is reported and nothing committed. */
  method ConfirmReservations(store: ProductUnitOfWork, texts: seq<string>, parse: string -> Option<Guid>, now: Time, newId: Guid)
    returns (r: Outcome<RpcFailure>)
    requires store.Valid()
    modifies store`commits, store`outbox, store.products, store.reservations, store.roots
    ensures store.Valid()
    ensures unchanged(store`products, store`reservations)
    ensures texts == [] ==> r == Pass && store.commits == old(store.commits) && store.outbox == old(store.outbox)
    ensures texts != [] && ParseIds(texts, parse) == [] ==>
      r == Fail(Status(InvalidArgument, NoValidReservationIds)) && store.commits == old(store.commits)
      && store.outbox == old(store.outbox)
    ensures texts != [] && ParseIds(texts, parse) != [] ==>
      var c := ConfirmAll(old(store.Rows()), old(store.Stock()), ParseIds(texts, parse), now);
      && (c.Ok? ==> r == Pass && store.Rows() == c.value.0 && store.Stock() == c.value.1
                    && store.commits == old(store.commits) + 1 && old(store.outbox) <= store.outbox
                    && store.ProductMessages() == [] && store.ReservationMessages() == [])
      && (c.Err? ==> r == Fail(MapConfirmError(c.error)) && store.commits == old(store.commits)
                     && store.outbox == old(store.outbox))
  {
    if texts == [] {
      return Pass;
    }
    var ids := CollectIds(texts, parse);
    assert store.Valid() && store.Rows() == old(store.Rows()) && store.Stock() == old(store.Stock());
    if ids == [] {
      return Fail(Status(InvalidArgument, NoValidReservationIds));
    }
    r := ConfirmAndCommit(store, ids, now, newId);
  }

  /** The stock of a product not held by reservations pending at `now`. */
  function Available(rows: seq<ReservationState>, product: ProductState, now: Time): int
  {
    product.quantity.value - PendingTotal(rows, product.id, now)
  }

  /** Admitting a reservation that fits the available stock lowers the available stock
    * by its quantity, so pending reservations never hold more than the stock when every
    * admission went through this check. */
  lemma AdmissionWithinStock(rows: seq<ReservationState>, product: ProductState, row: ReservationState, now: Time)
    requires row.productId == product.id && row.status == Pending && now < row.expiresAt
    requires 0 < row.quantity <= Available(rows, product, now)
    ensures Available(rows + [row], product, now) == Available(rows, product, now) - row.quantity
    ensures PendingTotal(rows, product.id, now) <= product.quantity.value ==>
      PendingTotal(rows + [row], product.id, now) <= product.quantity.value
  {
    PendingTotalAppend(rows, row, product.id, now);
  }

  /** The admission check of CreateReservation for a parsed id and a positive
    * quantity: the product must exist, and the quantity must fit the stock that pending
    * reservations do not already hold. */
  function Admission(rows: seq<ReservationState>, prods: seq<ProductState>, productId: Guid, quantity: Int32, now: Time)
    : (r: Outcome<RpcFailure>)
  {
    var p := FindProduct(prods, productId);
    if p.None? then Fail(Status(NotFound, ProductNotFoundDetail(productId)))
    else if quantity > Available(rows, prods[p.value], now) then Fail(Status(FailedPrecondition, InsufficientAvailableStock))
    else Pass
  }

  /** Admission passes exactly when the product exists and the quantity fits its
    * available stock, and fails with NotFound or FailedPrecondition otherwise. */
  lemma AdmissionCases(rows: seq<ReservationState>, prods: seq<ProductState>, productId: Guid, quantity: Int32, now: Time)
    ensures var r := Admission(rows, prods, productId, quantity, now);
      && (r.Pass? <==> exists i :: 0 <= i < |prods| && prods[i].id == productId
                                && quantity <= Available(rows, prods[i], now)
                                && forall j :: 0 <= j < i ==> prods[j].id != productId)
      && (r == Fail(Status(NotFound, ProductNotFoundDetail(productId))) <==> forall i :: 0 <= i < |prods| ==> prods[i].id != productId)
      && (r.Fail? ==> r.error.Status? && r.error.code in {NotFound, FailedPrecondition})
  {
    var p := FindProduct(prods, productId);
    if p.Some? {
      assert prods[p.value].id == productId;
    }
  }

  /** AddAsync and CommitAsync of a new reservation: the commit writes the rows of every
    * queued event, the new reservation's last, and empties every queue. */
  method TrackAndCommit(store: ProductUnitOfWork, reservation: ProductReservation)
    requires store.Valid() && reservation.Valid() && reservation !in store.reservations && store.NewRoot(reservation.root)
    requires forall i :: 0 <= i < |store.reservations| ==> store.reservations[i].id != reservation.id
    modifies store`reservations, store`roots, store`commits, store`outbox, store.roots, reservation.root
    ensures store.Valid()
    ensures unchanged(store`products) && store.commits == old(store.commits) + 1
    ensures store.Rows() == old(store.Rows()) + [reservation.State()]
    ensures store.outbox == old(store.outbox) + old(store.ProductMessages())
      + (old(store.ReservationMessages()) + old(Outbox.MessagesOf(reservation.root, store.serialize, store.guidText)))
    ensures store.ProductMessages() == [] && store.ReservationMessages() == []
  {
    store.AddReservation(reservation);
    store.Commit();
  }

  /** The outbox row of the ProductReservationCreated event of a new reservation. */
  function CreatedRow(store: ProductUnitOfWork, reservationId: Guid, productId: Guid, quantity: Int32, expiresAt: Time,
                      now: Time): Outbox.OutboxMessage
  {
    Outbox.MessageFor(EventTopic("ProductReservation"),
      DomainEvent(Some(reservationId), 1, now, None, ReservationPayload(ProductReservationCreated(productId, quantity, expiresAt))),
      store.serialize, store.guidText)
  }

  /** What AddAsync and CommitAsync of a new Pending reservation leave behind: one more commit, the reservation's row last, every queued row in
    * the outbox with the reservation's ProductReservationCreated last, and every queue
    * empty; the products are untouched. */
  twostate predicate ReservationCreated(store: ProductUnitOfWork, productId: Guid, quantity: Int32, expiresAt: Time,
                                        reservationId: Guid, now: Time)
    reads *
  {
    && unchanged(store`products)
    && store.commits == old(store.commits) + 1
    && store.Rows() == old(store.Rows()) + [ReservationState(reservationId, productId, quantity, Pending, expiresAt, now)]
    && store.outbox == old(store.outbox) + old(store.ProductMessages())
         + (old(store.ReservationMessages()) + [CreatedRow(store, reservationId, productId, quantity, expiresAt, now)])
    && store.ProductMessages() == [] && store.ReservationMessages() == []
  }

  /** ProductReservation.Create, AddAsync and CommitAsync: a new Pending reservation
    * expiring after `ttl` is tracked and the unit of work committed. */
  method AddPending(store: ProductUnitOfWork, productId: Guid, quantity: Int32, ttl: Time, reservationId: Guid, now: Time, newId: Guid)
    returns (expiresAt: Time)
    requires store.Valid() && 0 < quantity
    requires reservationId != EmptyGuid
    requires forall i :: 0 <= i < |store.reservations| ==> store.reservations[i].id != reservationId
    modifies store`reservations, store`roots, store`commits, store`outbox, store.roots
    ensures store.Valid()
    ensures expiresAt == now + ttl
    ensures ReservationCreated(store, productId, quantity, now + ttl, reservationId, now)
  {
    var created := ProductReservation.Create(productId, quantity, ttl, reservationId, now, newId);
    var reservation := created.value;
    assert Outbox.MessagesOf(reservation.root, store.serialize, store.guidText)
      == [CreatedRow(store, reservationId, productId, quantity, now + ttl, now)] by {
      Outbox.MessagesOfAt(reservation.root, 0, store.serialize, store.guidText);
    }
    TrackAndCommit(store, reservation);
    expiresAt := reservation.expiresAt;
  }

  /** The try block of CreateReservation: the admission check, then the new
    * reservation; the result is its id and expiry. */
  method Reserve(store: ProductUnitOfWork, productId: Guid, quantity: Int32, ttl: Time, reservationId: Guid, now: Time, newId: Guid)
    returns (r: Result<(Guid, Time), RpcFailure>)
    requires store.Valid() && 0 < quantity
    requires reservationId != EmptyGuid
    requires forall i :: 0 <= i < |store.reservations| ==> store.reservations[i].id != reservationId
    modifies store`reservations, store`roots, store`commits, store`outbox, store.roots
    ensures store.Valid()
    ensures unchanged(store`products)
    ensures var admitted := Admission(old(store.Rows()), old(store.Stock()), productId, quantity, now);
      && (admitted.Fail? ==> r == Err(admitted.error) && unchanged(store))
      && (admitted.Pass? ==>
            && r.Ok? && r.value.0 == reservationId && r.value.1 == now + ttl
            && ReservationCreated(store, productId, quantity, now + ttl, reservationId, now))
  {
    var admitted := Admission(store.Rows(), store.Stock(), productId, quantity, now);
    if admitted.Fail? {
      return Err(admitted.error);
    }
    var expiresAt := AddPending(store, productId, quantity, ttl, reservationId, now, newId);
    r := Ok((reservationId, expiresAt));
  }

  /** The argument checks of CreateReservation, in order: the product id must parse,
    * then the quantity must be positive; the result is the parsed id. */
  function ValidateRequest(productIdText: string, quantity: Int32, parse: string -> Option<Guid>)
    : (r: Result<Guid, RpcFailure>)
    ensures r.Ok? <==> parse(productIdText).Some? && 0 < quantity
    ensures r.Ok? ==> r.value == parse(productIdText).value
    ensures parse(productIdText).None? ==> r == Err(Status(InvalidArgument, InvalidProductId))
    ensures parse(productIdText).Some? && quantity <= 0 ==> r == Err(Status(InvalidArgument, QuantityMustBePositive))
  {
    var parsed := parse(productIdText);
    if parsed.None? then Err(Status(InvalidArgument, InvalidProductId))
    else if quantity <= 0 then Err(Status(InvalidArgument, QuantityMustBePositive))
    else Ok(parsed.value)
  }

  /** CreateReservation: InvalidArgument for an id that does not parse or a quantity that
    * is not positive, then the admission check; when it passes, a Pending reservation
    * expiring after the effective TTL is added and committed. */
  method CreateReservation(store: ProductUnitOfWork, productIdText: string, quantity: Int32, ttlSeconds: Int32,
                           parse: string -> Option<Guid>, reservationId: Guid, now: Time, newId: Guid)
    returns (r: Result<(Guid, Time), RpcFailure>)
    requires store.Valid()
    requires reservationId != EmptyGuid
    requires forall i :: 0 <= i < |store.reservations| ==> store.reservations[i].id != reservationId
    modifies store`reservations, store`roots, store`commits, store`outbox, store.roots
    ensures store.Valid()
    ensures unchanged(store`products)
    ensures var v := ValidateRequest(productIdText, quantity, parse);
      && (v.Err? ==> r == Err(v.error) && unchanged(store))
      && (v.Ok? ==>
            var admitted := Admission(old(store.Rows()), old(store.Stock()), v.value, quantity, now);
            && (admitted.Fail? ==> r == Err(admitted.error) && unchanged(store))
            && (admitted.Pass? ==>
                  && r.Ok? && r.value.0 == reservationId && r.value.1 == now + TtlTicks(ttlSeconds)
                  && ReservationCreated(store, v.value, quantity, now + TtlTicks(ttlSeconds), reservationId, now)))
  {
    var validated := ValidateRequest(productIdText, quantity, parse);
    if validated.Err? {
      return Err(validated.error);
    }
    r := Reserve(store, validated.value, quantity, TtlTicks(ttlSeconds), reservationId, now, newId);
  }
}
