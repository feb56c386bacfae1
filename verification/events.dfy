/** The domain events: one datatype per aggregate, the closed union of all of them,
  * and the envelope every event carries (the IEvent fields). */
module Events {
  import opened Common

  /** One order line inside an order event. */
  datatype LinePayload = LinePayload(orderLineId: Guid, productId: Guid, quantity: Int32, unitPrice: real)

  datatype OrderEvent =
    | OrderCreated(customerId: Guid, createdBy: Guid, lines: seq<LinePayload>, total: real)
    | OrderLineAdded(lines: seq<LinePayload>, total: real)
    | OrderLineRemoved(orderLineId: Guid, total: real)

  datatype ProductEvent =
    | ProductCreated(productId: Guid, name: string, price: real, quantity: Int32)
    | ProductPriceChanged(newPrice: real)
    | ProductQuantityAdjusted(delta: Int32)

  datatype ReservationEvent =
    | ProductReservationCreated(productId: Guid, quantity: Int32, expiresAt: Time)
    | ProductReservationConfirmed(productId: Guid, quantity: Int32)
    | ProductReservationExpired

  /** Every event type of the system. */
  datatype Payload =
    | OrderPayload(order: OrderEvent)
    | ProductPayload(product: ProductEvent)
    | ReservationPayload(reservation: ReservationEvent)

  /** The IEvent envelope: `sourceId` is the aggregate the event belongs to (None for a
    * null reference), `version` the aggregate version it produces. */
  datatype DomainEvent = DomainEvent(
    sourceId: Option<Guid>,
    version: int,
    timestamp: Time,
    performedBy: Option<Guid>,
    payload: Payload)

  /** A freshly built event, before Apply stamps its version. */
  function NewEvent(sourceId: Guid, now: Time, payload: Payload): (e: DomainEvent)
    ensures e.sourceId == Some(sourceId) && e.timestamp == now && e.payload == payload
    ensures e.version == 0 && e.performedBy.None?
  {
    DomainEvent(Some(sourceId), 0, now, None, payload)
  }
}
