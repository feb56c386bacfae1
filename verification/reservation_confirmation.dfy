/** ReservationConfirmationService: confirming a reservation and taking its quantity
  * off the product's stock, in that order. That the reservation belongs to the
  * product is left to the caller; the service does not check it. */
module ReservationConfirmation {
  import opened Common
  import opened ProductQuantityValue
  import opened ProductReservations
  import opened Products
  import opened Events

  /** What ConfirmReservation does to the fields of a live reservation and its product,
    * and what it throws: Confirm's refusals leave both alone; once Confirm has passed,
    * the stock adjustment by minus the reserved quantity may still be refused, and the
    * reservation stays Confirmed all the same. */
  function ConfirmPair(res: ReservationState, prod: ProductState, now: Time): (r: (ReservationState, ProductState, Outcome<Error>))
    ensures r.0.id == res.id && r.1.id == prod.id
    ensures 0 < res.quantity ==>
      (r.2.Pass? <==> res.status == Pending && now <= res.expiresAt && res.quantity <= prod.quantity.value)
    ensures ConfirmCheck(res, now).Fail? ==> r == (res, prod, ConfirmCheck(res, now))
    ensures ConfirmCheck(res, now).Pass? ==> r.0 == res.(status := Confirmed)
    ensures r.2.Pass? ==> (0 <= prod.quantity.value - res.quantity <= MaxInt32
      && r.1 == prod.(quantity := QuantityRecord(prod.quantity.value - res.quantity), updatedAt := now))
    ensures r.2.Fail? ==> r.1 == prod
    ensures 0 < res.quantity && ConfirmCheck(res, now).Pass? && prod.quantity.value < res.quantity ==>
      r.2 == Fail(ProductQuantityMustBeNonNegative)
  {
    var check := ConfirmCheck(res, now);
    if check.Fail? then (res, prod, check)
    else
      var confirmed := res.(status := Confirmed);
      var remaining := prod.quantity.value - res.quantity;
      if !(0 <= remaining <= MaxInt32) then (confirmed, prod, Fail(ProductQuantityMustBeNonNegative))
      else (confirmed, prod.(quantity := QuantityRecord(remaining), updatedAt := now), Pass)
  }

  /** The event Confirm queues on a reservation whose version is `version`. */
  function ConfirmedEvent(res: ReservationState, version: int, now: Time): DomainEvent
  {
    DomainEvent(Some(res.id), version + 1, now, None, ReservationPayload(ProductReservationConfirmed(res.productId, res.quantity)))
  }

  /** The event AdjustQuantity(delta) queues on a product whose version is `version`. */
  function AdjustedEvent(prod: ProductState, delta: Int32, version: int, now: Time): DomainEvent
  {
    DomainEvent(Some(prod.id), version + 1, now, None, ProductPayload(ProductQuantityAdjusted(delta)))
  }

  /** ConfirmReservation: Confirm, then AdjustQuantity by minus the reserved quantity.
    * A refused Confirm queues nothing on either aggregate; a passed Confirm queues one
    * ProductReservationConfirmed; the product queues one ProductQuantityAdjusted exactly
    * when the whole confirmation passes, and keeps its version and queue otherwise. */
  method ConfirmReservation(reservation: ProductReservation, product: Product, now: Time, newId: Guid)
    returns (r: Outcome<Error>)
    requires reservation.Valid() && product.Valid() && reservation.root != product.root
    modifies reservation, reservation.root, product, product.root
    ensures reservation.Valid() && product.Valid()
    ensures (reservation.State(), product.State(), r) == ConfirmPair(old(reservation.State()), old(product.State()), now)
    ensures ConfirmCheck(old(reservation.State()), now).Fail? ==>
      reservation.root.version == old(reservation.root.version)
      && reservation.root.distributedEvents == old(reservation.root.distributedEvents)
    ensures ConfirmCheck(old(reservation.State()), now).Pass? ==>
      reservation.root.version == old(reservation.root.version) + 1
      && reservation.root.distributedEvents == old(reservation.root.distributedEvents)
           + [ConfirmedEvent(old(reservation.State()), old(reservation.root.version), now)]
    ensures r.Fail? ==>
      product.root.version == old(product.root.version)
      && product.root.distributedEvents == old(product.root.distributedEvents)
    ensures r.Pass? ==>
      product.root.version == old(product.root.version) + 1
      && product.root.distributedEvents == old(product.root.distributedEvents)
           + [AdjustedEvent(old(product.State()), -old(reservation.quantity), old(product.root.version), now)]
  {
    r := reservation.Confirm(now, newId);
    if r.Fail? {
      return;
    }
    r := product.AdjustQuantity(-reservation.quantity, now, newId);
  }

  /** Confirming one reservation twice: the second call is refused as already
    * confirmed, so the stock goes down once and the product queues one event. */
  method ConfirmTwice(reservation: ProductReservation, product: Product, now: Time, newId: Guid)
    returns (first: Outcome<Error>, second: Outcome<Error>)
    requires reservation.Valid() && product.Valid() && reservation.root != product.root
    modifies reservation, reservation.root, product, product.root
    ensures first.Pass? ==> (second == Fail(ReservationAlreadyConfirmed(old(reservation.id)))
      && product.quantity.value == old(product.quantity.value) - old(reservation.quantity)
      && product.root.version == old(product.root.version) + 1
      && |product.root.distributedEvents| == |old(product.root.distributedEvents)| + 1)
  {
    first := ConfirmReservation(reservation, product, now, newId);
    second := ConfirmReservation(reservation, product, now, newId);
  }
}
