/** The ProductReservation aggregate: stock held for an order until it is confirmed
  * or expires. Pending may move to Confirmed or to Expired; both are terminal. */
module ProductReservations {
  import opened Common
  import opened Events
  import opened AggregateRoots

  /** ReservationStatus; Pending is the enum's default value. */
  datatype ReservationStatus = Pending | Confirmed | Expired

  /** The fields of a ProductReservation, as one value. */
  datatype ReservationState = ReservationState(
    id: Guid,
    productId: Guid,
    quantity: Int32,
    status: ReservationStatus,
    expiresAt: Time,
    createdAt: Time)

  /** The status moves allowed by the state machine: stay, or leave Pending. */
  predicate StatusStep(before: ReservationStatus, after: ReservationStatus)
  {
    before == after || (before == Pending && after != Pending)
  }

  /** When as a function; no reservation event can make it throw. */
  function Transition(s: ReservationState, e: DomainEvent): (r: ReservationState)
    requires e.sourceId.Some?
    ensures e.payload.ReservationPayload? && e.payload.reservation.ProductReservationConfirmed? ==>
      r == s.(status := Confirmed)
    ensures e.payload.ReservationPayload? && e.payload.reservation.ProductReservationExpired? ==>
      r == s.(status := Expired)
    ensures !e.payload.ReservationPayload? ==> r == s
  {
    match e.payload
    case ReservationPayload(ProductReservationCreated(productId, quantity, expiresAt)) =>
      s.(id := e.sourceId.value, productId := productId, quantity := quantity,
         expiresAt := expiresAt, createdAt := e.timestamp, status := Pending)
    case ReservationPayload(ProductReservationConfirmed(_, _)) => s.(status := Confirmed)
    case ReservationPayload(ProductReservationExpired) => s.(status := Expired)
    case _ => s
  }

  /** The reservation invariant: a positive quantity. */
  ghost predicate Invariant(s: ReservationState)
  {
    0 < s.quantity
  }

  function EnsureValidState(s: ReservationState): (r: Outcome<Error>)
    ensures r.Pass? <==> Invariant(s)
    ensures r.Fail? ==> r.error == ProductQuantityMustBeNonNegative
  {
    if s.quantity <= 0 then Fail(ProductQuantityMustBeNonNegative) else Pass
  }

  /** The outcome Confirm decides before any event: refused when not Pending (Expired
    * and Confirmed each with their own error) or when `now` is past the expiry. */
  function ConfirmCheck(s: ReservationState, now: Time): (r: Outcome<Error>)
    ensures r.Pass? <==> s.status == Pending && now <= s.expiresAt
    ensures s.status == Confirmed ==> r == Fail(ReservationAlreadyConfirmed(s.id))
    ensures s.status == Expired ==> r == Fail(ReservationExpired(s.id))
    ensures s.status == Pending && now > s.expiresAt ==> r == Fail(ReservationExpired(s.id))
  {
    if s.status != Pending then
      if s.status == Expired then Fail(ReservationExpired(s.id)) else Fail(ReservationAlreadyConfirmed(s.id))
    else if now > s.expiresAt then Fail(ReservationExpired(s.id))
    else Pass
  }

  /** The state MarkExpired leaves behind. */
  function Expire(s: ReservationState): (r: ReservationState)
    ensures r.status != Pending
    ensures StatusStep(s.status, r.status)
    ensures r.(status := s.status) == s
  {
    if s.status == Pending then s.(status := Expired) else s
  }

  /** MarkExpired is idempotent. */
  lemma ExpireIdempotent(s: ReservationState)
    ensures Expire(Expire(s)) == Expire(s)
  {
  }

  /** A reservation that Confirm accepts is one the sweeper's expiry check does not
    * yet consider, except at the very instant `now == expiresAt`. */
  lemma ConfirmBoundary(s: ReservationState, now: Time)
    requires s.status == Pending
    ensures ConfirmCheck(s, now).Pass? && s.expiresAt <= now <==> now == s.expiresAt
  {
  }

  class ProductReservation {
    const root: AggregateRoot
    var id: Guid
    var productId: Guid
    var quantity: Int32
    var status: ReservationStatus
    var expiresAt: Time
    var createdAt: Time

    function State(): ReservationState
      reads this
    {
      ReservationState(id, productId, quantity, status, expiresAt, createdAt)
    }

    /** A live reservation: a valid event queue, an id and the invariant. */
    ghost predicate Valid()
      reads this, root
    {
      root.Valid() && id != EmptyGuid && Invariant(State())
    }

    /** The private constructor: every field at its default. */
    constructor ()
      ensures fresh(root) && root.typeName == "ProductReservation" && root.version == 0
      ensures root.distributedEvents == [] && root.Valid()
      ensures State() == ReservationState(EmptyGuid, EmptyGuid, 0, Pending, 0, 0)
    {
      root := new AggregateRoot("ProductReservation");
      id := EmptyGuid;
      productId := EmptyGuid;
      quantity := 0;
      status := Pending;
      expiresAt := 0;
      createdAt := 0;
    }

    /** When: the state transition of each reservation event. */
    method When(e: DomainEvent)
      requires e.sourceId.Some?
      modifies this
      ensures State() == Transition(old(State()), e)
    {
      match e.payload {
        case ReservationPayload(ProductReservationCreated(newProduct, newQuantity, newExpiry)) =>
          id := e.sourceId.value;
          productId := newProduct;
          quantity := newQuantity;
          expiresAt := newExpiry;
          createdAt := e.timestamp;
          status := Pending;
        case ReservationPayload(ProductReservationConfirmed(_, _)) =>
          status := Confirmed;
        case ReservationPayload(ProductReservationExpired) =>
          status := Expired;
        case _ =>
      }
    }

    /** Apply: stamp, When, bump the version, check the invariant, enqueue. A
      * reservation carries no modification info, so nothing else is stamped. */
    method Apply(e: DomainEvent, newId: Guid) returns (r: ApplyOutcome)
      requires root.Valid()
      modifies this, root
      ensures root.Valid()
      ensures var ev := old(root.Stamp(id, e, newId)).value;
        && State() == Transition(old(State()), ev)
        && root.version == old(root.version) + 1
        && r == (if EnsureValidState(State()).Fail? then Invalid(EnsureValidState(State()).error) else Applied)
        && root.distributedEvents == old(root.distributedEvents) + (if r.Applied? then [ev] else [])
    {
      var ev := root.Stamp(id, e, newId).value;
      When(ev);
      root.AdvanceVersion(ev);
      var check := EnsureValidState(State());
      if check.Fail? {
        return Invalid(check.error);
      }
      root.AddDistributedEvent(ev);
      r := Applied;
    }

    /** ProductReservation.Create: a non-positive quantity is refused before anything
      * is built; otherwise the reservation is Pending until `now + ttl`. */
    static method Create(productId: Guid, quantity: Int32, ttl: Time, reservationId: Guid, now: Time, newId: Guid)
      returns (r: Result<ProductReservation, Error>)
      requires reservationId != EmptyGuid
      ensures r.Err? <==> quantity <= 0
      ensures r.Err? ==> r.error == ProductQuantityMustBeNonNegative
      ensures r.Ok? ==> var res := r.value;
        && fresh(res) && fresh(res.root) && res.Valid() && res.root.typeName == "ProductReservation"
        && res.State() == ReservationState(reservationId, productId, quantity, Pending, now + ttl, now)
        && res.root.version == 1
        && res.root.distributedEvents == [DomainEvent(Some(reservationId), 1, now, None,
             ReservationPayload(ProductReservationCreated(productId, quantity, now + ttl)))]
    {
      if quantity <= 0 {
        return Err(ProductQuantityMustBeNonNegative);
      }
      var reservation := new ProductReservation();
      var expiry := now + ttl;
      var e := NewEvent(reservationId, now, ReservationPayload(ProductReservationCreated(productId, quantity, expiry)));
      var a := reservation.Apply(e, newId);
      assert a.Applied?;
      r := Ok(reservation);
    }

    /** Confirm: only a Pending reservation whose expiry `now` has not passed becomes
      * Confirmed; every refusal leaves the reservation as it was. */
    method Confirm(now: Time, newId: Guid) returns (r: Outcome<Error>)
      requires root.Valid()
      modifies this, root
      ensures root.Valid()
      ensures ConfirmCheck(old(State()), now).Fail? ==> (r == ConfirmCheck(old(State()), now)
        && State() == old(State()) && root.version == old(root.version)
        && root.distributedEvents == old(root.distributedEvents))
      ensures ConfirmCheck(old(State()), now).Pass? ==> (State() == old(State()).(status := Confirmed)
        && root.version == old(root.version) + 1
        && (r.Pass? <==> Invariant(old(State())))
        && root.distributedEvents == old(root.distributedEvents) + (if r.Pass? then
             [DomainEvent(TypedSourceId(old(id), Some(old(id)), newId), old(root.version) + 1, now, None,
                          ReservationPayload(ProductReservationConfirmed(old(productId), old(quantity))))] else []))
      ensures StatusStep(old(status), status)
      ensures old(Valid()) ==> (r.Pass? <==> old(status) == Pending && now <= old(expiresAt)) && Valid()
    {
      var check := ConfirmCheck(State(), now);
      if check.Fail? {
        return check;
      }
      var e := NewEvent(id, now, ReservationPayload(ProductReservationConfirmed(productId, quantity)));
      var a := Apply(e, newId);
      r := a.ToOutcome();
    }

    /** MarkExpired: Pending becomes Expired; any other status is left alone. */
    method MarkExpired(now: Time, newId: Guid) returns (r: Outcome<Error>)
      requires root.Valid()
      modifies this, root
      ensures root.Valid()
      ensures old(status) != Pending ==> (r.Pass? && State() == old(State())
        && root.version == old(root.version) && root.distributedEvents == old(root.distributedEvents))
      ensures old(status) == Pending ==> (State() == Expire(old(State()))
        && root.version == old(root.version) + 1
        && (r.Pass? <==> Invariant(old(State())))
        && root.distributedEvents == old(root.distributedEvents) + (if r.Pass? then
             [DomainEvent(TypedSourceId(old(id), Some(old(id)), newId), old(root.version) + 1, now, None,
                          ReservationPayload(ProductReservationExpired))] else []))
      ensures State() == Expire(old(State()))
      ensures old(Valid()) ==> r.Pass? && Valid()
    {
      if status != Pending {
        return Pass;
      }
      var e := NewEvent(id, now, ReservationPayload(ProductReservationExpired));
      var a := Apply(e, newId);
      r := a.ToOutcome();
    }
  }
}
