/** The Product aggregate: a named, priced item with a stock quantity. */
module Products {
  import opened Common
  import opened MoneyValue
  import opened ProductQuantityValue
  import opened Events
  import opened AggregateRoots
  import opened Text

  /** The fields of a Product, as one value. */
  datatype ProductState = ProductState(
    id: Guid,
    name: string,
    price: Money,
    quantity: ProductQuantity,
    createdAt: Time,
    createdBy: Guid,
    updatedAt: Time,
    updatedBy: Guid)

  /** `PerformedBy ?? fallback`. */
  function PerformerOr(e: DomainEvent, fallback: Guid): (r: Guid)
    ensures e.performedBy.Some? ==> r == e.performedBy.value
    ensures e.performedBy.None? ==> r == fallback
  {
    if e.performedBy.Some? then e.performedBy.value else fallback
  }

  /** When as a function: the state after the event and whether handling threw. The
    * stock adjustment adds in 32-bit arithmetic before ProductQuantity checks the sign. */
  function Transition(s: ProductState, e: DomainEvent): (r: (ProductState, Outcome<Error>))
  {
    match e.payload
    case ProductPayload(ProductCreated(productId, name, price, quantity)) =>
      var s1 := s.(id := productId, name := name);
      var m := FromAmount(price);
      if m.Err? then (s1, Fail(m.error))
      else
        var s2 := s1.(price := m.value);
        var q := FromValue(quantity);
        if q.Err? then (s2, Fail(q.error))
        else
          var creator := PerformerOr(e, EmptyGuid);
          (s2.(quantity := q.value, createdAt := e.timestamp, updatedAt := e.timestamp,
               createdBy := creator, updatedBy := creator), Pass)
    case ProductPayload(ProductPriceChanged(newPrice)) =>
      var m := FromAmount(newPrice);
      if m.Err? then (s, Fail(m.error))
      else (s.(price := m.value, updatedAt := e.timestamp, updatedBy := PerformerOr(e, s.updatedBy)), Pass)
    case ProductPayload(ProductQuantityAdjusted(delta)) =>
      var q := FromValue(Wrap32(s.quantity.value + delta));
      if q.Err? then (s, Fail(q.error))
      else (s.(quantity := q.value, updatedAt := e.timestamp, updatedBy := PerformerOr(e, s.updatedBy)), Pass)
    case _ => (s, Pass)
  }

  /** The product invariant: a non-blank name (price and stock are non-negative by type). */
  ghost predicate Invariant(s: ProductState)
  {
    !IsBlank(s.name)
  }

  function EnsureValidState(s: ProductState): (r: Outcome<Error>)
    ensures r.Pass? <==> Invariant(s)
    ensures r.Fail? ==> r.error == ProductNameRequired
  {
    if IsBlank(s.name) then Fail(ProductNameRequired)
    else if s.price.amount < 0.0 then Fail(ProductPriceMustBeNonNegative)
    else if s.quantity.value < 0 then Fail(ProductQuantityMustBeNonNegative)
    else Pass
  }

  /** Adding `delta` and then `-delta` to the stock gives the stock back, whenever both
    * adjustments are accepted. */
  lemma AdjustInverse(s: ProductState, e1: DomainEvent, e2: DomainEvent, delta: Int32)
    requires e1.payload == ProductPayload(ProductQuantityAdjusted(delta))
    requires MinInt32 < delta
    requires e2.payload == ProductPayload(ProductQuantityAdjusted(-delta))
    requires Transition(s, e1).1.Pass?
    ensures Transition(Transition(s, e1).0, e2).1.Pass?
    ensures Transition(Transition(s, e1).0, e2).0.quantity == s.quantity
  {
  }

  class Product {
    const root: AggregateRoot
    var id: Guid
    var name: string
    var price: Money
    var quantity: ProductQuantity
    var createdAt: Time
    var createdBy: Guid
    var updatedAt: Time
    var updatedBy: Guid

    function State(): ProductState
      reads this
    {
      ProductState(id, name, price, quantity, createdAt, createdBy, updatedAt, updatedBy)
    }

    /** A live product: a valid event queue, an id and the invariant. */
    ghost predicate Valid()
      reads this, root
    {
      root.Valid() && id != EmptyGuid && Invariant(State())
    }

    /** The private constructor: an empty name, zero price and zero stock. */
    constructor ()
      ensures fresh(root) && root.typeName == "Product" && root.version == 0 && root.distributedEvents == []
      ensures root.Valid()
      ensures State() == ProductState(EmptyGuid, "", MoneyValue.Zero(), ProductQuantityValue.Zero(), 0, EmptyGuid, 0, EmptyGuid)
    {
      root := new AggregateRoot("Product");
      id := EmptyGuid;
      name := "";
      price := MoneyValue.Zero();
      quantity := ProductQuantityValue.Zero();
      createdAt := 0;
      createdBy := EmptyGuid;
      updatedAt := 0;
      updatedBy := EmptyGuid;
    }

    /** When: the state transition of each product event. */
    method When(e: DomainEvent) returns (o: Outcome<Error>)
      modifies this
      ensures (State(), o) == Transition(old(State()), e)
    {
      match e.payload {
        case ProductPayload(ProductCreated(productId, newName, newPrice, newQuantity)) =>
          id := productId;
          name := newName;
          var m := FromAmount(newPrice);
          if m.Err? {
            return Fail(m.error);
          }
          price := m.value;
          var q := FromValue(newQuantity);
          if q.Err? {
            return Fail(q.error);
          }
          quantity := q.value;
          createdAt := e.timestamp;
          updatedAt := createdAt;
          createdBy := PerformerOr(e, EmptyGuid);
          updatedBy := createdBy;
          o := Pass;
        case ProductPayload(ProductPriceChanged(newPrice)) =>
          var m := FromAmount(newPrice);
          if m.Err? {
            return Fail(m.error);
          }
          price := m.value;
          updatedAt := e.timestamp;
          updatedBy := PerformerOr(e, updatedBy);
          o := Pass;
        case ProductPayload(ProductQuantityAdjusted(delta)) =>
          var q := FromValue(Wrap32(quantity.value + delta));
          if q.Err? {
            return Fail(q.error);
          }
          quantity := q.value;
          updatedAt := e.timestamp;
          updatedBy := PerformerOr(e, updatedBy);
          o := Pass;
        case _ =>
          o := Pass;
      }
    }

    /** Apply: stamp, When, bump the version and UpdatedAt, check the invariant, enqueue. */
    method Apply(e: DomainEvent, newId: Guid) returns (r: ApplyOutcome)
      requires root.Valid()
      modifies this, root
      ensures root.Valid()
      ensures var ev := old(root.Stamp(id, e, newId)).value;
        var t := Transition(old(State()), ev);
        && (t.1.Fail? ==> r == WhenFailed(t.1.error) && State() == t.0 && root.version == old(root.version))
        && (t.1.Pass? ==> State() == t.0.(updatedAt := ev.timestamp) && root.version == old(root.version) + 1
                          && r == (if EnsureValidState(State()).Fail? then Invalid(EnsureValidState(State()).error) else Applied))
        && root.distributedEvents == old(root.distributedEvents) + (if r.Applied? then [ev] else [])
    {
      var ev := root.Stamp(id, e, newId).value;
      var w := When(ev);
      if w.Fail? {
        return WhenFailed(w.error);
      }
      root.AdvanceVersion(ev);
      updatedAt := ev.timestamp;
      var check := EnsureValidState(State());
      if check.Fail? {
        return Invalid(check.error);
      }
      root.AddDistributedEvent(ev);
      r := Applied;
    }

    /** Product.Create: a blank name is refused before anything is built; otherwise one
      * ProductCreated event carries the id, name, price and stock. The event has no
      * PerformedBy, so `createdBy` never reaches the product: CreatedBy stays empty. */
    static method Create(name: string, price: Money, initialQuantity: ProductQuantity, createdBy: Guid,
                         productId: Guid, now: Time, newId: Guid)
      returns (r: Result<Product, Error>)
      requires productId != EmptyGuid
      ensures r.Err? <==> IsBlank(name)
      ensures r.Err? ==> r.error == ProductNameRequired
      ensures r.Ok? ==> var p := r.value;
        && fresh(p) && fresh(p.root) && p.Valid() && p.root.typeName == "Product"
        && p.State() == ProductState(productId, name, price, initialQuantity, now, EmptyGuid, now, EmptyGuid)
        && p.root.version == 1
        && p.root.distributedEvents == [DomainEvent(Some(productId), 1, now, None,
             ProductPayload(ProductCreated(productId, name, price.amount, initialQuantity.value)))]
    {
      if IsBlank(name) {
        return Err(ProductNameRequired);
      }
      var product := new Product();
      var e := NewEvent(productId, now, ProductPayload(ProductCreated(productId, name, price.amount, initialQuantity.value)));
      var a := product.Apply(e, newId);
      assert a.Applied?;
      r := Ok(product);
    }

    /** ChangePrice: the new price, with name and stock untouched. */
    method ChangePrice(newPrice: Money, now: Time, newId: Guid) returns (r: Outcome<Error>)
      requires root.Valid()
      modifies this, root
      ensures root.Valid()
      ensures State() == old(State()).(price := newPrice, updatedAt := now)
      ensures root.version == old(root.version) + 1
      ensures r.Pass? <==> Invariant(old(State()))
      ensures r.Fail? ==> r.error == ProductNameRequired
      ensures root.distributedEvents == old(root.distributedEvents) + (if r.Pass? then
        [DomainEvent(TypedSourceId(old(id), Some(old(id)), newId), old(root.version) + 1, now, None,
                     ProductPayload(ProductPriceChanged(newPrice.amount)))] else [])
      ensures old(Valid()) ==> r.Pass? && Valid()
    {
      var e := NewEvent(id, now, ProductPayload(ProductPriceChanged(newPrice.amount)));
      var a := Apply(e, newId);
      r := a.ToOutcome();
    }

    /** AdjustQuantity: stock + delta, refused before any event when the 32-bit sum is
      * negative; a sum past the int range wraps negative and is refused too. */
    method AdjustQuantity(delta: Int32, now: Time, newId: Guid) returns (r: Outcome<Error>)
      requires root.Valid()
      modifies this, root
      ensures root.Valid()
      ensures !(0 <= old(quantity.value) + delta <= MaxInt32) ==>
        (r == Fail(ProductQuantityMustBeNonNegative) && State() == old(State())
         && root.version == old(root.version) && root.distributedEvents == old(root.distributedEvents))
      ensures 0 <= old(quantity.value) + delta <= MaxInt32 ==>
        (State() == old(State()).(quantity := QuantityRecord(old(quantity.value) + delta), updatedAt := now)
         && root.version == old(root.version) + 1
         && (r.Pass? <==> Invariant(old(State())))
         && (r.Fail? ==> r.error == ProductNameRequired)
         && root.distributedEvents == old(root.distributedEvents) + (if r.Pass? then
              [DomainEvent(TypedSourceId(old(id), Some(old(id)), newId), old(root.version) + 1, now, None,
                           ProductPayload(ProductQuantityAdjusted(delta)))] else []))
      ensures old(Valid()) ==> (r.Pass? <==> 0 <= old(quantity.value) + delta <= MaxInt32)
      ensures old(Valid()) && r.Pass? ==> Valid()
      ensures r.Fail? ==> name == old(name) && price == old(price)
    {
      var newQuantity := Wrap32(quantity.value + delta);
      if newQuantity < 0 {
        return Fail(ProductQuantityMustBeNonNegative);
      }
      var e := NewEvent(id, now, ProductPayload(ProductQuantityAdjusted(delta)));
      var a := Apply(e, newId);
      r := a.ToOutcome();
    }
  }
}
