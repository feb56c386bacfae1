/** The Order aggregate: a customer's order with its lines and a running total that
  * every event carries as a snapshot. */
module Orders {
  import opened Common
  import opened MoneyValue
  import opened OrderLines
  import opened Events
  import opened AggregateRoots

  datatype OrderStatus = Draft | Submitted | Paid | Cancelled

  /** The fields of an Order, as one value. */
  datatype OrderState = OrderState(
    id: Guid,
    customerId: Guid,
    status: OrderStatus,
    createdAt: Time,
    createdBy: Guid,
    updatedAt: Time,
    updatedBy: Guid,
    lines: seq<OrderLine>,
    total: Money)

  /** A line as AddLines receives it: (productId, quantity, unitPrice), not yet validated. */
  datatype NewLine = NewLine(productId: Guid, quantity: Int32, unitPrice: Money)

  // ---------------------------------------------------------------------------
  // Line payloads

  /** What When does with one payload: rebuild the unit price, then OrderLine.Create. */
  function PayloadLine(p: LinePayload): (r: Result<OrderLine, Error>)
    ensures r.Ok? <==> 0.0 <= p.unitPrice && p.productId != EmptyGuid && 0 < p.quantity
    ensures r.Ok? ==> r.value == OrderLineRecord(p.orderLineId, p.productId, p.quantity, MoneyRecord(p.unitPrice))
    ensures 0.0 <= p.unitPrice && p.productId == EmptyGuid ==> r == Err(OrderLineProductRequired)
    ensures 0.0 <= p.unitPrice && p.productId != EmptyGuid && p.quantity <= 0 ==> r == Err(OrderLineQuantityMustBePositive)
  {
    var unitPrice :- FromAmount(p.unitPrice);
    CreateOrderLine(p.orderLineId, p.productId, p.quantity, unitPrice)
  }

  ghost predicate AllLinesValid(ps: seq<LinePayload>)
  {
    forall i :: 0 <= i < |ps| ==> PayloadLine(ps[i]).Ok?
  }

  /** The index of the first payload When refuses, or |ps| when it accepts them all. */
  function FirstBadPayload(ps: seq<LinePayload>): (k: nat)
    ensures k <= |ps|
    ensures AllLinesValid(ps[..k])
    ensures k < |ps| ==> PayloadLine(ps[k]).Err?
  {
    if ps == [] then 0
    else if PayloadLine(ps[0]).Err? then 0
    else
      assert ps[1..][..FirstBadPayload(ps[1..])] == ps[1..1 + FirstBadPayload(ps[1..])];
      1 + FirstBadPayload(ps[1..])
  }

  /** A run of accepted payloads ended by a refused one (or by the end) locates the
    * first refusal. */
  lemma {:induction false} FirstBadPayloadIs(ps: seq<LinePayload>, i: nat)
    requires i <= |ps| && AllLinesValid(ps[..i])
    requires i < |ps| ==> PayloadLine(ps[i]).Err?
    ensures FirstBadPayload(ps) == i
    decreases i
  {
    if 0 < i {
      assert ps[..i][0] == ps[0];
      var tail := ps[1..][..i - 1];
      forall j | 0 <= j < |tail| ensures PayloadLine(tail[j]).Ok? {
        assert tail[j] == ps[..i][j + 1];
      }
      FirstBadPayloadIs(ps[1..], i - 1);
    }
  }

  /** The lines a run of accepted payloads becomes. */
  function PayloadLines(ps: seq<LinePayload>): (lines: seq<OrderLine>)
    requires AllLinesValid(ps)
    ensures |lines| == |ps|
    ensures forall i :: 0 <= i < |ps| ==> Ok(lines[i]) == PayloadLine(ps[i])
  {
    if ps == [] then [] else PayloadLines(ps[..|ps| - 1]) + [PayloadLine(ps[|ps| - 1]).value]
  }

  /** `payloads.Aggregate(0m, (acc, p) => acc + p.UnitPrice * p.Quantity)`. */
  function PayloadTotal(ps: seq<LinePayload>): real
  {
    if ps == [] then 0.0 else PayloadTotal(ps[..|ps| - 1]) + ps[|ps| - 1].unitPrice * ps[|ps| - 1].quantity as real
  }

  /** The total a run of accepted payloads announces is the sum of the subtotals of the
    * lines they become. */
  lemma {:induction false} PayloadTotalIsLinesTotal(ps: seq<LinePayload>)
    requires AllLinesValid(ps)
    ensures PayloadTotal(ps) == LinesTotal(PayloadLines(ps))
  {
    if ps != [] {
      var init := ps[..|ps| - 1];
      PayloadTotalIsLinesTotal(init);
      var lines := PayloadLines(ps);
      assert lines[..|lines| - 1] == PayloadLines(init);
    }
  }

  /** A prefix of an accepted run becomes the matching prefix of its lines. */
  lemma {:induction false} PayloadLinesPrefix(ps: seq<LinePayload>, i: nat)
    requires i < |ps| && AllLinesValid(ps[..i + 1])
    ensures AllLinesValid(ps[..i])
    ensures PayloadLines(ps[..i + 1]) == PayloadLines(ps[..i]) + [PayloadLine(ps[i]).value]
  {
    assert ps[..i + 1][..i] == ps[..i];
  }

  /** The payloads AddLines builds from its tuples, one fresh id per tuple. */
  function AddPayloads(newLines: seq<NewLine>, lineIds: seq<Guid>): (ps: seq<LinePayload>)
    requires |lineIds| == |newLines|
    ensures |ps| == |newLines|
    ensures forall i :: 0 <= i < |ps| ==>
      ps[i] == LinePayload(lineIds[i], newLines[i].productId, newLines[i].quantity, newLines[i].unitPrice.amount)
  {
    seq(|newLines|, i requires 0 <= i < |newLines| =>
      LinePayload(lineIds[i], newLines[i].productId, newLines[i].quantity, newLines[i].unitPrice.amount))
  }

  /** The (productId, quantity, unitPrice) tuple of an existing line. */
  function AsNewLine(line: OrderLine): NewLine
  {
    NewLine(line.productId, line.quantity, line.unitPrice)
  }

  /** The payloads Order.Create builds from existing lines, one fresh id per line: the
    * same payloads AddLines builds from the lines' tuples. */
  function CreatePayloads(lines: seq<OrderLine>, lineIds: seq<Guid>): (ps: seq<LinePayload>)
    requires |lineIds| == |lines|
    ensures |ps| == |lines|
    ensures forall i :: 0 <= i < |ps| ==>
      ps[i] == LinePayload(lineIds[i], lines[i].productId, lines[i].quantity, lines[i].unitPrice.amount)
  {
    AddPayloads(seq(|lines|, i requires 0 <= i < |lines| => AsNewLine(lines[i])), lineIds)
  }

  /** Re-issuing existing lines under fresh ids: every payload is accepted, and the
    * lines keep product, quantity and price. */
  lemma CreatePayloadsAccepted(lines: seq<OrderLine>, lineIds: seq<Guid>)
    requires |lineIds| == |lines|
    ensures AllLinesValid(CreatePayloads(lines, lineIds))
    ensures forall i :: 0 <= i < |lines| ==>
      PayloadLines(CreatePayloads(lines, lineIds))[i] == lines[i].(id := lineIds[i])
  {
    var ps := CreatePayloads(lines, lineIds);
    assert AllLinesValid(ps) by {
      forall i | 0 <= i < |ps| ensures PayloadLine(ps[i]).Ok? {
        assert 0.0 <= lines[i].unitPrice.amount;
      }
    }
  }

  /** The total Create announces for re-issued lines is the lines' total. */
  lemma {:induction false} CreatePayloadsTotal(lines: seq<OrderLine>, lineIds: seq<Guid>)
    requires |lineIds| == |lines|
    ensures PayloadTotal(CreatePayloads(lines, lineIds)) == LinesTotal(lines)
    decreases |lines|
  {
    var ps := CreatePayloads(lines, lineIds);
    if lines != [] {
      var n := |lines| - 1;
      CreatePayloadsTotal(lines[..n], lineIds[..n]);
      assert ps[..n] == CreatePayloads(lines[..n], lineIds[..n]);
      assert SubTotal(lines[n]).amount == ps[n].unitPrice * ps[n].quantity as real;
    }
  }

  /** Index of the first line with the given id (`FirstOrDefault(l => l.Id == id)`). */
  function FirstLineIndex(lines: seq<OrderLine>, lineId: Guid): (r: Option<nat>)
    ensures r.None? <==> forall i :: 0 <= i < |lines| ==> lines[i].id != lineId
    ensures r.Some? ==> r.value < |lines| && lines[r.value].id == lineId
    ensures r.Some? ==> forall i :: 0 <= i < r.value ==> lines[i].id != lineId
  {
    if lines == [] then None
    else if lines[0].id == lineId then Some(0)
    else match FirstLineIndex(lines[1..], lineId)
      case None => None
      case Some(k) => Some(k + 1)
  }

  // ---------------------------------------------------------------------------
  // The transition and the invariant check, as functions of the state

  /** When: the state after the event is handled, and whether handling threw. A throw
    * leaves the assignments made before it in place. */
  function Transition(s: OrderState, e: DomainEvent): (r: (OrderState, Outcome<Error>))
    requires e.sourceId.Some?
  {
    match e.payload
    case OrderPayload(OrderCreated(customerId, createdBy, ps, total)) =>
      var s1 := s.(id := e.sourceId.value, customerId := customerId, createdBy := createdBy,
                   updatedBy := createdBy, createdAt := e.timestamp, updatedAt := e.timestamp);
      var m := FromAmount(total);
      if m.Err? then (s1, Fail(m.error))
      else
        var k := FirstBadPayload(ps);
        var s2 := s1.(total := m.value, lines := s1.lines + PayloadLines(ps[..k]));
        if k < |ps| then (s2, Fail(PayloadLine(ps[k]).error))
        else (s2.(status := Submitted), Pass)
    case OrderPayload(OrderLineAdded(ps, total)) =>
      var k := FirstBadPayload(ps);
      var s1 := s.(lines := s.lines + PayloadLines(ps[..k]));
      if k < |ps| then (s1, Fail(PayloadLine(ps[k]).error))
      else
        var m := FromAmount(total);
        if m.Err? then (s1, Fail(m.error))
        else (s1.(total := m.value, updatedAt := e.timestamp), Pass)
    case OrderPayload(OrderLineRemoved(lineId, total)) =>
      var found := FirstLineIndex(s.lines, lineId);
      if found.None? then (s, Fail(NoMatchingElement))
      else
        var k := found.value;
        var s1 := s.(lines := s.lines[..k] + s.lines[k + 1..]);
        var m := FromAmount(total);
        if m.Err? then (s1, Fail(m.error))
        else (s1.(total := m.value, updatedAt := e.timestamp), Pass)
    case _ => (s, Pass)
  }

  /** An OrderLineAdded event announcing the old total plus the payloads' sum: a refused
    * payload appends the lines before it and throws; otherwise every line is appended,
    * the total is set and never negative, and a snapshot whose total agreed with its
    * lines still does. */
  lemma AddedTransition(s: OrderState, e: DomainEvent, ps: seq<LinePayload>)
    requires e.sourceId.Some? && e.payload == OrderPayload(OrderLineAdded(ps, s.total.amount + PayloadTotal(ps)))
    ensures var k := FirstBadPayload(ps);
      k < |ps| ==> Transition(s, e) == (s.(lines := s.lines + PayloadLines(ps[..k])), Fail(PayloadLine(ps[k]).error))
    ensures var newTotal := s.total.amount + PayloadTotal(ps);
      FirstBadPayload(ps) == |ps| ==>
        && 0.0 <= newTotal
        && Transition(s, e) == (s.(lines := s.lines + PayloadLines(ps), total := MoneyRecord(newTotal), updatedAt := e.timestamp), Pass)
        && (TotalMatchesLines(s) ==> TotalMatchesLines(Transition(s, e).0))
  {
    var k := FirstBadPayload(ps);
    if k == |ps| {
      assert ps[..k] == ps;
      PayloadTotalIsLinesTotal(ps);
      LinesTotalAppend(s.lines, PayloadLines(ps));
    }
  }

  /** An OrderCreated event whose payloads are all accepted and whose total is not
    * negative sets the header fields, the lines and the total, and submits a draft. */
  lemma CreatedTransition(s: OrderState, e: DomainEvent, customerId: Guid, createdBy: Guid, ps: seq<LinePayload>, total: real)
    requires e.sourceId.Some? && e.payload == OrderPayload(OrderCreated(customerId, createdBy, ps, total))
    requires AllLinesValid(ps) && 0.0 <= total && s.lines == []
    ensures Transition(s, e) == (s.(id := e.sourceId.value, customerId := customerId, createdBy := createdBy,
      updatedBy := createdBy, createdAt := e.timestamp, updatedAt := e.timestamp, total := MoneyRecord(total),
      lines := PayloadLines(ps), status := Submitted), Pass)
  {
    FirstBadPayloadIs(ps, |ps|);
    assert ps[..|ps|] == ps;
    assert s.lines + PayloadLines(ps) == PayloadLines(ps);
  }

  /** An OrderLineRemoved event for a line that exists drops that line, then takes the
    * announced total, which must not be negative. */
  lemma RemovedTransition(s: OrderState, e: DomainEvent, lineId: Guid, total: real)
    requires e.sourceId.Some? && e.payload == OrderPayload(OrderLineRemoved(lineId, total))
    requires FirstLineIndex(s.lines, lineId).Some?
    ensures var k := FirstLineIndex(s.lines, lineId).value;
      var rest := s.lines[..k] + s.lines[k + 1..];
      Transition(s, e) == if total < 0.0 then (s.(lines := rest), Fail(FromAmount(total).error))
                          else (s.(lines := rest, total := MoneyRecord(total), updatedAt := e.timestamp), Pass)
  {
  }

  /** Re-issued lines announce, and add up to, the total of the original lines. */
  lemma ReissuedTotals(lines: seq<OrderLine>, lineIds: seq<Guid>)
    requires |lineIds| == |lines|
    ensures AllLinesValid(CreatePayloads(lines, lineIds))
    ensures PayloadTotal(CreatePayloads(lines, lineIds)) == LinesTotal(lines)
    ensures LinesTotal(PayloadLines(CreatePayloads(lines, lineIds))) == LinesTotal(lines)
  {
    CreatePayloadsAccepted(lines, lineIds);
    CreatePayloadsTotal(lines, lineIds);
    PayloadTotalIsLinesTotal(CreatePayloads(lines, lineIds));
  }

  /** The order invariant: a customer and at least one line (a non-negative total and
    * valid lines are guaranteed by the types). */
  ghost predicate Invariant(s: OrderState)
  {
    s.customerId != EmptyGuid && 0 < |s.lines|
  }

  function EnsureValidState(s: OrderState): (r: Outcome<Error>)
    ensures r.Pass? <==> Invariant(s)
    ensures s.customerId == EmptyGuid ==> r == Fail(CustomerIdRequired)
    ensures s.customerId != EmptyGuid && s.lines == [] ==> r == Fail(OrderMustHaveAtLeastOneLine)
  {
    if s.customerId == EmptyGuid then Fail(CustomerIdRequired)
    else if |s.lines| == 0 then Fail(OrderMustHaveAtLeastOneLine)
    else if s.total.amount < 0.0 then Fail(NegativeOrderTotal)
    else Pass
  }

  /** The snapshot total agrees with the lines. */
  ghost predicate TotalMatchesLines(s: OrderState)
  {
    s.total.amount == LinesTotal(s.lines)
  }

  // ---------------------------------------------------------------------------
  // The aggregate

  class Order {
    const root: AggregateRoot
    var id: Guid
    var customerId: Guid
    var status: OrderStatus
    var createdAt: Time
    var createdBy: Guid
    var updatedAt: Time
    var updatedBy: Guid
    var lines: seq<OrderLine>
    var total: Money

    function State(): OrderState
      reads this
    {
      OrderState(id, customerId, status, createdAt, createdBy, updatedAt, updatedBy, lines, total)
    }

    /** A live order: a valid event queue, the invariant, and a total matching the lines. */
    ghost predicate Valid()
      reads this, root
    {
      root.Valid() && id != EmptyGuid && Invariant(State()) && TotalMatchesLines(State()) && status == Submitted
    }

    /** The private constructor: an empty draft. */
    constructor ()
      ensures fresh(root) && root.typeName == "Order" && root.version == 0 && root.distributedEvents == []
      ensures root.Valid()
      ensures State() == OrderState(EmptyGuid, EmptyGuid, Draft, 0, EmptyGuid, 0, EmptyGuid, [], Zero())
    {
      root := new AggregateRoot("Order");
      id := EmptyGuid;
      customerId := EmptyGuid;
      status := Draft;
      createdAt := 0;
      createdBy := EmptyGuid;
      updatedAt := 0;
      updatedBy := EmptyGuid;
      lines := [];
      total := Zero();
    }

    /** The foreach over the payloads inside When: each is turned into a line and
      * appended, until one is refused. */
    method AppendPayloadLines(ps: seq<LinePayload>) returns (o: Outcome<Error>)
      modifies this`lines
      ensures var k := FirstBadPayload(ps);
        && lines == old(lines) + PayloadLines(ps[..k])
        && (o.Pass? <==> k == |ps|)
        && (k < |ps| ==> o == Fail(PayloadLine(ps[k]).error))
    {
      var i := 0;
      while i < |ps|
        invariant i <= |ps|
        invariant AllLinesValid(ps[..i])
        invariant lines == old(lines) + PayloadLines(ps[..i])
      {
        var unitPrice := FromAmount(ps[i].unitPrice);
        if unitPrice.Err? {
          FirstBadPayloadIs(ps, i);
          return Fail(unitPrice.error);
        }
        var line := CreateOrderLine(ps[i].orderLineId, ps[i].productId, ps[i].quantity, unitPrice.value);
        if line.Err? {
          FirstBadPayloadIs(ps, i);
          return Fail(line.error);
        }
        assert AllLinesValid(ps[..i + 1]);
        PayloadLinesPrefix(ps, i);
        lines := lines + [line.value];
        i := i + 1;
      }
      assert ps[..i] == ps;
      FirstBadPayloadIs(ps, i);
      o := Pass;
    }

    /** When: the state transition of each order event. */
    method When(e: DomainEvent) returns (o: Outcome<Error>)
      requires e.sourceId.Some?
      modifies this
      ensures (State(), o) == Transition(old(State()), e)
    {
      match e.payload {
        case OrderPayload(OrderCreated(newCustomer, creator, ps, newTotal)) =>
          id := e.sourceId.value;
          customerId := newCustomer;
          createdBy := creator;
          updatedBy := creator;
          createdAt := e.timestamp;
          updatedAt := createdAt;
          var m := FromAmount(newTotal);
          if m.Err? {
            return Fail(m.error);
          }
          total := m.value;
          o := AppendPayloadLines(ps);
          if o.Fail? {
            return;
          }
          status := Submitted;
        case OrderPayload(OrderLineAdded(ps, newTotal)) =>
          o := AppendPayloadLines(ps);
          if o.Fail? {
            return;
          }
          var m := FromAmount(newTotal);
          if m.Err? {
            return Fail(m.error);
          }
          total := m.value;
          updatedAt := e.timestamp;
        case OrderPayload(OrderLineRemoved(lineId, newTotal)) =>
          var k := FirstLineIndex(lines, lineId);
          if k.None? {
            return Fail(NoMatchingElement);
          }
          lines := lines[..k.value] + lines[k.value + 1..];
          var m := FromAmount(newTotal);
          if m.Err? {
            return Fail(m.error);
          }
          total := m.value;
          updatedAt := e.timestamp;
          o := Pass;
        case _ =>
          o := Pass;
      }
    }

    /** Apply: stamp, When, bump the version and UpdatedAt, check the invariant, enqueue. */
    method Apply(e: DomainEvent, newId: Guid) returns (r: ApplyOutcome)
      requires root.Valid()
      modifies this, root
      ensures root.Valid()
      ensures var ev := old(root.Stamp(id, e, newId)).value;
        var t := Transition(old(State()), ev);
        && (t.1.Fail? ==> r == WhenFailed(t.1.error) && State() == t.0 && root.version == old(root.version))
        && (t.1.Pass? ==> State() == t.0.(updatedAt := ev.timestamp) && root.version == old(root.version) + 1
                          && r == (if EnsureValidState(State()).Fail? then Invalid(EnsureValidState(State()).error) else Applied))
        && root.distributedEvents == old(root.distributedEvents) + (if r.Applied? then [ev] else [])
    {
      var ev := root.Stamp(id, e, newId).value;
      var w := When(ev);
      if w.Fail? {
        return WhenFailed(w.error);
      }
      root.AdvanceVersion(ev);
      updatedAt := ev.timestamp;
      var check := EnsureValidState(State());
      if check.Fail? {
        return Invalid(check.error);
      }
      root.AddDistributedEvent(ev);
      r := Applied;
    }
  
    /** Order.Create: refuses an empty customer before anything is built, re-issues the
      * given lines under fresh ids, and applies one OrderCreated event carrying
      * Σ unitPrice × quantity. */
    static method Create(customerId: Guid, lines: seq<OrderLine>, createdBy: Guid,
                         lineIds: seq<Guid>, orderId: Guid, now: Time, newId: Guid)
      returns (r: Result<Order, Error>)
      requires |lineIds| == |lines| && orderId != EmptyGuid
      ensures customerId == EmptyGuid ==> r == Err(CustomerIdRequired)
      ensures customerId != EmptyGuid && lines == [] ==> r == Err(OrderMustHaveAtLeastOneLine)
      ensures r.Ok? <==> customerId != EmptyGuid && lines != []
      ensures r.Ok? ==> var o := r.value;
        && fresh(o) && fresh(o.root) && o.Valid()
        && o.id == orderId && o.customerId == customerId && o.status == Submitted
        && o.createdBy == createdBy && o.updatedBy == createdBy
        && o.createdAt == now && o.updatedAt == now
        && |o.lines| == |lines|
        && (forall i :: 0 <= i < |lines| ==> o.lines[i] == lines[i].(id := lineIds[i]))
        && o.total.amount == LinesTotal(lines)
        && o.root.version == 1
        && o.root.distributedEvents == [DomainEvent(Some(orderId), 1, now, None,
             OrderPayload(OrderCreated(customerId, createdBy, CreatePayloads(lines, lineIds), LinesTotal(lines))))]
    {
      if customerId == EmptyGuid {
        return Err(CustomerIdRequired);
      }
      var order := new Order();
      var ps := CreatePayloads(lines, lineIds);
      var initialTotal := PayloadTotal(ps);
      var e := NewEvent(orderId, now, OrderPayload(OrderCreated(customerId, createdBy, ps, initialTotal)));
      ghost var ev := order.root.Stamp(order.id, e, newId).value;
      assert ev == e.(version := 1);
      ReissuedTotals(lines, lineIds);
      CreatePayloadsAccepted(lines, lineIds);
      CreatedTransition(order.State(), ev, customerId, createdBy, ps, initialTotal);
      var a := order.Apply(e, newId);
      if !a.Applied? {
        return Err(a.error);
      }
      r := Ok(order);
    }

    /** The event step of AddLines for a non-empty batch of payloads: one OrderLineAdded
      * event carries them all with the new total; When appends the lines up to the first
      * refused one. */
    method ApplyLines(ps: seq<LinePayload>, now: Time, newId: Guid) returns (r: Outcome<Error>)
      requires ps != [] && root.Valid()
      modifies this, root
      ensures root.Valid()
      ensures var k := FirstBadPayload(ps);
        k < |ps| ==>
          (r == Fail(PayloadLine(ps[k]).error)
           && State() == old(State()).(lines := old(lines) + PayloadLines(ps[..k]))
           && root.version == old(root.version) && root.distributedEvents == old(root.distributedEvents))
      ensures var newTotal := old(total.amount) + PayloadTotal(ps);
        FirstBadPayload(ps) == |ps| ==>
          (0.0 <= newTotal
           && State() == old(State()).(lines := old(lines) + PayloadLines(ps), total := MoneyRecord(newTotal), updatedAt := now)
           && root.version == old(root.version) + 1
           && (r.Pass? <==> old(customerId) != EmptyGuid)
           && root.distributedEvents == old(root.distributedEvents) + (if r.Pass? then
                [DomainEvent(TypedSourceId(old(id), Some(old(id)), newId), old(root.version) + 1, now, None,
                             OrderPayload(OrderLineAdded(ps, newTotal)))] else []))
      ensures old(Valid()) ==> (r.Pass? <==> forall i :: 0 <= i < |ps| ==> PayloadLine(ps[i]).Ok?)
      ensures old(Valid()) && r.Pass? ==> Valid()
    {
      var delta := PayloadTotal(ps);
      var newTotal := total.amount + delta;
      var e := NewEvent(id, now, OrderPayload(OrderLineAdded(ps, newTotal)));
      AddedTransition(State(), root.Stamp(id, e, newId).value, ps);
      var a := Apply(e, newId);
      r := a.ToOutcome();
    }

    /** AddLines: refuses an empty batch before any event; otherwise one OrderLineAdded
      * event carries every new line and the new total. The tuples are validated only
      * inside When, so a refused tuple leaves the lines before it appended. */
    method AddLines(newLines: seq<NewLine>, lineIds: seq<Guid>, now: Time, newId: Guid)
      returns (r: Outcome<Error>)
      requires |lineIds| == |newLines| && root.Valid()
      modifies this, root
      ensures root.Valid()
      ensures newLines == [] ==> (r == Fail(OrderLinesRequired) && State() == old(State())
        && root.version == old(root.version) && root.distributedEvents == old(root.distributedEvents))
      ensures var ps := AddPayloads(newLines, lineIds);
        var k := FirstBadPayload(ps);
        newLines != [] && k < |ps| ==>
          (r == Fail(PayloadLine(ps[k]).error)
           && State() == old(State()).(lines := old(lines) + PayloadLines(ps[..k]))
           && root.version == old(root.version) && root.distributedEvents == old(root.distributedEvents))
      ensures var ps := AddPayloads(newLines, lineIds);
        var newTotal := old(total.amount) + PayloadTotal(ps);
        newLines != [] && FirstBadPayload(ps) == |ps| ==>
          (0.0 <= newTotal
           && State() == old(State()).(lines := old(lines) + PayloadLines(ps), total := MoneyRecord(newTotal), updatedAt := now)
           && root.version == old(root.version) + 1
           && (r.Pass? <==> old(customerId) != EmptyGuid)
           && root.distributedEvents == old(root.distributedEvents) + (if r.Pass? then
                [DomainEvent(TypedSourceId(old(id), Some(old(id)), newId), old(root.version) + 1, now, None,
                             OrderPayload(OrderLineAdded(ps, newTotal)))] else []))
      ensures old(Valid()) ==> (r.Pass? <==> (newLines != [] &&
        forall i :: 0 <= i < |newLines| ==> newLines[i].productId != EmptyGuid && 0 < newLines[i].quantity))
      ensures old(Valid()) && r.Pass? ==> Valid()
    {
      var ps := AddPayloads(newLines, lineIds);
      if |ps| == 0 {
        return Fail(OrderLinesRequired);
      }
      r := ApplyLines(ps, now, newId);
    }

    /** AddLine: AddLines with a single tuple. */
    method AddLine(productId: Guid, quantity: Int32, unitPrice: Money, lineId: Guid, now: Time, newId: Guid)
      returns (r: Outcome<Error>)
      requires root.Valid()
      modifies this, root
      ensures root.Valid()
      ensures old(Valid()) ==> (r.Pass? <==> productId != EmptyGuid && 0 < quantity)
      ensures old(Valid()) && r.Pass? ==> (Valid()
        && lines == old(lines) + [OrderLineRecord(lineId, productId, quantity, unitPrice)]
        && total.amount == old(total.amount) + unitPrice.amount * quantity as real)
    {
      r := AddLines([NewLine(productId, quantity, unitPrice)], [lineId], now, newId);
      ghost var ps := AddPayloads([NewLine(productId, quantity, unitPrice)], [lineId]);
      assert ps[..|ps| - 1] == [];
    }

    /** RemoveLine: an unknown id is refused before any event; otherwise one
      * OrderLineRemoved event takes the line's subtotal off the total. */
    method RemoveLine(lineId: Guid, now: Time, newId: Guid) returns (r: Outcome<Error>)
      requires root.Valid()
      modifies this, root
      ensures root.Valid()
      ensures FirstLineIndex(old(lines), lineId).None? ==> (r == Fail(OrderLineNotFound(lineId))
        && State() == old(State()) && root.version == old(root.version)
        && root.distributedEvents == old(root.distributedEvents))
      ensures FirstLineIndex(old(lines), lineId).Some? ==>
        var k := FirstLineIndex(old(lines), lineId).value;
        var rest := old(lines)[..k] + old(lines)[k + 1..];
        var newTotal := old(total.amount) - SubTotal(old(lines)[k]).amount;
        && (newTotal < 0.0 ==> (r.Fail? && r.error.Argument? && State() == old(State()).(lines := rest)
              && root.version == old(root.version) && root.distributedEvents == old(root.distributedEvents)))
        && (0.0 <= newTotal ==>
              && State() == old(State()).(lines := rest, total := MoneyRecord(newTotal), updatedAt := now)
              && root.version == old(root.version) + 1
              && (r.Pass? <==> old(customerId) != EmptyGuid && rest != [])
              && root.distributedEvents == old(root.distributedEvents) + (if r.Pass? then
                   [DomainEvent(TypedSourceId(old(id), Some(old(id)), newId), old(root.version) + 1, now, None,
                                OrderPayload(OrderLineRemoved(lineId, newTotal)))] else []))
      ensures old(Valid()) && FirstLineIndex(old(lines), lineId).Some? ==>
        (r.Pass? <==> 1 < |old(lines)|) && (r.Fail? ==> r == Fail(OrderMustHaveAtLeastOneLine))
      ensures old(Valid()) && r.Pass? ==> Valid()
    {
      var found := FirstLineIndex(lines, lineId);
      if found.None? {
        return Fail(OrderLineNotFound(lineId));
      }
      var k := found.value;
      var newTotal := total.amount - SubTotal(lines[k]).amount;
      LinesTotalRemove(lines, k);
      var e := NewEvent(id, now, OrderPayload(OrderLineRemoved(lineId, newTotal)));
      RemovedTransition(State(), root.Stamp(id, e, newId).value, lineId, newTotal);
      var a := Apply(e, newId);
      r := a.ToOutcome();
    }
  }
}
