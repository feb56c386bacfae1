/** The aggregate-root base: the version counter, the queue of events waiting to be
  * published, the event topic, and the first steps of Apply (source-id resolution,
  * null check, version stamp).
  *
  * C# inheritance is rendered by composition: every aggregate class owns one
  * `AggregateRoot` object and runs the five steps of Apply through it:
  * stamp, When, version bump (plus UpdatedAt for aggregates with modification
  * info), EnsureValidState, enqueue. */
module AggregateRoots {
  import opened Common
  import opened Events

  /** The topic of an aggregate type: its type name followed by "_events". */
  function EventTopic(typeName: string): (topic: string)
    ensures |topic| == |typeName| + 7
    ensures topic[..|typeName|] == typeName && topic[|typeName|..] == "_events"
  {
    typeName + "_events"
  }

  /** Distinct aggregate types publish on distinct topics. */
  lemma EventTopicInjective(a: string, b: string)
    requires EventTopic(a) == EventTopic(b)
    ensures a == b
  {
    assert |a| == |b|;
    assert a == EventTopic(a)[..|a|];
  }

  /** How the typed Apply fixes the event's SourceId before the base Apply runs:
    * a non-default Id wins; a default Id with a missing or default SourceId gets the
    * fresh id `newId`; otherwise the SourceId is kept. */
  function TypedSourceId(id: Guid, sourceId: Option<Guid>, newId: Guid): (r: Option<Guid>)
    ensures r.Some?
    ensures id != EmptyGuid ==> r == Some(id)
    ensures id == EmptyGuid && (sourceId.None? || sourceId == Some(EmptyGuid)) ==> r == Some(newId)
    ensures id == EmptyGuid && sourceId.Some? && sourceId.value != EmptyGuid ==> r == sourceId
    ensures newId != EmptyGuid ==> r.value != EmptyGuid
  {
    if id != EmptyGuid then Some(id)
    else if sourceId.None? || sourceId.value == EmptyGuid then Some(newId)
    else sourceId
  }

  /** The base Apply's first two steps: a null SourceId is refused, otherwise the
    * event is stamped with the version it will produce. */
  function StampEvent(version: int, e: DomainEvent): (r: Result<DomainEvent, Error>)
    ensures r.Err? <==> e.sourceId.None?
    ensures r.Err? ==> r.error == ArgumentNull("SourceId")
    ensures r.Ok? ==> r.value.version == version + 1
    ensures r.Ok? ==> r.value.(version := e.version) == e
  {
    if e.sourceId.None? then Err(ArgumentNull("SourceId")) else Ok(e.(version := version + 1))
  }

  /** Which step of Apply, if any, threw. */
  datatype ApplyOutcome = Applied | WhenFailed(error: Error) | Invalid(error: Error)
  {
    function ToOutcome(): (o: Outcome<Error>)
      ensures o.Pass? <==> Applied?
      ensures o.Fail? ==> o.error == error
    {
      match this
      case Applied => Pass
      case WhenFailed(err) => Fail(err)
      case Invalid(err) => Fail(err)
    }
  }

  /** The pending-queue invariant: every queued event names its aggregate, each queued
    * event is newer than the one before it (so the queue is in application order, as
    * PendingAscending shows) and no queued event is newer than the aggregate's version. */
  ghost predicate PendingOrdered(events: seq<DomainEvent>, version: int)
  {
    && (forall i :: 0 <= i < |events| ==> events[i].sourceId.Some?)
    && StepsUp(events)
    && (forall i :: 0 <= i < |events| ==> events[i].version <= version)
  }

  /** Each event's version is above the version of the event before it. */
  ghost predicate StepsUp(events: seq<DomainEvent>)
    decreases |events|
  {
    |events| < 2
    || (events[|events| - 2].version < events[|events| - 1].version && StepsUp(events[..|events| - 1]))
  }

  /** An ordered queue has strictly increasing versions throughout. */
  lemma {:induction false} PendingAscending(events: seq<DomainEvent>)
    requires StepsUp(events)
    ensures forall i, j :: 0 <= i < j < |events| ==> events[i].version < events[j].version
    decreases |events|
  {
    if |events| >= 2 {
      var init := events[..|events| - 1];
      PendingAscending(init);
      forall i, j | 0 <= i < j < |events| ensures events[i].version < events[j].version {
        if j < |events| - 1 {
          assert events[i] == init[i] && events[j] == init[j];
        } else if i < |events| - 2 {
          assert events[i] == init[i] && events[|events| - 2] == init[|events| - 2];
        }
      }
    }
  }

  /** Appending the event that produced the current version keeps the queue ordered. */
  lemma PendingOrderedAppend(events: seq<DomainEvent>, oldVersion: int, ev: DomainEvent)
    requires PendingOrdered(events, oldVersion)
    requires ev.sourceId.Some? && oldVersion < ev.version
    ensures PendingOrdered(events + [ev], ev.version)
  {
  }

  class AggregateRoot {
    /** The runtime type name of the owning aggregate. */
    const typeName: string
    var version: int
    var distributedEvents: seq<DomainEvent>

    ghost predicate Valid()
      reads this
    {
      PendingOrdered(distributedEvents, version)
    }

    constructor (typeName: string)
      ensures this.typeName == typeName
      ensures version == 0 && distributedEvents == []
      ensures Valid()
    {
      this.typeName := typeName;
      version := 0;
      distributedEvents := [];
    }

    /** A copy of the queue, in application order. */
    function GetDistributedEvents(): (events: seq<DomainEvent>)
      reads this
      ensures Valid() ==> PendingOrdered(events, version)
      ensures |events| == |distributedEvents|
      ensures forall i :: 0 <= i < |events| ==> events[i] == distributedEvents[i]
    {
      distributedEvents
    }

    method ClearDistributedEvents()
      modifies this`distributedEvents
      ensures distributedEvents == []
      ensures Valid()
    {
      distributedEvents := [];
    }

    function GetEventTopic(): (topic: string)
      ensures topic == EventTopic(typeName)
    {
      EventTopic(typeName)
    }

    /** The typed Apply followed by the base Apply's checks: resolve the SourceId from
      * the aggregate's `id`, refuse a null SourceId, stamp `version + 1`. Because the
      * typed step always yields a SourceId, the null check never fires. */
    function Stamp(id: Guid, e: DomainEvent, newId: Guid): (r: Result<DomainEvent, Error>)
      reads this
      ensures r.Ok?
      ensures r.value.version == version + 1
      ensures r.value.sourceId == TypedSourceId(id, e.sourceId, newId)
      ensures r.value.timestamp == e.timestamp && r.value.payload == e.payload
      ensures r.value.performedBy == e.performedBy
    {
      StampEvent(version, e.(sourceId := TypedSourceId(id, e.sourceId, newId)))
    }

    /** `Version = event.Version` once When has returned. */
    method AdvanceVersion(ev: DomainEvent)
      requires Valid() && version < ev.version
      modifies this`version
      ensures version == ev.version
      ensures Valid()
    {
      version := ev.version;
    }

    /** AddDistributedEvent: the event goes to the end of the queue. */
    method AddDistributedEvent(ev: DomainEvent)
      requires Valid() && ev.sourceId.Some? && ev.version == version
      requires forall i :: 0 <= i < |distributedEvents| ==> distributedEvents[i].version < version
      modifies this`distributedEvents
      ensures distributedEvents == old(distributedEvents) + [ev]
      ensures Valid()
    {
      distributedEvents := distributedEvents + [ev];
    }
  }
}
