/** BaseEfCoreDbContext's transactional outbox: at save time every pending event of a
  * changed aggregate becomes one outbox row, the rows join the same save as the
  * aggregates, and the aggregates' event queues are emptied only once the save has
  * gone through.
  *
  * The change tracker is a sequence of entries; the JSON serialiser and Guid's
  * ToString are function parameters; the outcome of the underlying DbContext save is
  * a parameter too. */
module Outbox {
  import opened Common
  import opened Events
  import opened AggregateRoots

  /** EF Core's EntityState. */
  datatype EntityState = Detached | Unchanged | Deleted | Modified | Added

  /** A tracked entity: an aggregate (reached through its event queue) or any other
    * entity, such as an order line. */
  datatype Entity = AggregateEntity(root: AggregateRoot) | PlainEntity(key: nat)

  datatype Entry = Entry(entity: Entity, state: EntityState)

  /** An outbox row as GetOutboxMessages builds it; `createdAt` is the event time. */
  datatype OutboxMessage = OutboxMessage(
    topic: string,
    correlationId: string,
    payload: string,
    sent: bool,
    processing: bool,
    createdAt: Time)

  /** GetChangedEntities: the entries that are neither Unchanged nor Detached, in
    * tracker order. */
  function ChangedEntities(entries: seq<Entry>): (r: seq<Entry>)
    ensures |r| <= |entries|
    ensures forall k :: 0 <= k < |r| ==> r[k] in entries && r[k].state != Unchanged && r[k].state != Detached
    ensures forall i :: 0 <= i < |entries| && entries[i].state != Unchanged && entries[i].state != Detached ==>
      entries[i] in r
  {
    if entries == [] then []
    else
      var n := |entries| - 1;
      var init := ChangedEntities(entries[..n]);
      assert entries == entries[..n] + [entries[n]];
      if entries[n].state != Unchanged && entries[n].state != Detached then init + [entries[n]] else init
  }

  function EntitiesOf(entries: seq<Entry>): (r: seq<Entity>)
    ensures |r| == |entries| && forall i :: 0 <= i < |entries| ==> r[i] == entries[i].entity
  {
    seq(|entries|, i requires 0 <= i < |entries| => entries[i].entity)
  }

  /** GetChangedAggregateRootEntries: the aggregates among the entries, in order. */
  function AggregatesOf(entries: seq<Entry>): (r: seq<AggregateRoot>)
    ensures |r| <= |entries|
    ensures forall k :: 0 <= k < |r| ==> AggregateEntity(r[k]) in EntitiesOf(entries)
    ensures forall i :: 0 <= i < |entries| && entries[i].entity.AggregateEntity? ==> entries[i].entity.root in r
  {
    if entries == [] then []
    else
      var n := |entries| - 1;
      var init := AggregatesOf(entries[..n]);
      assert entries == entries[..n] + [entries[n]];
      if entries[n].entity.AggregateEntity? then init + [entries[n].entity.root] else init
  }

  /** The aggregates a save scans: those of the changed entries. */
  function ScannedAggregates(entries: seq<Entry>): seq<AggregateRoot>
  {
    AggregatesOf(ChangedEntities(entries))
  }

  /** Exactly the aggregates whose entry is Added, Modified or Deleted are scanned. */
  lemma ScannedAggregatesSpec(entries: seq<Entry>, a: AggregateRoot)
    ensures a in ScannedAggregates(entries) <==>
      Entry(AggregateEntity(a), Added) in entries || Entry(AggregateEntity(a), Modified) in entries
      || Entry(AggregateEntity(a), Deleted) in entries
  {
    var changed := ChangedEntities(entries);
    if a in ScannedAggregates(entries) {
      var e :| e in changed && e.entity == AggregateEntity(a);
      assert e == Entry(AggregateEntity(a), e.state);
    } else {
      assert Entry(AggregateEntity(a), Added) !in changed;
      assert Entry(AggregateEntity(a), Modified) !in changed;
      assert Entry(AggregateEntity(a), Deleted) !in changed;
    }
  }

  /** The outbox row of one event of an aggregate publishing on `topic`. A null
    * SourceId prints as the empty string, as a null Guid? does. */
  function MessageFor(topic: string, e: DomainEvent, serialize: DomainEvent -> string, guidText: Guid -> string)
    : OutboxMessage
  {
    OutboxMessage(topic, if e.sourceId.Some? then guidText(e.sourceId.value) else "", serialize(e), false, false, e.timestamp)
  }

  /** The rows of one aggregate: one per queued event, in queue order. */
  function MessagesOf(a: AggregateRoot, serialize: DomainEvent -> string, guidText: Guid -> string)
    : (r: seq<OutboxMessage>)
    reads a
    ensures |r| == |a.distributedEvents|
  {
    var events := a.GetDistributedEvents();
    seq(|events|, k requires 0 <= k < |events| => MessageFor(a.GetEventTopic(), events[k], serialize, guidText))
  }

  /** Row `k` of an aggregate is the row of its `k`-th queued event, on its topic. */
  lemma MessagesOfAt(a: AggregateRoot, k: nat, serialize: DomainEvent -> string, guidText: Guid -> string)
    requires k < |a.distributedEvents|
    ensures MessagesOf(a, serialize, guidText)[k] == MessageFor(EventTopic(a.typeName), a.distributedEvents[k], serialize, guidText)
  {
  }

  /** The number of events queued on the aggregates. */
  function PendingCount(roots: seq<AggregateRoot>): nat
    reads roots
  {
    if roots == [] then 0 else PendingCount(roots[..|roots| - 1]) + |roots[|roots| - 1].distributedEvents|
  }

  /** GetOutboxMessages: the rows of every aggregate, aggregate after aggregate. */
  function GetOutboxMessages(roots: seq<AggregateRoot>, serialize: DomainEvent -> string, guidText: Guid -> string)
    : (r: seq<OutboxMessage>)
    reads roots
    ensures |r| == PendingCount(roots)
  {
    if roots == [] then []
    else
      var n := |roots| - 1;
      GetOutboxMessages(roots[..n], serialize, guidText) + MessagesOf(roots[n], serialize, guidText)
  }

  /** One more aggregate adds its own rows after those of the others. */
  lemma GetOutboxMessagesAppend(roots: seq<AggregateRoot>, a: AggregateRoot, serialize: DomainEvent -> string,
                                guidText: Guid -> string)
    ensures GetOutboxMessages(roots + [a], serialize, guidText)
      == GetOutboxMessages(roots, serialize, guidText) + MessagesOf(a, serialize, guidText)
  {
    assert (roots + [a])[..|roots|] == roots;
  }

  /** The rows of two runs of aggregates are the rows of the first run, then those of
    * the second. */
  lemma {:induction false} GetOutboxMessagesConcat(xs: seq<AggregateRoot>, ys: seq<AggregateRoot>,
                                                   serialize: DomainEvent -> string, guidText: Guid -> string)
    ensures GetOutboxMessages(xs + ys, serialize, guidText)
      == GetOutboxMessages(xs, serialize, guidText) + GetOutboxMessages(ys, serialize, guidText)
    decreases |ys|
  {
    if ys == [] {
      assert xs + ys == xs;
    } else {
      var n := |ys| - 1;
      var init, last := ys[..n], ys[n];
      GetOutboxMessagesConcat(xs, init, serialize, guidText);
      SplitLast(ys);
      AppendAssoc(xs, init, [last]);
      GetOutboxMessagesAppend(xs + init, last, serialize, guidText);
      GetOutboxMessagesAppend(init, last, serialize, guidText);
      AppendAssoc(GetOutboxMessages(xs, serialize, guidText), GetOutboxMessages(init, serialize, guidText),
                  MessagesOf(last, serialize, guidText));
    }
  }

  lemma AppendAssoc<T>(a: seq<T>, b: seq<T>, c: seq<T>)
    ensures (a + b) + c == a + (b + c)
  {
  }

  lemma SplitLast<T>(s: seq<T>)
    requires s != []
    ensures s[..|s| - 1] + [s[|s| - 1]] == s
  {
  }

  /** Event `j` of aggregate `i` is the row at offset `PendingCount(roots[..i]) + j`:
    * one row per event, in aggregate-then-event order, each carrying the aggregate's
    * topic, the event's source id as text, its serialisation and its time, and not yet
    * sent nor being processed. */
  lemma {:induction false} OutboxMessageAt(roots: seq<AggregateRoot>, i: nat, j: nat,
                                           serialize: DomainEvent -> string, guidText: Guid -> string)
    requires i < |roots| && j < |roots[i].distributedEvents|
    ensures var msgs := GetOutboxMessages(roots, serialize, guidText);
      var at := PendingCount(roots[..i]) + j;
      var e := roots[i].distributedEvents[j];
      && at < |msgs|
      && msgs[at] == MessageFor(roots[i].GetEventTopic(), e, serialize, guidText)
      && msgs[at].topic == EventTopic(roots[i].typeName)
      && msgs[at].payload == serialize(e) && msgs[at].createdAt == e.timestamp
      && (e.sourceId.Some? ==> msgs[at].correlationId == guidText(e.sourceId.value))
      && !msgs[at].sent && !msgs[at].processing
  {
    var n := |roots| - 1;
    var init := roots[..n];
    if i == n {
      assert roots[..i] == init;
      MessagesOfAt(roots[i], j, serialize, guidText);
    } else {
      assert init[..i] == roots[..i];
      OutboxMessageAt(init, i, j, serialize, guidText);
    }
  }

  /** Rows are produced only from queued events: none at all exactly when every scanned
    * aggregate's queue is empty. */
  lemma {:induction false} NoEventsNoMessages(roots: seq<AggregateRoot>, serialize: DomainEvent -> string,
                                              guidText: Guid -> string)
    ensures GetOutboxMessages(roots, serialize, guidText) == [] <==>
      forall i :: 0 <= i < |roots| ==> roots[i].distributedEvents == []
  {
    if roots != [] {
      var n := |roots| - 1;
      NoEventsNoMessages(roots[..n], serialize, guidText);
      assert forall i :: 0 <= i < n ==> roots[..n][i] == roots[i];
    }
  }

  /** Empties the queue of every aggregate in `roots`. */
  method ClearAll(roots: seq<AggregateRoot>)
    modifies set a | a in roots
    ensures forall a :: a in roots ==> a.distributedEvents == [] && a.Valid()
    ensures forall a :: a in roots ==> a.version == old(a.version)
  {
    var i := 0;
    while i < |roots|
      invariant i <= |roots|
      invariant forall k :: 0 <= k < i ==> roots[k].distributedEvents == [] && roots[k].Valid()
      invariant forall a :: a in roots ==> a.version == old(a.version)
    {
      roots[i].ClearDistributedEvents();
      i := i + 1;
    }
  }

  /** The DbContext's part in a save: the tracked entries, the outbox rows it tracks as
    * Added but has not saved yet, and the outbox table. */
  class DbContext {
    var entries: seq<Entry>
    var addedOutbox: seq<OutboxMessage>
    var outboxTable: seq<OutboxMessage>

    /** The change tracker holds each entity at most once. */
    predicate Valid()
      reads this
    {
      forall i, j :: 0 <= i < j < |entries| ==> entries[i].entity != entries[j].entity
    }

    constructor (entries: seq<Entry>)
      requires forall i, j :: 0 <= i < j < |entries| ==> entries[i].entity != entries[j].entity
      ensures Valid()
      ensures this.entries == entries && addedOutbox == [] && outboxTable == []
    {
      this.entries := entries;
      addedOutbox := [];
      outboxTable := [];
    }

    /** SaveChanges and SaveChangesAsync: the rows for the scanned aggregates' events
      * are added to the tracker as Added, then the save runs (`baseSave` is its
      * outcome). If it goes through, the tracked rows land in the outbox table in the
      * same save and the scanned aggregates' queues are emptied; if it throws, the
      * table is untouched, the rows stay tracked and every event stays queued. */
    method SaveChanges(serialize: DomainEvent -> string, guidText: Guid -> string, baseSave: Result<int, Error>)
      returns (r: Result<int, Error>)
      requires Valid()
      modifies this`addedOutbox, this`outboxTable, set a | a in ScannedAggregates(entries)
      ensures Valid()
      ensures r == baseSave
      ensures entries == old(entries)
      ensures var msgs := old(GetOutboxMessages(ScannedAggregates(entries), serialize, guidText));
        && (baseSave.Ok? ==>
              && outboxTable == old(outboxTable) + (old(addedOutbox) + msgs) && addedOutbox == []
              && forall a :: a in ScannedAggregates(entries) ==> a.distributedEvents == [] && a.Valid())
        && (baseSave.Err? ==>
              && outboxTable == old(outboxTable) && addedOutbox == old(addedOutbox) + msgs
              && forall a :: a in ScannedAggregates(entries) ==> unchanged(a))
      ensures forall a :: a in ScannedAggregates(entries) ==> a.version == old(a.version)
    {
      var roots := ScannedAggregates(entries);
      var msgs := GetOutboxMessages(roots, serialize, guidText);
      if |msgs| > 0 {
        addedOutbox := addedOutbox + msgs;
      }
      if baseSave.Err? {
        return baseSave;
      }
      outboxTable := outboxTable + addedOutbox;
      addedOutbox := [];
      ClearAll(roots);
      r := baseSave;
    }
  }
}
