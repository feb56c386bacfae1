/** ExpiredReservationReleaseService: one tick of the background sweeper. It fetches
  * a batch of Pending reservations whose expiry has passed, marks each expired, and
  * commits when the batch was not empty. */
module ExpirySweeper {
  import opened Common
  import opened ProductReservations
  import opened ProductStore
  import opened ReservationQueries

  /** The most reservations one tick releases. */
  const BatchSize: int := 100

  /** The rows after MarkExpired on each listed row, in order. */
  function ExpireEach(rows: seq<ReservationState>, batch: seq<nat>): (r: seq<ReservationState>)
    requires forall k :: 0 <= k < |batch| ==> batch[k] < |rows|
    ensures |r| == |rows|
    decreases |batch|
  {
    if batch == [] then rows
    else
      var prev := ExpireEach(rows, batch[..|batch| - 1]);
      var i := batch[|batch| - 1];
      prev[i := Expire(prev[i])]
  }

  /** Marking a batch expires exactly the listed rows; since MarkExpired is idempotent,
    * listing a row twice changes nothing further. */
  lemma {:induction false} ExpireEachEffect(rows: seq<ReservationState>, batch: seq<nat>)
    requires forall k :: 0 <= k < |batch| ==> batch[k] < |rows|
    ensures forall i :: 0 <= i < |rows| ==> ExpireEach(rows, batch)[i] == if i in batch then Expire(rows[i]) else rows[i]
    decreases |batch|
  {
    if batch != [] {
      var init := batch[..|batch| - 1];
      var last := batch[|batch| - 1];
      ExpireEachEffect(rows, init);
      assert batch == init + [last];
      ExpireIdempotent(rows[last]);
    }
  }

  /** One tick, read on the rows: the batch holds at most BatchSize rows, each of them
    * Expired afterwards; every other row, and every row that was not Pending, is as it
    * was; only statuses change; and the stock held by pending reservations at `now` is
    * the same, since an expired reservation no longer counts. */
  lemma TickReleases(rows: seq<ReservationState>, now: Time, productId: Guid)
    ensures var batch := ExpiredIndices(rows, BatchSize, now);
      && |batch| <= BatchSize
      && (forall k :: 0 <= k < |batch| ==> batch[k] < |rows|)
      && var after := ExpireEach(rows, batch);
         && (forall k :: 0 <= k < |batch| ==> after[batch[k]].status == Expired)
         && (forall i :: 0 <= i < |rows| && i !in batch ==> after[i] == rows[i])
         && (forall i :: 0 <= i < |rows| && rows[i].status != Pending ==> after[i] == rows[i])
         && (forall i :: 0 <= i < |rows| ==> after[i].(status := rows[i].status) == rows[i])
         && PendingTotal(after, productId, now) == PendingTotal(rows, productId, now)
  {
    var batch := ExpiredIndices(rows, BatchSize, now);
    ExpiredIndicesSize(rows, BatchSize, now);
    ExpiredIndicesEligible(rows, BatchSize, now);
    ExpireEachEffect(rows, batch);
    var after := ExpireEach(rows, batch);
    forall k | 0 <= k < |batch| ensures after[batch[k]].status == Expired {
      assert batch[k] in batch;
    }
    forall i | 0 <= i < |rows| && i in batch
      ensures !CountsAsPending(after[i], productId, now) && !CountsAsPending(rows[i], productId, now)
    {
      var k :| 0 <= k < |batch| && batch[k] == i;
    }
    PendingTotalSame(after, rows, productId, now);
  }

  /** MarkExpired and UpdateAsync on the tracked reservation at `k`: that row becomes
    * Expire of itself and every other row, and every product, reads as before. */
  method MarkAt(store: ProductUnitOfWork, k: nat, ghost rows0: seq<ReservationState>, now: Time, newId: Guid)
    requires store.Valid() && k < |store.reservations| && rows0 == store.Rows()
    modifies store.reservations[k], store.reservations[k].root
    ensures store.Valid() && unchanged(store)
    ensures store.Rows() == rows0[k := Expire(rows0[k])]
    ensures store.Stock() == old(store.Stock())
  {
    var reservation := store.reservations[k];
    var r := reservation.MarkExpired(now, newId);
    forall i | 0 <= i < |store.reservations| && i != k
      ensures store.reservations[i].Valid() && store.reservations[i].State() == rows0[i]
    {
    }
    RowsAt(store, k, rows0);
  }

  /** The foreach of a tick: each row of the batch is marked expired, in order. */
  method ExpireBatch(store: ProductUnitOfWork, batch: seq<nat>, now: Time, newId: Guid)
    requires store.Valid()
    requires forall k :: 0 <= k < |batch| ==> batch[k] < |store.reservations|
    modifies store.reservations, store.roots
    ensures store.Valid() && unchanged(store)
    ensures store.Rows() == ExpireEach(old(store.Rows()), batch)
    ensures store.Stock() == old(store.Stock())
  {
    ghost var rows0 := store.Rows();
    var i := 0;
    while i < |batch|
      invariant 0 <= i <= |batch|
      invariant store.Valid() && unchanged(store)
      invariant store.Rows() == ExpireEach(rows0, batch[..i])
      invariant store.Stock() == old(store.Stock())
    {
      assert batch[..i + 1][..i] == batch[..i];
      MarkAt(store, batch[i], store.Rows(), now, newId);
      i := i + 1;
    }
    assert batch[..i] == batch;
  }

  /** One tick of ExecuteAsync: GetExpiredPendingReservationsAsync(BatchSize), MarkExpired
    * on each, and a commit only when something was released. The result is the number
    * released. The commit keeps the rows already in the outbox, adds the rows of the
    * queued events after them, and empties every queue. */
  method Tick(store: ProductUnitOfWork, now: Time, newId: Guid) returns (released: nat)
    requires store.Valid()
    modifies store`commits, store`outbox, store.reservations, store.roots
    ensures store.Valid()
    ensures unchanged(store`products, store`reservations)
    ensures var batch := ExpiredIndices(old(store.Rows()), BatchSize, now);
      && (forall k :: 0 <= k < |batch| ==> batch[k] < |old(store.Rows())|)
      && released == |batch|
      && store.Rows() == ExpireEach(old(store.Rows()), batch)
      && store.Stock() == old(store.Stock())
    ensures released == 0 ==> store.commits == old(store.commits) && store.outbox == old(store.outbox)
    ensures released > 0 ==>
      && store.commits == old(store.commits) + 1 && old(store.outbox) <= store.outbox
      && store.ProductMessages() == [] && store.ReservationMessages() == []
  {
    var batch := ExpiredIndices(store.Rows(), BatchSize, now);
    ExpiredIndicesEligible(store.Rows(), BatchSize, now);
    ExpireBatch(store, batch, now, newId);
    if |batch| > 0 {
      store.Commit();
    }
    released := |batch|;
  }
}
