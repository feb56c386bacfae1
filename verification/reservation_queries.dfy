/** The two reservation queries of ProductReservationRepository, over a snapshot of
  * the stored reservations: the pending total used for admission, and the batch of
  * expired pending reservations the sweeper releases. */
module ReservationQueries {
  import opened Common
  import opened ProductReservations
  import opened Sorting

  /** A reservation still holding stock of `productId` at `now`. */
  predicate CountsAsPending(r: ReservationState, productId: Guid, now: Time)
  {
    r.productId == productId && r.status == Pending && r.expiresAt > now
  }

  /** A reservation the sweeper may release at `now`. */
  predicate ReleaseEligible(r: ReservationState, now: Time)
  {
    r.status == Pending && r.expiresAt <= now
  }

  /** The two filters split the Pending reservations of a product by time. */
  lemma PendingSplit(r: ReservationState, now: Time)
    requires r.status == Pending
    ensures CountsAsPending(r, r.productId, now) <==> !ReleaseEligible(r, now)
  {
  }

  // ---------------------------------------------------------------------------
  // GetTotalPendingQuantityForProductAsync

  /** The sum of quantities over the rows that count as pending (0 when none does). */
  function PendingTotal(rows: seq<ReservationState>, productId: Guid, now: Time): (t: int)
    ensures (forall i :: 0 <= i < |rows| ==> !CountsAsPending(rows[i], productId, now)) ==> t == 0
    ensures (forall i :: 0 <= i < |rows| ==> 0 < rows[i].quantity) ==> 0 <= t
  {
    if rows == [] then 0
    else
      var last := rows[|rows| - 1];
      PendingTotal(rows[..|rows| - 1], productId, now) + (if CountsAsPending(last, productId, now) then last.quantity else 0)
  }

  /** The pending total of two snapshots together is the sum of their totals. */
  lemma {:induction false} PendingTotalConcat(a: seq<ReservationState>, b: seq<ReservationState>, productId: Guid, now: Time)
    ensures PendingTotal(a + b, productId, now) == PendingTotal(a, productId, now) + PendingTotal(b, productId, now)
    decreases |b|
  {
    if b != [] {
      var b' := b[..|b| - 1];
      assert (a + b)[..|a + b| - 1] == a + b';
      PendingTotalConcat(a, b', productId, now);
    } else {
      assert a + b == a;
    }
  }

  /** A row that counts adds its quantity to the pending total. */
  lemma PendingTotalAppend(rows: seq<ReservationState>, row: ReservationState, productId: Guid, now: Time)
    ensures PendingTotal(rows + [row], productId, now)
      == PendingTotal(rows, productId, now) + (if CountsAsPending(row, productId, now) then row.quantity else 0)
  {
    assert (rows + [row])[..|rows|] == rows;
  }

  /** Two snapshots whose rows count alike, with the same quantities where they count,
    * have the same pending total. */
  lemma {:induction false} PendingTotalSame(a: seq<ReservationState>, b: seq<ReservationState>, productId: Guid, now: Time)
    requires |a| == |b|
    requires forall i :: 0 <= i < |a| ==> CountsAsPending(a[i], productId, now) == CountsAsPending(b[i], productId, now)
    requires forall i :: 0 <= i < |a| && CountsAsPending(a[i], productId, now) ==> a[i].quantity == b[i].quantity
    ensures PendingTotal(a, productId, now) == PendingTotal(b, productId, now)
    decreases |a|
  {
    if a != [] {
      var n := |a| - 1;
      assert forall i :: 0 <= i < n ==> a[..n][i] == a[i] && b[..n][i] == b[i];
      PendingTotalSame(a[..n], b[..n], productId, now);
    }
  }

  // ---------------------------------------------------------------------------
  // GetExpiredPendingReservationsAsync

  /** The indices below `n` of the rows eligible for release, in storage order. */
  function EligibleIndices(rows: seq<ReservationState>, now: Time, n: nat): (r: seq<nat>)
    requires n <= |rows|
    ensures forall k :: 0 <= k < |r| ==> r[k] < n && ReleaseEligible(rows[r[k]], now)
    ensures forall k, l :: 0 <= k < l < |r| ==> r[k] < r[l]
    ensures forall i :: 0 <= i < n && ReleaseEligible(rows[i], now) ==> i in r
  {
    if n == 0 then []
    else
      var init := EligibleIndices(rows, now, n - 1);
      if ReleaseEligible(rows[n - 1], now) then init + [n - 1] else init
  }

  /** The expiry of the row at index `i` (0 past the end, where it is never asked). */
  function ExpiryAt(rows: seq<ReservationState>, i: nat): Time
  {
    if i < |rows| then rows[i].expiresAt else 0
  }

  /** Row indices ordered by expiry. */
  function ByExpiry(rows: seq<ReservationState>): (le: (nat, nat) -> bool)
    ensures TotalPreorder(le)
    ensures forall i, j :: le(i, j) == (ExpiryAt(rows, i) <= ExpiryAt(rows, j))
  {
    (i: nat, j: nat) => ExpiryAt(rows, i) <= ExpiryAt(rows, j)
  }

  /** Where(Pending and expired) . OrderBy(ExpiresAt) . Take(maxCount), as indices. */
  function ExpiredIndices(rows: seq<ReservationState>, maxCount: int, now: Time): (r: seq<nat>)
  {
    Take(SortBy(EligibleIndices(rows, now, |rows|), ByExpiry(rows)), maxCount)
  }

  /** The eligible indices, ordered by expiry. */
  function SortedEligible(rows: seq<ReservationState>, now: Time): (r: seq<nat>)
    ensures forall x :: x in r ==> x < |rows| && ReleaseEligible(rows[x], now)
    ensures forall i :: 0 <= i < |rows| && ReleaseEligible(rows[i], now) ==> i in r
    ensures |r| == |EligibleIndices(rows, now, |rows|)|
  {
    var eligible := EligibleIndices(rows, now, |rows|);
    var r := SortBy(eligible, ByExpiry(rows));
    assert forall x :: x in r <==> x in multiset(eligible);
    r
  }

  /** The batch holds as many rows as are eligible, up to `maxCount`. */
  lemma ExpiredIndicesSize(rows: seq<ReservationState>, maxCount: int, now: Time)
    ensures var n := |EligibleIndices(rows, now, |rows|)|;
      |ExpiredIndices(rows, maxCount, now)| == if maxCount <= 0 then 0 else if maxCount < n then maxCount else n
  {
    assert ExpiredIndices(rows, maxCount, now) == Take(SortedEligible(rows, now), maxCount);
  }

  /** Every row of the batch is Pending and expired at `now`. */
  lemma ExpiredIndicesEligible(rows: seq<ReservationState>, maxCount: int, now: Time)
    ensures var r := ExpiredIndices(rows, maxCount, now);
      forall k :: 0 <= k < |r| ==> r[k] < |rows| && ReleaseEligible(rows[r[k]], now)
  {
    var sorted := SortedEligible(rows, now);
    var r := ExpiredIndices(rows, maxCount, now);
    assert r == Take(sorted, maxCount);
    forall k | 0 <= k < |r| ensures r[k] < |rows| && ReleaseEligible(rows[r[k]], now) {
      assert r[k] == sorted[k];
      assert sorted[k] in sorted;
    }
  }

  /** The batch names each row once, in order of expiry. */
  lemma ExpiredIndicesOrdered(rows: seq<ReservationState>, maxCount: int, now: Time)
    ensures var r := ExpiredIndices(rows, maxCount, now);
      forall k, l :: 0 <= k < l < |r| ==>
        r[k] != r[l] && r[k] < |rows| && r[l] < |rows| && rows[r[k]].expiresAt <= rows[r[l]].expiresAt
  {
    var eligible := EligibleIndices(rows, now, |rows|);
    var le := ByExpiry(rows);
    var sorted := SortBy(eligible, le);
    var r := ExpiredIndices(rows, maxCount, now);
    assert r == Take(sorted, maxCount);
    ExpiredIndicesEligible(rows, maxCount, now);
    DistinctSorted(eligible, sorted);
    forall k, l | 0 <= k < l < |r|
      ensures r[k] != r[l] && r[k] < |rows| && r[l] < |rows| && rows[r[k]].expiresAt <= rows[r[l]].expiresAt
    {
      assert r[k] == sorted[k] && r[l] == sorted[l];
      assert le(sorted[k], sorted[l]);
    }
  }

  /** No eligible row left out of the batch expires before a row in it. */
  lemma ExpiredIndicesEarliest(rows: seq<ReservationState>, maxCount: int, now: Time, i: nat)
    requires i < |rows| && ReleaseEligible(rows[i], now) && i !in ExpiredIndices(rows, maxCount, now)
    ensures var r := ExpiredIndices(rows, maxCount, now);
      forall k :: 0 <= k < |r| ==> r[k] < |rows| && rows[r[k]].expiresAt <= rows[i].expiresAt
  {
    var le := ByExpiry(rows);
    var sorted := SortedEligible(rows, now);
    var r := ExpiredIndices(rows, maxCount, now);
    assert r == Take(sorted, maxCount);
    ExpiredIndicesEligible(rows, maxCount, now);
    forall k | 0 <= k < |r| ensures rows[r[k]].expiresAt <= rows[i].expiresAt {
      assert r[k] in r;
      TakeIsLeast(sorted, le, maxCount, r[k], i);
    }
  }

  /** A permutation of a sequence without repetitions has none either. */
  lemma DistinctSorted(a: seq<nat>, b: seq<nat>)
    requires forall k, l :: 0 <= k < l < |a| ==> a[k] < a[l]
    requires multiset(a) == multiset(b)
    ensures forall k, l :: 0 <= k < l < |b| ==> b[k] != b[l]
  {
    forall k, l | 0 <= k < l < |b| ensures b[k] != b[l] {
      if b[k] == b[l] {
        assert b == b[..k] + [b[k]] + b[k + 1..l] + [b[l]] + b[l + 1..];
        assert multiset(b)[b[k]] >= 2;
        var x := b[k];
        assert multiset(a)[x] >= 2;
        MultiplicityOne(a, x);
      }
    }
  }

  /** In a strictly increasing sequence each value occurs at most once. */
  lemma {:induction false} MultiplicityOne(a: seq<nat>, x: nat)
    requires forall k, l :: 0 <= k < l < |a| ==> a[k] < a[l]
    ensures multiset(a)[x] <= 1
  {
    if a != [] {
      var init := a[..|a| - 1];
      assert a == init + [a[|a| - 1]];
      MultiplicityOne(init, x);
      if a[|a| - 1] == x {
        assert x !in init;
      }
    }
  }

  /** The rows of the batch, as the query returns them. */
  function ExpiredPending(rows: seq<ReservationState>, maxCount: int, now: Time): (batch: seq<ReservationState>)
    ensures var r := ExpiredIndices(rows, maxCount, now);
      |batch| == |r| && forall k :: 0 <= k < |r| ==> r[k] < |rows| && batch[k] == rows[r[k]]
  {
    ExpiredIndicesEligible(rows, maxCount, now);
    var r := ExpiredIndices(rows, maxCount, now);
    seq(|r|, k requires 0 <= k < |r| => rows[r[k]])
  }
}
