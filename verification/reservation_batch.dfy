/** What ConfirmReservations does to the stored reservations and products, as a
  * function of their values: each id in turn is loaded, its product loaded, the
  * reservation confirmed and the product's stock reduced, stopping at the first
  * failure. */
module ReservationBatch {
  import opened Common
  import opened ProductQuantityValue
  import opened Products
  import opened ProductReservations
  import opened ProductStore
  import opened ReservationConfirmation

  type Snapshot = (seq<ReservationState>, seq<ProductState>)

  /** One iteration of the confirmation loop. */
  function ConfirmStep(rows: seq<ReservationState>, prods: seq<ProductState>, id: Guid, now: Time): (r: Result<Snapshot, Error>)
  {
    var k := FindReservation(rows, id);
    if k.None? then Err(InvalidOperation(ReservationNotFound(id)))
    else
      var res := rows[k.value];
      var p := FindProduct(prods, res.productId);
      if p.None? then Err(InvalidOperation(ProductNotFound(res.productId)))
      else
        var (res', prod', outcome) := ConfirmPair(res, prods[p.value], now);
        if outcome.Fail? then Err(outcome.error)
        else Ok((rows[k.value := res'], prods[p.value := prod']))
  }

  /** The whole loop over `ids`, in order. */
  function ConfirmAll(rows: seq<ReservationState>, prods: seq<ProductState>, ids: seq<Guid>, now: Time): (r: Result<Snapshot, Error>)
  {
    if ids == [] then Ok((rows, prods))
    else
      var prev := ConfirmAll(rows, prods, ids[..|ids| - 1], now);
      if prev.Err? then prev else ConfirmStep(prev.value.0, prev.value.1, ids[|ids| - 1], now)
  }

  /** Once a prefix of the batch fails, the batch fails with the same error. */
  lemma {:induction false} ConfirmAllStopsAtFailure(rows: seq<ReservationState>, prods: seq<ProductState>, ids: seq<Guid>, i: nat, now: Time)
    requires i <= |ids| && ConfirmAll(rows, prods, ids[..i], now).Err?
    ensures ConfirmAll(rows, prods, ids, now) == ConfirmAll(rows, prods, ids[..i], now)
    decreases |ids| - i
  {
    if i < |ids| {
      assert ids[..i + 1][..i] == ids[..i];
      ConfirmAllStopsAtFailure(rows, prods, ids, i + 1, now);
    } else {
      assert ids[..i] == ids;
    }
  }

  /** The batch over one more id is one more step. */
  lemma ConfirmAllExtend(rows: seq<ReservationState>, prods: seq<ProductState>, ids: seq<Guid>, i: nat, now: Time, snap: Snapshot)
    requires i < |ids| && ConfirmAll(rows, prods, ids[..i], now) == Ok(snap)
    ensures ConfirmAll(rows, prods, ids[..i + 1], now) == ConfirmStep(snap.0, snap.1, ids[i], now)
  {
    assert ids[..i + 1][..i] == ids[..i];
  }

  /** Two snapshots that agree on every row's id. */
  predicate SameReservationIds(a: seq<ReservationState>, b: seq<ReservationState>)
  {
    |a| == |b| && forall i :: 0 <= i < |a| ==> a[i].id == b[i].id
  }

  predicate SameProductIds(a: seq<ProductState>, b: seq<ProductState>)
  {
    |a| == |b| && forall i :: 0 <= i < |a| ==> a[i].id == b[i].id
  }

  /** The lookups only look at ids. */
  lemma {:induction false} FindReservationByIds(a: seq<ReservationState>, b: seq<ReservationState>, id: Guid)
    requires SameReservationIds(a, b)
    ensures FindReservation(a, id) == FindReservation(b, id)
    decreases |a|
  {
    if a != [] {
      FindReservationByIds(a[1..], b[1..], id);
    }
  }

  lemma {:induction false} FindProductByIds(a: seq<ProductState>, b: seq<ProductState>, id: Guid)
    requires SameProductIds(a, b)
    ensures FindProduct(a, id) == FindProduct(b, id)
    decreases |a|
  {
    if a != [] {
      FindProductByIds(a[1..], b[1..], id);
    }
  }

  /** The quantity the batch `ids` takes from product `productId`: the quantity of each
    * listed reservation that belongs to it. */
  function Deduction(rows: seq<ReservationState>, ids: seq<Guid>, productId: Guid): (d: int)
  {
    if ids == [] then 0
    else
      var k := FindReservation(rows, ids[|ids| - 1]);
      Deduction(rows, ids[..|ids| - 1], productId)
        + (if k.Some? && rows[k.value].productId == productId then rows[k.value].quantity else 0)
  }

  /** A successful step confirms the reservation with that id and takes its quantity
    * from its product. */
  lemma StepEffect(rows: seq<ReservationState>, prods: seq<ProductState>, id: Guid, now: Time)
    requires ConfirmStep(rows, prods, id, now).Ok?
    ensures FindReservation(rows, id).Some?
    ensures var k := FindReservation(rows, id).value;
      && FindProduct(prods, rows[k].productId).Some?
      && rows[k].status == Pending && now <= rows[k].expiresAt
      && var p := FindProduct(prods, rows[k].productId).value;
         && 0 <= prods[p].quantity.value - rows[k].quantity <= MaxInt32
         && ConfirmStep(rows, prods, id, now).value ==
              (rows[k := rows[k].(status := Confirmed)],
               prods[p := prods[p].(quantity := QuantityRecord(prods[p].quantity.value - rows[k].quantity), updatedAt := now)])
  {
  }

  /** ConfirmStep read off an in-place update: replacing row `k` (the one with `id`)
    * and product row `p` (its product) by what ConfirmPair makes of them gives
    * ConfirmStep's rows, and ConfirmPair's outcome is ConfirmStep's. */
  lemma StepOfUpdate(rows: seq<ReservationState>, prods: seq<ProductState>, id: Guid, now: Time, k: nat, p: nat,
                     res': ReservationState, prod': ProductState, r: Outcome<Error>)
    requires FindReservation(rows, id) == Some(k) && FindProduct(prods, rows[k].productId) == Some(p)
    requires (res', prod', r) == ConfirmPair(rows[k], prods[p], now)
    ensures var c := ConfirmStep(rows, prods, id, now);
      && (c.Ok? ==> r.Pass? && rows[k := res'] == c.value.0 && prods[p := prod'] == c.value.1)
      && (c.Err? ==> r == Fail(c.error))
  {
  }

  /** A successful batch keeps every row in place and changes only reservation
    * statuses and product stock and modification times. */
  lemma {:induction false} ConfirmAllShape(rows: seq<ReservationState>, prods: seq<ProductState>, ids: seq<Guid>, now: Time)
    requires ConfirmAll(rows, prods, ids, now).Ok?
    ensures var (rows', prods') := ConfirmAll(rows, prods, ids, now).value;
      && SameReservationIds(rows', rows) && SameProductIds(prods', prods)
      && (forall i :: 0 <= i < |rows| ==> rows'[i].(status := rows[i].status) == rows[i])
      && (forall j :: 0 <= j < |prods| ==> prods'[j].(quantity := prods[j].quantity, updatedAt := prods[j].updatedAt) == prods[j])
    decreases |ids|
  {
    if ids != [] {
      var init := ids[..|ids| - 1];
      ConfirmAllShape(rows, prods, init, now);
      var (rows1, prods1) := ConfirmAll(rows, prods, init, now).value;
      StepEffect(rows1, prods1, ids[|ids| - 1], now);
    }
  }

  /** The last step of a successful batch, read against the rows before the batch:
    * given how the earlier steps left the rows, the last id was not listed before, its
    * row was Pending and unexpired, and the step confirms that row. */
  lemma LastStepConfirms(rows: seq<ReservationState>, prods: seq<ProductState>, ids: seq<Guid>, now: Time)
    requires DistinctReservationIds(rows)
    requires ids != [] && ConfirmAll(rows, prods, ids, now).Ok?
    requires var rows1 := ConfirmAll(rows, prods, ids[..|ids| - 1], now).value.0;
      && |rows1| == |rows|
      && (forall i :: 0 <= i < |rows| ==> rows1[i] == if rows[i].id in ids[..|ids| - 1] then rows[i].(status := Confirmed) else rows[i])
    ensures FindReservation(rows, ids[|ids| - 1]).Some?
    ensures var k := FindReservation(rows, ids[|ids| - 1]).value;
      && ids[|ids| - 1] !in ids[..|ids| - 1]
      && rows[k].status == Pending && now <= rows[k].expiresAt
      && ConfirmAll(rows, prods, ids, now).value.0
           == ConfirmAll(rows, prods, ids[..|ids| - 1], now).value.0[k := rows[k].(status := Confirmed)]
  {
    var init := ids[..|ids| - 1];
    var x := ids[|ids| - 1];
    var (rows1, prods1) := ConfirmAll(rows, prods, init, now).value;
    StepEffect(rows1, prods1, x, now);
    assert SameReservationIds(rows1, rows);
    FindReservationByIds(rows1, rows, x);
  }

  /** `rows'` is `rows` after confirming the batch `ids`: every listed reservation was
    * Pending and unexpired, was listed once, and is now Confirmed; every other
    * reservation is as it was. */
  predicate BatchConfirmed(rows: seq<ReservationState>, ids: seq<Guid>, rows': seq<ReservationState>, now: Time)
  {
    && |rows'| == |rows|
    && (forall i, j :: 0 <= i < j < |ids| ==> ids[i] != ids[j])
    && (forall n :: 0 <= n < |ids| ==> FindReservation(rows, ids[n]).Some?)
    && (forall i :: 0 <= i < |rows| && rows[i].id in ids ==> rows[i].status == Pending && now <= rows[i].expiresAt)
    && (forall i :: 0 <= i < |rows| ==> rows'[i] == if rows[i].id in ids then rows[i].(status := Confirmed) else rows[i])
  }

  /** A successful batch confirms exactly the listed reservations. */
  lemma {:induction false} ConfirmAllConfirms(rows: seq<ReservationState>, prods: seq<ProductState>, ids: seq<Guid>, now: Time)
    requires DistinctReservationIds(rows)
    requires ConfirmAll(rows, prods, ids, now).Ok?
    ensures BatchConfirmed(rows, ids, ConfirmAll(rows, prods, ids, now).value.0, now)
    decreases |ids|
  {
    if ids != [] {
      ConfirmAllConfirms(rows, prods, ids[..|ids| - 1], now);
      ConfirmAllConfirmsStep(rows, prods, ids, now);
    }
  }

  /** The inductive step of ConfirmAllConfirms: the batch without its last id confirmed
    * its reservations, and the last id confirms one more. */
  lemma ConfirmAllConfirmsStep(rows: seq<ReservationState>, prods: seq<ProductState>, ids: seq<Guid>, now: Time)
    requires DistinctReservationIds(rows)
    requires ids != [] && ConfirmAll(rows, prods, ids, now).Ok?
    requires ConfirmAll(rows, prods, ids[..|ids| - 1], now).Ok?
    requires BatchConfirmed(rows, ids[..|ids| - 1], ConfirmAll(rows, prods, ids[..|ids| - 1], now).value.0, now)
    ensures BatchConfirmed(rows, ids, ConfirmAll(rows, prods, ids, now).value.0, now)
  {
    var init := ids[..|ids| - 1];
    var x := ids[|ids| - 1];
    LastStepConfirms(rows, prods, ids, now);
    var k := FindReservation(rows, x).value;
    assert forall n :: 0 <= n < |init| ==> ids[n] == init[n];
    forall i, j | 0 <= i < j < |ids| ensures ids[i] != ids[j] {
      if j == |ids| - 1 {
        assert init[i] in init;
      }
    }
    forall i | 0 <= i < |rows| && i != k ensures (rows[i].id in ids) == (rows[i].id in init) {
      assert rows[i].id != x;
      if rows[i].id in ids {
        var n :| 0 <= n < |ids| && ids[n] == rows[i].id;
        assert init[n] == rows[i].id;
      }
    }
    assert x in ids;
  }

  /** A successful batch takes from each product exactly the quantities reserved
    * against it. */
  lemma {:induction false} ConfirmAllDeducts(rows: seq<ReservationState>, prods: seq<ProductState>, ids: seq<Guid>, now: Time)
    requires DistinctReservationIds(rows) && DistinctProductIds(prods)
    requires ConfirmAll(rows, prods, ids, now).Ok?
    ensures var prods' := ConfirmAll(rows, prods, ids, now).value.1;
      |prods'| == |prods| &&
      forall j :: 0 <= j < |prods| ==> prods'[j].quantity.value == prods[j].quantity.value - Deduction(rows, ids, prods[j].id)
    decreases |ids|
  {
    var prods' := ConfirmAll(rows, prods, ids, now).value.1;
    ConfirmAllShape(rows, prods, ids, now);
    if ids != [] {
      var init := ids[..|ids| - 1];
      var x := ids[|ids| - 1];
      ConfirmAllDeducts(rows, prods, init, now);
      ConfirmAllConfirms(rows, prods, ids, now);
      ConfirmAllShape(rows, prods, init, now);
      var (rows1, prods1) := ConfirmAll(rows, prods, init, now).value;
      StepEffect(rows1, prods1, x, now);
      FindReservationByIds(rows1, rows, x);
      var k := FindReservation(rows, x).value;
      assert x !in init;
      assert rows1[k] == rows[k];
      FindProductByIds(prods1, prods, rows[k].productId);
      var p := FindProduct(prods, rows[k].productId).value;
      forall j | 0 <= j < |prods| ensures prods'[j].quantity.value == prods[j].quantity.value - Deduction(rows, ids, prods[j].id) {
        if j != p {
          assert prods[j].id != prods[p].id;
        }
      }
    }
  }

  /** A batch that lists some reservation twice fails. */
  lemma DuplicateIdFails(rows: seq<ReservationState>, prods: seq<ProductState>, ids: seq<Guid>, now: Time, i: nat, j: nat)
    requires DistinctReservationIds(rows)
    requires i < j < |ids| && ids[i] == ids[j]
    ensures ConfirmAll(rows, prods, ids, now).Err?
  {
    if ConfirmAll(rows, prods, ids, now).Ok? {
      ConfirmAllConfirms(rows, prods, ids, now);
    }
  }
}
