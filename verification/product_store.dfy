/** The product service's unit of work: the products and reservations its DbContext
  * tracks, the two repositories' LoadAsync/AddAsync over them, and the commits, each of
  * which writes the tracked aggregates' queued events to the outbox table. */
module ProductStore {
  import opened Common
  import opened Events
  import opened Products
  import opened ProductReservations
  import opened AggregateRoots
  import Outbox

  /** The tracked reservations, as values. */
  function ReservationRows(rs: seq<ProductReservation>): (r: seq<ReservationState>)
    reads rs
    ensures |r| == |rs| && forall i :: 0 <= i < |rs| ==> r[i] == rs[i].State()
  {
    if rs == [] then [] else ReservationRows(rs[..|rs| - 1]) + [rs[|rs| - 1].State()]
  }

  /** The tracked products, as values. */
  function ProductRows(ps: seq<Product>): (r: seq<ProductState>)
    reads ps
    ensures |r| == |ps| && forall i :: 0 <= i < |ps| ==> r[i] == ps[i].State()
  {
    if ps == [] then [] else ProductRows(ps[..|ps| - 1]) + [ps[|ps| - 1].State()]
  }

  /** FirstOrDefault(x => x.Id == id) over reservations: the first row with that id. */
  function FindReservation(rows: seq<ReservationState>, id: Guid): (r: Option<nat>)
    ensures r.Some? ==> r.value < |rows| && rows[r.value].id == id
    ensures r.Some? ==> forall i :: 0 <= i < r.value ==> rows[i].id != id
    ensures r.None? ==> forall i :: 0 <= i < |rows| ==> rows[i].id != id
  {
    if rows == [] then None
    else if rows[0].id == id then Some(0)
    else
      var r := FindReservation(rows[1..], id);
      if r.None? then None else Some(r.value + 1)
  }

  /** FirstOrDefault(p => p.Id == id) over products: the first row with that id. */
  function FindProduct(rows: seq<ProductState>, id: Guid): (r: Option<nat>)
    ensures r.Some? ==> r.value < |rows| && rows[r.value].id == id
    ensures r.Some? ==> forall i :: 0 <= i < r.value ==> rows[i].id != id
    ensures r.None? ==> forall i :: 0 <= i < |rows| ==> rows[i].id != id
  {
    if rows == [] then None
    else if rows[0].id == id then Some(0)
    else
      var r := FindProduct(rows[1..], id);
      if r.None? then None else Some(r.value + 1)
  }

  /** Ids are primary keys. */
  predicate DistinctReservationIds(rows: seq<ReservationState>)
  {
    forall i, j :: 0 <= i < j < |rows| ==> rows[i].id != rows[j].id
  }

  predicate DistinctProductIds(rows: seq<ProductState>)
  {
    forall i, j :: 0 <= i < j < |rows| ==> rows[i].id != rows[j].id
  }

  /** With distinct ids, the row found is the only one with that id. */
  lemma FindReservationUnique(rows: seq<ReservationState>, id: Guid, i: nat)
    requires DistinctReservationIds(rows) && i < |rows| && rows[i].id == id
    ensures FindReservation(rows, id) == Some(i)
  {
  }

  /** The event queues of the given aggregates. */
  function RootsOf(ps: seq<Product>, rs: seq<ProductReservation>): set<AggregateRoot>
  {
    (set p | p in ps :: p.root) + (set r | r in rs :: r.root)
  }

  /** The outbox rows of the products' queued events, product after product. */
  function ProductMessagesOf(ps: seq<Product>, serialize: DomainEvent -> string, guidText: Guid -> string)
    : seq<Outbox.OutboxMessage>
    reads set p | p in ps :: p.root
  {
    if ps == [] then []
    else ProductMessagesOf(ps[..|ps| - 1], serialize, guidText) + Outbox.MessagesOf(ps[|ps| - 1].root, serialize, guidText)
  }

  /** The outbox rows of the reservations' queued events, reservation after reservation. */
  function ReservationMessagesOf(rs: seq<ProductReservation>, serialize: DomainEvent -> string, guidText: Guid -> string)
    : seq<Outbox.OutboxMessage>
    reads set r | r in rs :: r.root
  {
    if rs == [] then []
    else ReservationMessagesOf(rs[..|rs| - 1], serialize, guidText) + Outbox.MessagesOf(rs[|rs| - 1].root, serialize, guidText)
  }

  /** Products with empty queues have no rows to write. */
  lemma {:induction false} NoProductMessages(ps: seq<Product>, serialize: DomainEvent -> string, guidText: Guid -> string)
    requires forall i :: 0 <= i < |ps| ==> ps[i].root.distributedEvents == []
    ensures ProductMessagesOf(ps, serialize, guidText) == []
  {
    if ps != [] {
      NoProductMessages(ps[..|ps| - 1], serialize, guidText);
    }
  }

  /** Reservations with empty queues have no rows to write. */
  lemma {:induction false} NoReservationMessages(rs: seq<ProductReservation>, serialize: DomainEvent -> string,
                                                 guidText: Guid -> string)
    requires forall i :: 0 <= i < |rs| ==> rs[i].root.distributedEvents == []
    ensures ReservationMessagesOf(rs, serialize, guidText) == []
  {
    if rs != [] {
      NoReservationMessages(rs[..|rs| - 1], serialize, guidText);
    }
  }

  /** The event queues of the given aggregates in tracking order: products first, then
    * reservations; the same queues as RootsOf. */
  function RootSeqOf(ps: seq<Product>, rs: seq<ProductReservation>): (r: seq<AggregateRoot>)
    ensures |r| == |ps| + |rs|
    ensures forall i :: 0 <= i < |ps| ==> r[i] == ps[i].root
    ensures forall j :: 0 <= j < |rs| ==> r[|ps| + j] == rs[j].root
    ensures forall a :: a in r ==> a in RootsOf(ps, rs)
    ensures forall a :: a in RootsOf(ps, rs) ==> a in r
  {
    var r: seq<AggregateRoot> := seq(|ps|, i requires 0 <= i < |ps| => ps[i].root)
      + seq(|rs|, j requires 0 <= j < |rs| => rs[j].root);
    assert forall a :: a in RootsOf(ps, rs) ==> a in r by {
      forall a | a in RootsOf(ps, rs) ensures a in r {
        if a in (set p | p in ps :: p.root) {
          var p :| p in ps && p.root == a;
          var i :| 0 <= i < |ps| && ps[i] == p;
          assert r[i] == a;
        } else {
          var x :| x in rs && x.root == a;
          var j :| 0 <= j < |rs| && rs[j] == x;
          assert r[|ps| + j] == a;
        }
      }
    }
    r
  }

  /** Tracking one more product adds its row and its queued events' rows last. */
  lemma ProductAppended(ps: seq<Product>, p: Product, serialize: DomainEvent -> string, guidText: Guid -> string)
    ensures ProductRows(ps + [p]) == ProductRows(ps) + [p.State()]
    ensures ProductMessagesOf(ps + [p], serialize, guidText) == ProductMessagesOf(ps, serialize, guidText)
      + Outbox.MessagesOf(p.root, serialize, guidText)
  {
    assert (ps + [p])[..|ps|] == ps;
  }

  /** Tracking one more reservation adds its row and its queued events' rows last. */
  lemma ReservationAppended(rs: seq<ProductReservation>, r: ProductReservation, serialize: DomainEvent -> string,
                            guidText: Guid -> string)
    ensures ReservationRows(rs + [r]) == ReservationRows(rs) + [r.State()]
    ensures ReservationMessagesOf(rs + [r], serialize, guidText) == ReservationMessagesOf(rs, serialize, guidText)
      + Outbox.MessagesOf(r.root, serialize, guidText)
  {
    assert (rs + [r])[..|rs|] == rs;
  }

  /** Tracking one more aggregate adds its event queue to the tracked ones. */
  lemma RootsOfAddProduct(ps: seq<Product>, rs: seq<ProductReservation>, p: Product)
    ensures RootsOf(ps + [p], rs) == RootsOf(ps, rs) + {p.root}
  {
    assert forall x :: x in ps + [p] <==> x in ps || x == p;
  }

  lemma RootsOfAddReservation(ps: seq<Product>, rs: seq<ProductReservation>, r: ProductReservation)
    ensures RootsOf(ps, rs + [r]) == RootsOf(ps, rs) + {r.root}
  {
    assert forall x :: x in rs + [r] <==> x in rs || x == r;
  }

  /** Every aggregate is live. */
  ghost predicate AllLive(ps: seq<Product>, rs: seq<ProductReservation>)
    reads ps, rs, RootsOf(ps, rs)
  {
    && (forall i :: 0 <= i < |ps| ==> ps[i].Valid())
    && (forall i :: 0 <= i < |rs| ==> rs[i].Valid())
  }

  /** Every aggregate owns its own event queue and has its own id. */
  ghost predicate Separate(ps: seq<Product>, rs: seq<ProductReservation>)
    reads ps, rs
  {
    && (forall i, j {:trigger ps[i].root, ps[j].root} :: 0 <= i < j < |ps| ==> ps[i].root != ps[j].root)
    && (forall i, j {:trigger rs[i].root, rs[j].root} :: 0 <= i < j < |rs| ==> rs[i].root != rs[j].root)
    && (forall i, j {:trigger ps[i].root, rs[j].root} :: 0 <= i < |ps| && 0 <= j < |rs| ==> ps[i].root != rs[j].root)
    && (forall i, j {:trigger ps[i].id, ps[j].id} :: 0 <= i < j < |ps| ==> ps[i].id != ps[j].id)
    && (forall i, j {:trigger rs[i].id, rs[j].id} :: 0 <= i < j < |rs| ==> rs[i].id != rs[j].id)
  }

  /** Every aggregate is live, owns its own event queue, and has its own id. */
  ghost predicate TrackedValid(ps: seq<Product>, rs: seq<ProductReservation>)
    reads ps, rs, RootsOf(ps, rs)
  {
    AllLive(ps, rs) && Separate(ps, rs)
  }

  /** A live product with a fresh event queue and an unused id keeps the tracked set valid. */
  lemma TrackedValidAddProduct(ps: seq<Product>, rs: seq<ProductReservation>, p: Product)
    requires TrackedValid(ps, rs) && p.Valid()
    requires forall i :: 0 <= i < |ps| ==> ps[i].root != p.root && ps[i].id != p.id
    requires forall i :: 0 <= i < |rs| ==> rs[i].root != p.root
    ensures TrackedValid(ps + [p], rs)
  {
    var ps' := ps + [p];
    assert forall i :: 0 <= i < |ps| ==> ps'[i] == ps[i];
    assert ps'[|ps|] == p;
  }

  /** A live reservation with a fresh event queue and an unused id keeps the tracked set
    * valid. */
  lemma TrackedValidAddReservation(ps: seq<Product>, rs: seq<ProductReservation>, r: ProductReservation)
    requires TrackedValid(ps, rs) && r.Valid()
    requires forall i :: 0 <= i < |rs| ==> rs[i].root != r.root && rs[i].id != r.id
    requires forall i :: 0 <= i < |ps| ==> ps[i].root != r.root
    ensures TrackedValid(ps, rs + [r])
  {
    var rs' := rs + [r];
    assert forall i :: 0 <= i < |rs| ==> rs'[i] == rs[i];
    assert rs'[|rs|] == r;
  }

  class ProductUnitOfWork {
    var products: seq<Product>
    var reservations: seq<ProductReservation>
    var commits: nat
    /** The outbox table: the rows every commit has written. */
    var outbox: seq<Outbox.OutboxMessage>
    /** The DbContext's JSON serialiser and Guid formatting. */
    const serialize: DomainEvent -> string
    const guidText: Guid -> string

    /** The event queues of the tracked aggregates. */
    ghost var roots: set<AggregateRoot>

    /** The outbox rows of the tracked products' queued events, product after product. */
    function ProductMessages(): seq<Outbox.OutboxMessage>
      reads this`products, set p | p in products :: p.root
    {
      ProductMessagesOf(products, serialize, guidText)
    }

    /** The outbox rows of the tracked reservations' queued events, reservation after
      * reservation. */
    function ReservationMessages(): seq<Outbox.OutboxMessage>
      reads this`reservations, set r | r in reservations :: r.root
    {
      ReservationMessagesOf(reservations, serialize, guidText)
    }

    /** Every tracked aggregate is live, owns its own event queue, and has its own id. */
    ghost predicate Valid()
      reads this`products, this`reservations, this`roots, products, reservations, roots
    {
      roots == RootsOf(products, reservations) && TrackedValid(products, reservations)
    }

    /** No tracked aggregate owns the event queue `r`. */
    predicate NewRoot(r: AggregateRoot)
      reads this`products, this`reservations, products, reservations
    {
      && (forall i :: 0 <= i < |products| ==> products[i].root != r)
      && (forall i :: 0 <= i < |reservations| ==> reservations[i].root != r)
    }

    function Rows(): seq<ReservationState>
      reads this`reservations, reservations
    {
      ReservationRows(reservations)
    }

    function Stock(): seq<ProductState>
      reads this`products, products
    {
      ProductRows(products)
    }

    constructor (serialize: DomainEvent -> string, guidText: Guid -> string)
      ensures Valid() && products == [] && reservations == [] && commits == 0 && outbox == []
      ensures this.serialize == serialize && this.guidText == guidText
    {
      products := [];
      reservations := [];
      commits := 0;
      outbox := [];
      roots := {};
      this.serialize := serialize;
      this.guidText := guidText;
    }

    /** ProductRepository.LoadAsync: the product with that id, or InvalidOperation. */
    function LoadProduct(id: Guid): (r: Result<Product, Error>)
      reads this`products, products
      ensures r.Ok? <==> exists i :: 0 <= i < |products| && products[i].id == id
      ensures r.Ok? ==> r.value in products && r.value.id == id
      ensures r.Err? ==> r.error == InvalidOperation(ProductNotFound(id))
    {
      var k := FindProduct(Stock(), id);
      if k.None? then Err(InvalidOperation(ProductNotFound(id))) else Ok(products[k.value])
    }

    /** ProductReservationRepository.LoadAsync: the reservation with that id, or
      * InvalidOperation. */
    function LoadReservation(id: Guid): (r: Result<ProductReservation, Error>)
      reads this`reservations, reservations
      ensures r.Ok? <==> exists i :: 0 <= i < |reservations| && reservations[i].id == id
      ensures r.Ok? ==> r.value in reservations && r.value.id == id
      ensures r.Err? ==> r.error == InvalidOperation(ReservationNotFound(id))
    {
      var k := FindReservation(Rows(), id);
      if k.None? then Err(InvalidOperation(ReservationNotFound(id))) else Ok(reservations[k.value])
    }

    /** ProductRepository.AddAsync: the product is tracked from now on. */
    method AddProduct(p: Product)
      requires Valid() && p.Valid() && p !in products && NewRoot(p.root)
      requires forall i :: 0 <= i < |products| ==> products[i].id != p.id
      modifies this`products, this`roots
      ensures Valid()
      ensures products == old(products) + [p] && unchanged(this`reservations)
      ensures Stock() == old(Stock()) + [p.State()] && Rows() == old(Rows())
      ensures roots == old(roots) + {p.root}
      ensures ProductMessages() == old(ProductMessages()) + Outbox.MessagesOf(p.root, serialize, guidText)
      ensures ReservationMessages() == old(ReservationMessages())
    {
      AppendProduct(p);
      ProductAppendedState(p);
      ProductAppendedValid(p);
    }

    /** The list append of ProductRepository.AddAsync. */
    method AppendProduct(p: Product)
      requires roots == RootsOf(products, reservations)
      modifies this`products, this`roots
      ensures products == old(products) + [p] && roots == RootsOf(products, reservations)
      ensures roots == old(roots) + {p.root}
    {
      RootsOfAddProduct(products, reservations, p);
      products := products + [p];
      roots := roots + {p.root};
    }

    /** ProductReservationRepository.AddAsync: the reservation is tracked from now on. */
    method AddReservation(res: ProductReservation)
      requires Valid() && res.Valid() && res !in reservations && NewRoot(res.root)
      requires forall i :: 0 <= i < |reservations| ==> reservations[i].id != res.id
      modifies this`reservations, this`roots
      ensures Valid()
      ensures reservations == old(reservations) + [res] && unchanged(this`products)
      ensures Rows() == old(Rows()) + [res.State()] && Stock() == old(Stock())
      ensures roots == old(roots) + {res.root}
      ensures ReservationMessages() == old(ReservationMessages()) + Outbox.MessagesOf(res.root, serialize, guidText)
      ensures ProductMessages() == old(ProductMessages())
    {
      AppendReservation(res);
      ReservationAppendedValid(res);
      ReservationAppendedState(res);
    }

    /** The list append of ProductReservationRepository.AddAsync. */
    method AppendReservation(res: ProductReservation)
      requires roots == RootsOf(products, reservations)
      modifies this`reservations, this`roots
      ensures reservations == old(reservations) + [res] && roots == RootsOf(products, reservations)
      ensures roots == old(roots) + {res.root}
    {
      RootsOfAddReservation(products, reservations, res);
      reservations := reservations + [res];
      roots := roots + {res.root};
    }

    /** The end of a successful save: every tracked queue is emptied, leaving no rows to
      * write, and the aggregates' fields and versions are kept. */
    method ClearQueues()
      requires Valid()
      modifies roots
      ensures Valid()
      ensures forall a :: a in roots ==> a.distributedEvents == [] && a.version == old(a.version)
      ensures Rows() == old(Rows()) && Stock() == old(Stock())
      ensures ProductMessages() == [] && ReservationMessages() == []
    {
      var queues := RootSeqOf(products, reservations);
      Outbox.ClearAll(queues);
      QueuesClearedValid(queues);
      QueuesClearedMessages(this, queues);
    }

    /** CommitAsync, which is SaveChangesAsync: every queued event of a tracked
      * aggregate becomes one outbox row in the same save, products' rows first, then
      * every queue is emptied, leaving nothing to write; the aggregates' fields and
      * versions are kept. */
    method Commit()
      requires Valid()
      modifies this`commits, this`outbox, roots
      ensures Valid()
      ensures commits == old(commits) + 1
      ensures outbox == old(outbox) + old(ProductMessages()) + old(ReservationMessages())
      ensures forall a :: a in roots ==> a.distributedEvents == [] && a.version == old(a.version)
      ensures Rows() == old(Rows()) && Stock() == old(Stock())
      ensures ProductMessages() == [] && ReservationMessages() == []
    {
      outbox := outbox + ProductMessages() + ReservationMessages();
      commits := commits + 1;
      OutboxWritten();
      ClearQueues();
    }

    /** Appending a live product with a fresh event queue and an unused id keeps the unit
      * of work valid. */
    twostate lemma ProductAppendedValid(product: Product)
      requires old(Valid()) && old(product.Valid()) && old(NewRoot(product.root))
      requires forall i :: 0 <= i < |old(products)| ==> old(products[i].id) != old(product.id)
      requires products == old(products) + [product] && reservations == old(reservations)
      requires roots == old(roots) + {product.root}
      requires unchanged(old(products), reservations, product, product.root) && unchanged(old(roots))
      ensures Valid()
    {
      TrackedValidAddProduct(old(products), reservations, product);
      RootsOfAddProduct(old(products), reservations, product);
    }

    /** After the append of ProductRepository.AddAsync, the stock rows and the products'
      * outbox rows gain the new product's last, and the reservations read as before. */
    twostate lemma ProductAppendedState(product: Product)
      requires products == old(products) + [product] && reservations == old(reservations)
      requires old(roots) == RootsOf(old(products), old(reservations))
      requires unchanged(old(products), reservations, product, product.root) && unchanged(old(roots))
      ensures Stock() == old(Stock()) + [product.State()] && Rows() == old(Rows())
      ensures ProductMessages() == old(ProductMessages()) + Outbox.MessagesOf(product.root, serialize, guidText)
      ensures ReservationMessages() == old(ReservationMessages())
    {
      ProductAppended(old(products), product, serialize, guidText);
    }

    /** Appending a live reservation with a fresh event queue and an unused id keeps the
      * unit of work valid. */
    twostate lemma ReservationAppendedValid(r: ProductReservation)
      requires old(Valid()) && old(r.Valid()) && old(NewRoot(r.root))
      requires forall i :: 0 <= i < |old(reservations)| ==> old(reservations[i].id) != old(r.id)
      requires reservations == old(reservations) + [r] && products == old(products)
      requires roots == old(roots) + {r.root}
      requires unchanged(old(reservations), products, r, r.root) && unchanged(old(roots))
      ensures Valid()
    {
      TrackedValidAddReservation(products, old(reservations), r);
      RootsOfAddReservation(products, old(reservations), r);
    }

    /** After the append of ProductReservationRepository.AddAsync, the reservation rows and
      * the reservations' outbox rows gain the new reservation's last, and the products read
      * as before. */
    twostate lemma ReservationAppendedState(r: ProductReservation)
      requires reservations == old(reservations) + [r] && products == old(products)
      requires old(roots) == RootsOf(old(products), old(reservations))
      requires unchanged(old(reservations), products, r, r.root) && unchanged(old(roots))
      ensures Rows() == old(Rows()) + [r.State()] && Stock() == old(Stock())
      ensures ReservationMessages() == old(ReservationMessages()) + Outbox.MessagesOf(r.root, serialize, guidText)
      ensures ProductMessages() == old(ProductMessages())
    {
      ReservationAppended(old(reservations), r, serialize, guidText);
    }

    /** Changing only the reservation at `at.0`, the product at `at.1` and their event
      * queues, leaving both live with their ids, keeps the unit of work valid; those
      * two rows read as the objects now do and every other row as before. (The two
      * positions travel as one pair.) */
    twostate lemma PairUpdated(at: (int, int))
      requires old(Valid()) && unchanged(this) && 0 <= at.0 < |reservations| && 0 <= at.1 < |products|
      requires reservations[at.0].Valid() && products[at.1].Valid()
      requires reservations[at.0].id == old(reservations[at.0].id) && products[at.1].id == old(products[at.1].id)
      requires forall i :: 0 <= i < |reservations| && i != at.0 ==> unchanged(reservations[i], reservations[i].root)
      requires forall i :: 0 <= i < |products| && i != at.1 ==> unchanged(products[i], products[i].root)
      ensures Valid()
      ensures Rows() == old(Rows())[at.0 := reservations[at.0].State()]
      ensures Stock() == old(Stock())[at.1 := products[at.1].State()]
    {
      RowsAt(this, at.0, old(Rows()));
      StockAt(this, at.1, old(Stock()));
    }

    /** Writing the outbox rows and counting the save touch neither the aggregates nor
      * the lists that track them. */
    twostate lemma OutboxWritten()
      requires old(Valid())
      requires unchanged(this`products, this`reservations, this`roots) && unchanged(products, reservations, roots)
      ensures Valid() && Rows() == old(Rows()) && Stock() == old(Stock())
      ensures ProductMessages() == old(ProductMessages()) && ReservationMessages() == old(ReservationMessages())
    {
    }

    /** Emptying every tracked queue keeps the unit of work valid and its rows as they were. */
    twostate lemma QueuesClearedValid(queues: seq<AggregateRoot>)
      requires old(Valid()) && unchanged(this) && unchanged(products, reservations)
      requires queues == RootSeqOf(products, reservations)
      requires forall a :: a in queues ==> a.distributedEvents == [] && a.Valid() && a.version == old(a.version)
      ensures Valid()
      ensures forall a :: a in roots ==> a.distributedEvents == [] && a.version == old(a.version)
      ensures Rows() == old(Rows()) && Stock() == old(Stock())
    {
      forall i | 0 <= i < |products| ensures products[i].Valid() {
        assert products[i].root == queues[i];
      }
      forall j | 0 <= j < |reservations| ensures reservations[j].Valid() {
        assert reservations[j].root == queues[|products| + j];
      }
    }
  }

  /** Once every tracked queue is empty there are no rows left to write. */
  lemma QueuesClearedMessages(s: ProductUnitOfWork, queues: seq<AggregateRoot>)
    requires queues == RootSeqOf(s.products, s.reservations)
    requires forall a :: a in queues ==> a.distributedEvents == []
    ensures s.ProductMessages() == [] && s.ReservationMessages() == []
  {
    forall i | 0 <= i < |s.products| ensures s.products[i].root.distributedEvents == [] {
      assert s.products[i].root == queues[i];
    }
    forall j | 0 <= j < |s.reservations| ensures s.reservations[j].root.distributedEvents == [] {
      assert s.reservations[j].root == queues[|s.products| + j];
    }
    NoProductMessages(s.products, s.serialize, s.guidText);
    NoReservationMessages(s.reservations, s.serialize, s.guidText);
  }

  /** The rows a commit writes are those GetOutboxMessages builds over every tracked
    * aggregate, products first: one per queued event. An aggregate with queued events
    * has changed (Apply advanced its Version), so these are the events of the changed
    * entries a save scans. */
  lemma PendingIsAll(s: ProductUnitOfWork)
    ensures s.ProductMessages() + s.ReservationMessages()
      == Outbox.GetOutboxMessages(RootSeqOf(s.products, s.reservations), s.serialize, s.guidText)
  {
    ProductMessagesAreOutbox(s.products, s.serialize, s.guidText);
    ReservationMessagesAreOutbox(s.reservations, s.serialize, s.guidText);
    assert RootSeqOf(s.products, s.reservations) == RootSeqOf(s.products, []) + RootSeqOf([], s.reservations);
    Outbox.GetOutboxMessagesConcat(RootSeqOf(s.products, []), RootSeqOf([], s.reservations), s.serialize, s.guidText);
  }

  /** The products' rows are those GetOutboxMessages builds over their queues. */
  lemma {:induction false} ProductMessagesAreOutbox(ps: seq<Product>, serialize: DomainEvent -> string, guidText: Guid -> string)
    ensures ProductMessagesOf(ps, serialize, guidText) == Outbox.GetOutboxMessages(RootSeqOf(ps, []), serialize, guidText)
  {
    if ps != [] {
      var n := |ps| - 1;
      ProductMessagesAreOutbox(ps[..n], serialize, guidText);
      assert RootSeqOf(ps, []) == RootSeqOf(ps[..n], []) + [ps[n].root];
      Outbox.GetOutboxMessagesAppend(RootSeqOf(ps[..n], []), ps[n].root, serialize, guidText);
    }
  }

  /** The reservations' rows are those GetOutboxMessages builds over their queues. */
  lemma {:induction false} ReservationMessagesAreOutbox(rs: seq<ProductReservation>, serialize: DomainEvent -> string,
                                                        guidText: Guid -> string)
    ensures ReservationMessagesOf(rs, serialize, guidText) == Outbox.GetOutboxMessages(RootSeqOf([], rs), serialize, guidText)
  {
    if rs != [] {
      var n := |rs| - 1;
      ReservationMessagesAreOutbox(rs[..n], serialize, guidText);
      assert RootSeqOf([], rs) == RootSeqOf([], rs[..n]) + [rs[n].root];
      Outbox.GetOutboxMessagesAppend(RootSeqOf([], rs[..n]), rs[n].root, serialize, guidText);
    }
  }

  /** The rows of a unit of work whose reservations read as `rows0` except at `k`. */
  lemma RowsAt(s: ProductUnitOfWork, k: nat, rows0: seq<ReservationState>)
    requires k < |s.reservations| && |rows0| == |s.reservations|
    requires forall i :: 0 <= i < |s.reservations| && i != k ==> s.reservations[i].State() == rows0[i]
    ensures s.Rows() == rows0[k := s.reservations[k].State()]
  {
  }

  /** The stock rows of a unit of work whose products read as `prods0` except at `p`. */
  lemma StockAt(s: ProductUnitOfWork, p: nat, prods0: seq<ProductState>)
    requires p < |s.products| && |prods0| == |s.products|
    requires forall i :: 0 <= i < |s.products| && i != p ==> s.products[i].State() == prods0[i]
    ensures s.Stock() == prods0[p := s.products[p].State()]
  {
  }
}
