/**
 Safety of the payment protocol over every run: orders and reservations move in lockstep, an order leaves
 PENDING_PAYMENT at most once, and no captured payment is lost.
 */
module PaymentProofs {
  import opened Wrappers
  import opened Stock
  import opened StockProofs
  import opened StockRuns
  import opened StockRunProofs
  import opened Payments
  import Orders = OrderLifecycle

  // ----- one order's reservations all move together -----

  ghost predicate AllMoved(before: seq<Reservation>, order: OrderId, status: ReservationStatus,
                           after: seq<Reservation>) {
    && |after| == |before|
    && forall id: nat :: id < |before| ==>
                           after[id] == if before[id].orderId == order then before[id].(status := status)
                           else before[id]
  }

  lemma ReadableFor(op: RowOperation, t: Tables, rows: seq<Row>)
    requires Readable(Consume, t, rows)
    ensures Readable(op, t, rows)
  {
    forall i | 0 <= i < |rows| ensures Current(t, rows[i]) && Accepts(op, rows[i].reservation.status) {
      assert Accepts(Consume, rows[i].reservation.status);
    }
  }

  lemma OrderMoves(op: RowOperation, t: Tables, order: OrderId, rows: seq<Row>)
    requires Consistent(t) && Enumerates(Consume, t, order, rows) && ApplyAll(op, t, rows).Ok?
    requires forall r :: r in t.reservations && r.orderId == order ==> r.status == Active
    ensures AllMoved(t.reservations, order, Target(op), ApplyAll(op, t, rows).value.reservations)
  {
    ReadableFor(op, t, rows);
    ApplyAllMarks(op, t, rows);
    forall id: nat | id < |t.reservations| ensures Lists(rows, id) <==> t.reservations[id].orderId == order {
      assert t.reservations[id] in t.reservations;
      if i :| 0 <= i < |rows| && rows[i].id == id { assert Current(t, rows[i]); }
      if t.reservations[id].orderId == order { assert Accepts(Consume, t.reservations[id].status); }
    }
  }

  /** An order that still waits for payment has reservations to work on. */
  lemma HasRows(db: Db, id: OrderId, rows: seq<Row>)
    requires HoldsFollowOrders(db) && id in db.orders && db.orders[id].status == Orders.PendingPayment
    requires Enumerates(Consume, db.shop.tables, id, rows)
    ensures rows != []
  {
    var r :| r in db.shop.tables.reservations && r.orderId == id;
    var k :| 0 <= k < |db.shop.tables.reservations| && db.shop.tables.reservations[k] == r;
    assert r.status in HoldStatuses(Orders.PendingPayment);
    assert Accepts(Consume, db.shop.tables.reservations[k].status);
  }

  /** What the rows of an event can do to the order they belong to. */
  ghost predicate RowsMove(db: Db, id: OrderId, rows: seq<Row>) {
    id in db.orders && db.orders[id].status == Orders.PendingPayment ==>
      && rows != []
      && forall op :: ApplyAll(op, db.shop.tables, rows).Ok? ==>
                        AllMoved(db.shop.tables.reservations, id, Target(op),
                                 ApplyAll(op, db.shop.tables, rows).value.reservations)
  }

  lemma RowsDoMove(db: Db, id: OrderId, rows: seq<Row>)
    requires Consistent(db.shop.tables) && HoldsFollowOrders(db) && Enumerates(Consume, db.shop.tables, id, rows)
    ensures RowsMove(db, id, rows)
  {
    if id in db.orders && db.orders[id].status == Orders.PendingPayment {
      HasRows(db, id, rows);
      forall r | r in db.shop.tables.reservations && r.orderId == id ensures r.status == Active {
        assert r.status in HoldStatuses(Orders.PendingPayment);
      }
      forall op | ApplyAll(op, db.shop.tables, rows).Ok?
        ensures AllMoved(db.shop.tables.reservations, id, Target(op),
                         ApplyAll(op, db.shop.tables, rows).value.reservations)
      {
        OrderMoves(op, db.shop.tables, id, rows);
      }
    }
  }

  // ----- the ways an order leaves PENDING_PAYMENT -----

  /** One order is rewritten, the others stay. */
  ghost predicate Rewrites(db: Db, next: Db, id: OrderId) {
    && id in db.orders && next.orders.Keys == db.orders.Keys && next.paymentOrders == db.paymentOrders
    && (forall o :: o in db.orders && o != id ==> next.orders[o] == db.orders[o])
    && next.orders[id].paymentId == db.orders[id].paymentId
  }

  lemma HoldsAfter(db: Db, next: Db, id: OrderId, status: ReservationStatus)
    requires HoldsFollowOrders(db) && Rewrites(db, next, id)
    requires AllMoved(db.shop.tables.reservations, id, status, next.shop.tables.reservations)
    requires status in HoldStatuses(next.orders[id].status)
    ensures HoldsFollowOrders(next)
  {
    var before, after := db.shop.tables.reservations, next.shop.tables.reservations;
    forall r | r in after ensures r.orderId in next.orders && r.status in HoldStatuses(next.orders[r.orderId].status) {
      var k :| 0 <= k < |after| && after[k] == r;
      assert before[k] in before;
    }
    forall o | o in next.orders ensures exists r :: r in after && r.orderId == o {
      var r :| r in before && r.orderId == o;
      var k :| 0 <= k < |before| && before[k] == r;
      assert after[k] in after && after[k].orderId == o;
    }
  }

  ghost predicate KeepsReconciliations(before: map<Reference, VerificationStatus>,
                                       after: map<Reference, VerificationStatus>) {
    forall key :: key in before && before[key] == ReconciliationRequired ==>
                    key in after && after[key] == ReconciliationRequired
  }

  lemma ReconciledStays(db: Db, next: Db, p: PaymentId)
    requires KeepsReconciliations(db.verifications, next.verifications)
    ensures Reconciled(db, p) ==> Reconciled(next, p)
  {
    if Reconciled(db, p) {
      var key :| key in db.verifications && key.paymentId == p && db.verifications[key] == ReconciliationRequired;
      assert key in next.verifications;
    }
  }

  lemma OrdersAfter(db: Db, next: Db, id: OrderId)
    requires OrdersSafe(db) && Rewrites(db, next, id) && KeepsReconciliations(db.verifications, next.verifications)
    requires HoldsFollowOrders(next) && Settled(next.orders[id]) && CaptureKept(next, next.orders[id])
    ensures OrdersSafe(next)
  {
    forall o | o in next.orders ensures Settled(next.orders[o]) && CaptureKept(next, next.orders[o]) {
      ReconciledStays(db, next, next.orders[o].paymentId);
    }
  }

  /** An order leaves PENDING_PAYMENT together with its reservations. */
  lemma LeaveSafe(db: Db, next: Db, op: RowOperation, id: OrderId, rows: seq<Row>)
    requires OrdersSafe(db) && RowsMove(db, id, rows) && Rewrites(db, next, id)
             && db.orders[id].status == Orders.PendingPayment
    requires ApplyAll(op, db.shop.tables, rows) == Ok(next.shop.tables)
    requires Target(op) in HoldStatuses(next.orders[id].status)
    requires KeepsReconciliations(db.verifications, next.verifications)
    requires Settled(next.orders[id])
    requires next.orders[id].payment.status == Captured ==> next.orders[id].status == Orders.Confirmed
    ensures OrdersSafe(next)
  {
    HoldsAfter(db, next, id, Target(op));
    OrdersAfter(db, next, id);
  }

  /** An order that keeps its status: only its payment may change, if a capture leaves a record. */
  lemma StaySafe(db: Db, next: Db, id: OrderId)
    requires OrdersSafe(db) && Rewrites(db, next, id) && next.shop.tables.reservations == db.shop.tables.reservations
    requires KeepsReconciliations(db.verifications, next.verifications)
    requires next.orders[id] == db.orders[id].(payment := next.orders[id].payment)
    requires next.orders[id].payment == db.orders[id].payment
             || (db.orders[id].status == Orders.Cancelled && CaptureKept(next, next.orders[id]))
    ensures OrdersSafe(next)
  {
    assert HoldsFollowOrders(next);
    assert Settled(db.orders[id]) && CaptureKept(db, db.orders[id]);
    ReconciledStays(db, next, db.orders[id].paymentId);
    OrdersAfter(db, next, id);
  }

  // ----- the transactions -----

  /** A webhook that is not a replay and finds a payment that is not captured. */
  predicate Fresh(db: Db, e: WebhookEvent, rows: seq<Row>) {
    Process(db, e, rows).Ok? && e.id !in db.webhooks
    && db.orders[db.paymentOrders[e.paymentId]].payment.status != Captured
  }

  lemma CaptureSafe(db: Db, e: WebhookEvent, rows: seq<Row>)
    requires OrdersSafe(db) && Fresh(db, e, rows) && RowsMove(db, db.paymentOrders[e.paymentId], rows)
    requires e.status == EventCaptured && db.orders[db.paymentOrders[e.paymentId]].status == Orders.PendingPayment
    ensures OrdersSafe(Process(db, e, rows).value)
  {
    assert Settled(db.orders[db.paymentOrders[e.paymentId]]);
    LeaveSafe(db, Process(db, e, rows).value, Consume, db.paymentOrders[e.paymentId], rows);
  }

  lemma FailureSafe(db: Db, e: WebhookEvent, rows: seq<Row>)
    requires OrdersSafe(db) && Fresh(db, e, rows) && RowsMove(db, db.paymentOrders[e.paymentId], rows)
    requires e.status != EventCaptured && db.orders[db.paymentOrders[e.paymentId]].status == Orders.PendingPayment
    ensures OrdersSafe(Process(db, e, rows).value)
  {
    LeaveSafe(db, Process(db, e, rows).value, GiveBack, db.paymentOrders[e.paymentId], rows);
  }

  /** A provider event that arrives after the order was cancelled. */
  lemma LateSafe(db: Db, e: WebhookEvent, rows: seq<Row>)
    requires OrdersSafe(db) && Fresh(db, e, rows)
    requires db.orders[db.paymentOrders[e.paymentId]].status != Orders.PendingPayment
    ensures OrdersSafe(Process(db, e, rows).value)
  {
    var next := Process(db, e, rows).value;
    var id := db.paymentOrders[e.paymentId];
    assert Settled(db.orders[id]);
    if e.status == EventCaptured {
      assert Reference(e.paymentId, CaptureReference("late-capture", e)) in next.verifications;
      assert Reconciled(next, e.paymentId);
    }
    StaySafe(db, next, id);
  }

  lemma ProcessSafe(db: Db, e: WebhookEvent, rows: seq<Row>)
    requires OrdersSafe(db) && Process(db, e, rows).Ok?
    requires Finds(db, e.paymentId) ==> RowsMove(db, db.paymentOrders[e.paymentId], rows)
    ensures OrdersSafe(Process(db, e, rows).value)
  {
    if e.id !in db.webhooks {
      var id := db.paymentOrders[e.paymentId];
      if db.orders[id].payment.status == Captured {
        StaySafe(db, Process(db, e, rows).value, id);
      } else if db.orders[id].status != Orders.PendingPayment {
        LateSafe(db, e, rows);
      } else if e.status == EventCaptured {
        CaptureSafe(db, e, rows);
      } else {
        FailureSafe(db, e, rows);
      }
    }
  }

  lemma ExpireSafe(db: Db, id: OrderId, rows: seq<Row>)
    requires OrdersSafe(db) && ExpireOrder(db, id, rows).Ok? && RowsMove(db, id, rows)
    ensures OrdersSafe(ExpireOrder(db, id, rows).value)
  {
    if id in db.orders && db.orders[id].status == Orders.PendingPayment && rows != [] {
      assert Settled(db.orders[id]);
      LeaveSafe(db, ExpireOrder(db, id, rows).value, Expire, id, rows);
    }
  }

  lemma ReviewSafe(db: Db, key: Reference, approve: bool, rows: seq<Row>)
    requires OrdersSafe(db) && Review(db, key, approve, rows).Ok?
    requires Finds(db, key.paymentId) ==> RowsMove(db, db.paymentOrders[key.paymentId], rows)
    ensures OrdersSafe(Review(db, key, approve, rows).value)
  {
    var next := Review(db, key, approve, rows).value;
    var id := db.paymentOrders[key.paymentId];
    assert Settled(db.orders[id]);
    if approve { LeaveSafe(db, next, Consume, id, rows); } else { StaySafe(db, next, id); }
  }
}
