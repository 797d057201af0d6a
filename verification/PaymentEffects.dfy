/**
 What one decisive transaction does to the stock: from a reachable state, a capture or an approval takes exactly the
 order's held units off the shelf, a provider failure gives exactly them back, and neither touches other orders.
 */
module PaymentEffects {
  import opened Wrappers
  import opened Stock
  import opened StockProofs
  import opened StockRuns
  import opened StockRunProofs
  import opened Payments
  import opened PaymentProofs
  import opened PaymentRuns
  import Orders = OrderLifecycle

  /** The units of a variant that an order holds. */
  function HeldBy(t: Tables, id: OrderId, v: VariantId): nat {
    Quantity(t.reservations, Pick(Some(id), v, Active))
  }

  ghost predicate Waiting(db: Db, id: OrderId, rows: seq<Row>) {
    && Safe(db) && Bounded(db.shop.tables)
    && id in db.orders && db.orders[id].status == Orders.PendingPayment && Enumerates(Consume, db.shop.tables, id, rows)
  }

  /** The held units have left the shelf. */
  ghost predicate Sold(t: Tables, id: OrderId, t1: Tables) {
    t1.inventory.Keys == t.inventory.Keys && forall v :: v in t.inventory ==>
                                                           && t1.inventory[v].onHand
                                                              == t.inventory[v].onHand - HeldBy(t, id, v)
                                                           && t1.inventory[v].reserved
                                                              == t.inventory[v].reserved - HeldBy(t, id, v)
  }

  /** The held units are available again. */
  ghost predicate Freed(t: Tables, id: OrderId, t1: Tables) {
    t1.inventory.Keys == t.inventory.Keys && forall v :: v in t.inventory ==>
                                                           && t1.inventory[v].onHand == t.inventory[v].onHand
                                                           && t1.inventory[v].reserved
                                                              == t.inventory[v].reserved - HeldBy(t, id, v)
  }

  lemma RowsAreHeld(t: Tables, id: OrderId, rows: seq<Row>, v: VariantId)
    requires Enumerates(Consume, t, id, rows)
    ensures RowsQuantity(rows, Pick(None, v, Active)) == HeldBy(t, id, v)
            && RowsQuantity(rows, Pick(None, v, Consumed)) == 0
  {
    EnumerationQuantity(Consume, t, id, rows, Pick(Some(id), v, Active));
    OrderRows(rows, id, v, Active);
    OnlyActive(t, rows, v);
  }

  lemma HoldSucceeds(op: RowOperation, db: Db, id: OrderId, rows: seq<Row>)
    requires Waiting(db, id, rows)
    ensures rows != [] && ApplyAll(op, db.shop.tables, rows).Ok?
  {
    HasRows(db, id, rows);
    ReadableFor(op, db.shop.tables, rows);
    NoRefusal(op, db.shop.tables, rows);
  }

  lemma ItemSettles(op: RowOperation, t: Tables, id: OrderId, rows: seq<Row>, v: VariantId)
    requires Consistent(t) && Enumerates(Consume, t, id, rows) && ApplyAll(op, t, rows).Ok? && v in t.inventory
    ensures v in ApplyAll(op, t, rows).value.inventory
    ensures var item := ApplyAll(op, t, rows).value.inventory[v];
            && item.onHand
               == (if op == Consume then t.inventory[v].onHand - HeldBy(t, id, v) else t.inventory[v].onHand)
            && item.reserved == t.inventory[v].reserved - HeldBy(t, id, v)
  {
    ReadableFor(op, t, rows);
    ApplyAllStock(op, t, rows, v);
    RowsAreHeld(t, id, rows, v);
  }

  /** What the row operations do to the stock of a pending order. */
  lemma HoldSettles(op: RowOperation, t: Tables, id: OrderId, rows: seq<Row>)
    requires Consistent(t) && Enumerates(Consume, t, id, rows) && ApplyAll(op, t, rows).Ok?
    ensures if op == Consume then Sold(t, id, ApplyAll(op, t, rows).value)
            else Freed(t, id, ApplyAll(op, t, rows).value)
  {
    ReadableFor(op, t, rows);
    ApplyAllKeeps(op, t, rows);
    forall v | v in t.inventory
      ensures ApplyAll(op, t, rows).value.inventory[v].onHand
           == (if op == Consume then t.inventory[v].onHand - HeldBy(t, id, v) else t.inventory[v].onHand)
      ensures ApplyAll(op, t, rows).value.inventory[v].reserved == t.inventory[v].reserved - HeldBy(t, id, v)
    {
      ItemSettles(op, t, id, rows, v);
    }
  }

  /** The event is new and fits the payment. */
  ghost predicate Acceptable(db: Db, e: WebhookEvent, id: OrderId) {
    && Finds(db, e.paymentId) && db.paymentOrders[e.paymentId] == id && e.id !in db.webhooks
    && e.amountMinor == db.orders[id].payment.amountMinor
    && (e.transactionId.Some? ==> !TransactionTaken(db.orders, id, e.transactionId.value))
  }

  ghost predicate OthersStay(db: Db, next: Db, id: OrderId) {
    next.orders.Keys == db.orders.Keys && forall o :: o in db.orders && o != id ==> next.orders[o] == db.orders[o]
  }

  /** The order as the event leaves it. */
  ghost predicate Ends(db: Db, next: Db, id: OrderId, status: Orders.ParentOrderStatus, payment: PaymentStatus) {
    && id in next.orders && next.orders[id].status == status && next.orders[id].payment.status == payment
    && OthersStay(db, next, id)
    && (status == Orders.Cancelled ==> AllPackages(next.orders[id], Orders.PackageCancelled))
  }

  /**
   The database's part of an accepted event: the tables are those of the row operation, and only this order changes.
   */
  lemma EventEnds(db: Db, e: WebhookEvent, id: OrderId, rows: seq<Row>, op: RowOperation)
    requires id in db.orders && db.orders[id].status == Orders.PendingPayment
             && db.orders[id].payment.status != Captured && rows != []
    requires Acceptable(db, e, id) && op == (if e.status == EventCaptured then Consume else GiveBack)
             && ApplyAll(op, db.shop.tables, rows).Ok?
    ensures var r := Process(db, e, rows);
            && r.Ok? && r.value.shop.tables == ApplyAll(op, db.shop.tables, rows).value
            && r.value.verifications == db.verifications && r.value.webhooks == db.webhooks + {e.id}
            && Ends(db, r.value, id, if e.status == EventCaptured then Orders.Confirmed
                    else Orders.Cancelled, NewStatus(e.status))
  {
  }

  /** A provider's capture sells exactly what the order holds and confirms the order. */
  lemma CaptureSells(db: Db, e: WebhookEvent, id: OrderId, rows: seq<Row>)
    requires Waiting(db, id, rows) && Acceptable(db, e, id) && e.status == EventCaptured
    ensures var r := Process(db, e, rows);
            && r.Ok? && Sold(db.shop.tables, id, r.value.shop.tables)
            && Ends(db, r.value, id, Orders.Confirmed, Captured)
            && r.value.verifications == db.verifications && r.value.webhooks == db.webhooks + {e.id}
  {
    assert Settled(db.orders[id]);
    HoldSucceeds(Consume, db, id, rows);
    HoldSettles(Consume, db.shop.tables, id, rows);
    EventEnds(db, e, id, rows, Consume);
  }

  /** A provider's failure or cancellation frees exactly what the order holds and cancels the order and its packages. */
  lemma FailureFrees(db: Db, e: WebhookEvent, id: OrderId, rows: seq<Row>)
    requires Waiting(db, id, rows) && Acceptable(db, e, id) && e.status != EventCaptured
    ensures var r := Process(db, e, rows);
            && r.Ok? && Freed(db.shop.tables, id, r.value.shop.tables)
            && Ends(db, r.value, id, Orders.Cancelled, if e.status == EventFailed then Failed else Voided)
            && r.value.verifications == db.verifications && r.value.webhooks == db.webhooks + {e.id}
  {
    assert Settled(db.orders[id]);
    HoldSucceeds(GiveBack, db, id, rows);
    HoldSettles(GiveBack, db.shop.tables, id, rows);
    EventEnds(db, e, id, rows, GiveBack);
  }

  lemma ApprovalEnds(db: Db, key: Reference, rows: seq<Row>)
    requires Finds(db, key.paymentId) && key in db.verifications && db.verifications[key] == Pending
    requires db.orders[db.paymentOrders[key.paymentId]].status == Orders.PendingPayment
    requires rows != [] && ApplyAll(Consume, db.shop.tables, rows).Ok?
    ensures var r := Review(db, key, true, rows);
            && r.Ok? && r.value.shop.tables == ApplyAll(Consume, db.shop.tables, rows).value
            && r.value.verifications == db.verifications[key := Approved] && r.value.webhooks == db.webhooks
            && Ends(db, r.value, db.paymentOrders[key.paymentId], Orders.Confirmed, Captured)
  {
  }

  /**
   A review of a pending record: rejecting changes the record alone; approving succeeds exactly while the order waits
   for its payment, and then sells what the order holds, as a capture would.
   */
  lemma ReviewDecides(db: Db, key: Reference, approve: bool, rows: seq<Row>)
    requires Safe(db) && Bounded(db.shop.tables) && Allowed(db, Decide(key, approve, rows))
    requires Finds(db, key.paymentId) && key in db.verifications && db.verifications[key] == Pending
    ensures var r := Review(db, key, approve, rows);
            var id := db.paymentOrders[key.paymentId];
            && (!approve ==> r == Ok(db.(verifications := db.verifications[key := Rejected])))
            && (approve ==> (r.Ok? <==> db.orders[id].status == Orders.PendingPayment))
            && (approve && r.Ok? ==>
                  && Sold(db.shop.tables, id, r.value.shop.tables) && Ends(db, r.value, id, Orders.Confirmed, Captured)
                  && r.value.verifications == db.verifications[key := Approved] && r.value.webhooks == db.webhooks)
  {
    var id := db.paymentOrders[key.paymentId];
    if approve && db.orders[id].status == Orders.PendingPayment {
      HoldSucceeds(Consume, db, id, rows);
      HoldSettles(Consume, db.shop.tables, id, rows);
      ApprovalEnds(db, key, rows);
    }
  }

  // ----- end to end -----

  /**
   From an empty shop, after any run without a vendor's write: a capture that fits a pending order's payment succeeds,
   sells exactly what the order holds, and confirms it.
   */
  lemma CaptureSucceeds(db: Db, es: seq<Payments.Event>, e: WebhookEvent, id: OrderId, rows: seq<Row>)
    requires Empty(db) && AllowedRun(db, es) && NoVendorSteps(db, es)
    requires var end := RunAll(db, es);
             && Acceptable(end, e, id) && e.status == EventCaptured && end.orders[id].status == Orders.PendingPayment
             && Allowed(end, Webhook(e, rows))
    ensures var end := RunAll(db, es);
            var r := Process(end, e, rows);
            && r.Ok? && Step(end, Webhook(e, rows)) == r.value
            && Sold(end.shop.tables, id, r.value.shop.tables) && Ends(end, r.value, id, Orders.Confirmed, Captured)
  {
    RunBounded(db, es);
    CaptureSells(RunAll(db, es), e, id, rows);
  }
}
