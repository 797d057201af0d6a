/**
 Exactly when each transaction of the payment protocol is refused, and all that an accepted one writes.
 */
module PaymentOutcomes {
  import opened Wrappers
  import opened Stock
  import opened StockProofs
  import opened StockRuns
  import opened StockRunProofs
  import opened StockWrites
  import opened Payments
  import opened PaymentProofs
  import opened PaymentRuns
  import opened PaymentEffects
  import Orders = OrderLifecycle

  // ----- provider events -----

  /** Whatever the state: a new event whose amount is not the payment's is refused and changes nothing. */
  lemma WrongAmountRefused(db: Db, e: WebhookEvent, rows: seq<Row>)
    requires Finds(db, e.paymentId) && e.id !in db.webhooks
    requires e.amountMinor != db.orders[db.paymentOrders[e.paymentId]].payment.amountMinor
    ensures Process(db, e, rows) == Fail(AmountMismatch) && Step(db, Webhook(e, rows)) == db
  {
  }

  /** The event cannot be recorded: its transaction is another order's, or its late capture has a record already. */
  ghost predicate Clashes(db: Db, e: WebhookEvent)
    requires Finds(db, e.paymentId)
  {
    var id := db.paymentOrders[e.paymentId];
    || (e.transactionId.Some?
        && exists o :: o in db.orders && o != id && db.orders[o].payment.transactionId == e.transactionId)
    || (e.status == EventCaptured && db.orders[id].status == Orders.Cancelled
        && Reference(e.paymentId, CaptureReference("late-capture", e)) in db.verifications)
  }

  /** A new event that fits the payment, whose row operations succeed if it needs any. */
  lemma UncapturedAccepted(db: Db, e: WebhookEvent, id: OrderId, rows: seq<Row>)
    requires Finds(db, e.paymentId) && db.paymentOrders[e.paymentId] == id && e.id !in db.webhooks
    requires e.amountMinor == db.orders[id].payment.amountMinor && db.orders[id].payment.status != Captured
    requires db.orders[id].status == Orders.PendingPayment ==>
               rows != [] && ApplyAll(if e.status == EventCaptured then Consume else GiveBack, db.shop.tables, rows).Ok?
    ensures Process(db, e, rows).Ok? <==> !Clashes(db, e)
  {
    assert e.transactionId.Some? ==>
        (TransactionTaken(db.orders, id, e.transactionId.value)
         <==> exists o :: o in db.orders && o != id && db.orders[o].payment.transactionId == e.transactionId);
  }

  /**
   From a reachable state with the bound, an event is accepted exactly when it was seen before, or its payment exists,
   the amount is right, and the payment is captured already or the event does not clash. A refused one changes nothing.
   */
  lemma WebhookAcceptedExactly(db: Db, e: WebhookEvent, rows: seq<Row>)
    requires Safe(db) && Bounded(db.shop.tables) && Allowed(db, Webhook(e, rows))
    ensures Process(db, e, rows).Ok? <==>
            || e.id in db.webhooks
            || (&& e.paymentId in db.paymentOrders
                && var payment := db.orders[db.paymentOrders[e.paymentId]].payment;
                e.amountMinor == payment.amountMinor && (payment.status == Captured || !Clashes(db, e)))
    ensures Process(db, e, rows).Fail? ==> Step(db, Webhook(e, rows)) == db
  {
    if e.id !in db.webhooks && Finds(db, e.paymentId) {
      var id := db.paymentOrders[e.paymentId];
      if e.amountMinor == db.orders[id].payment.amountMinor && db.orders[id].payment.status != Captured {
        if db.orders[id].status == Orders.PendingPayment {
          HoldSucceeds(if e.status == EventCaptured then Consume else GiveBack, db, id, rows);
        }
        UncapturedAccepted(db, e, id, rows);
      }
    }
  }

  /** The payment row after an event: its status, and its transaction if it names one. */
  ghost predicate Paid(before: Payment, e: WebhookEvent, after: Payment) {
    && after.status
       == (match e.status case EventCaptured => Captured case EventFailed => Failed case EventCancelled => Voided)
    && after.amountMinor == before.amountMinor && after.version == before.version + 1
    && (e.transactionId.Some? ==> after.transactionId == e.transactionId)
    && (e.transactionId.None? ==> after.transactionId == before.transactionId)
  }

  /** Everything but one order, the stock and the given columns is as before. */
  ghost predicate Elsewhere(db: Db, next: Db, id: OrderId) {
    OthersStay(db, next, id) && id in next.orders && next.paymentOrders == db.paymentOrders
    && next.shop.edits == db.shop.edits
  }

  /**
   An order that leaves PENDING_PAYMENT: its new status and packages, one version later, under the same payment id.
   */
  ghost predicate Decided(before: Order, after: Order, status: Orders.ParentOrderStatus) {
    && after.status == status && after.version == before.version + 1 && after.paymentId == before.paymentId
    && |after.packages| == |before.packages|
    && (status == Orders.Confirmed ==> after.packages == before.packages)
    && (status == Orders.Cancelled ==> AllPackages(after, Orders.PackageCancelled))
  }

  /** An accepted new event for a payment that is captured only marks the event as seen. */
  lemma CapturedStays(db: Db, e: WebhookEvent, rows: seq<Row>)
    requires Finds(db, e.paymentId) && db.orders[db.paymentOrders[e.paymentId]].payment.status == Captured
    requires e.id !in db.webhooks && Process(db, e, rows).Ok?
    ensures Process(db, e, rows).value == db.(webhooks := db.webhooks + {e.id})
  {
  }

  lemma PendingWrites(db: Db, e: WebhookEvent, id: OrderId, rows: seq<Row>, op: RowOperation)
    requires id in db.orders && db.orders[id].status == Orders.PendingPayment
             && db.orders[id].payment.status != Captured && rows != []
    requires Acceptable(db, e, id) && op == (if e.status == EventCaptured then Consume else GiveBack)
             && ApplyAll(op, db.shop.tables, rows).Ok?
    ensures var r := Process(db, e, rows);
            && r.Ok? && Elsewhere(db, r.value, id)
            && Paid(db.orders[id].payment, e, r.value.orders[id].payment)
            && Decided(db.orders[id], r.value.orders[id], if e.status == EventCaptured then Orders.Confirmed
                       else Orders.Cancelled)
  {
  }

  /** All that an accepted new event writes for a pending order. */
  lemma PendingDecided(db: Db, e: WebhookEvent, id: OrderId, rows: seq<Row>)
    requires Waiting(db, id, rows) && Acceptable(db, e, id)
    ensures var r := Process(db, e, rows);
            && r.Ok? && Elsewhere(db, r.value, id)
            && r.value.webhooks == db.webhooks + {e.id} && r.value.verifications == db.verifications
            && Paid(db.orders[id].payment, e, r.value.orders[id].payment)
            && Decided(db.orders[id], r.value.orders[id], if e.status == EventCaptured then Orders.Confirmed
                       else Orders.Cancelled)
            && (if e.status == EventCaptured then Sold(db.shop.tables, id, r.value.shop.tables)
                else Freed(db.shop.tables, id, r.value.shop.tables))
  {
    var op := if e.status == EventCaptured then Consume else GiveBack;
    assert Settled(db.orders[id]);
    HoldSucceeds(op, db, id, rows);
    PendingWrites(db, e, id, rows, op);
    if e.status == EventCaptured { CaptureSells(db, e, id, rows); } else { FailureFrees(db, e, id, rows); }
  }

  /** All that an accepted new event writes for a cancelled order whose payment is not captured. */
  lemma CancelledRecorded(db: Db, e: WebhookEvent, rows: seq<Row>)
    requires Finds(db, e.paymentId) && e.id !in db.webhooks && Process(db, e, rows).Ok?
    requires var order := db.orders[db.paymentOrders[e.paymentId]];
             order.status == Orders.Cancelled && order.payment.status != Captured
    ensures var id, next := db.paymentOrders[e.paymentId], Process(db, e, rows).value;
            && Elsewhere(db, next, id) && next.shop == db.shop && next.webhooks == db.webhooks + {e.id}
            && Paid(db.orders[id].payment, e, next.orders[id].payment)
            && next.orders[id] == db.orders[id].(payment := next.orders[id].payment)
            && (e.status != EventCaptured ==> next.verifications == db.verifications)
            && (e.status == EventCaptured && e.transactionId.Some? ==>
                  var key := Reference(e.paymentId, e.transactionId.value);
                  key !in db.verifications && next.verifications == db.verifications[key := ReconciliationRequired])
            && (e.status == EventCaptured && e.transactionId.None? ==>
                  var key := Reference(e.paymentId, "late-capture" + ":" + e.id.provider + ":" + e.id.eventId);
                  key !in db.verifications && next.verifications == db.verifications[key := ReconciliationRequired])
  {
  }

  /**
   A capture for a pending order that holds nothing, which no run reaches, leaves the order pending and adds a
   reconciliation record under the event's transaction; it is refused exactly when the reference is taken.
   */
  lemma MissingHoldRecorded(db: Db, e: WebhookEvent, id: OrderId)
    requires Acceptable(db, e, id) && e.status == EventCaptured
    requires db.orders[id].status == Orders.PendingPayment && db.orders[id].payment.status != Captured
    ensures var r := Process(db, e, []);
            var text := if e.transactionId.Some? then e.transactionId.value
                        else "capture" + ":" + e.id.provider + ":" + e.id.eventId;
            && (r.Ok? <==> Reference(e.paymentId, text) !in db.verifications)
            && (r.Ok? ==>
                  && Elsewhere(db, r.value, id) && r.value.shop == db.shop && r.value.webhooks == db.webhooks + {e.id}
                  && Paid(db.orders[id].payment, e, r.value.orders[id].payment)
                  && r.value.orders[id] == db.orders[id].(payment := r.value.orders[id].payment)
                  && r.value.verifications
                     == db.verifications[Reference(e.paymentId, text) := ReconciliationRequired])
  {
  }

  // ----- transactions are unique -----

  /** No two orders carry the same provider transaction. */
  ghost predicate TransactionsUnique(db: Db) {
    forall o, p :: o in db.orders && p in db.orders && o != p && db.orders[o].payment.transactionId.Some? ==>
                     db.orders[o].payment.transactionId != db.orders[p].payment.transactionId
  }

  /**
   An accepted event leaves the orders as they are, or updates one payment to a transaction no other order carries.
   */
  ghost predicate UpdatesOne(db: Db, next: Db, e: WebhookEvent, id: OrderId) {
    && id in db.orders && OthersStay(db, next, id)
    && next.orders[id].payment.transactionId
       == (if e.transactionId.Some? then e.transactionId else db.orders[id].payment.transactionId)
    && (e.transactionId.Some? ==> !TransactionTaken(db.orders, id, e.transactionId.value))
  }

  lemma ProcessUpdatesOne(db: Db, e: WebhookEvent, rows: seq<Row>)
    requires Process(db, e, rows).Ok?
    ensures var next := Process(db, e, rows).value;
            next.orders == db.orders
            || (Finds(db, e.paymentId) && UpdatesOne(db, next, e, db.paymentOrders[e.paymentId]))
  {
  }

  lemma UpdateKeepsUnique(db: Db, next: Db, e: WebhookEvent, id: OrderId)
    requires TransactionsUnique(db) && UpdatesOne(db, next, e, id)
    ensures TransactionsUnique(next)
  {
    forall o, p | o in next.orders && p in next.orders && o != p && next.orders[o].payment.transactionId.Some?
      ensures next.orders[o].payment.transactionId != next.orders[p].payment.transactionId
    {
      assert o != id ==> next.orders[o] == db.orders[o];
      assert p != id ==> next.orders[p] == db.orders[p];
    }
  }

  lemma StepKeepsUnique(db: Db, e: Payments.Event)
    requires TransactionsUnique(db)
    ensures TransactionsUnique(Step(db, e))
  {
    if e.Webhook? && Attempt(db, e).Ok? {
      ProcessUpdatesOne(db, e.event, e.rows);
      if Step(db, e).orders != db.orders {
        UpdateKeepsUnique(db, Step(db, e), e.event, db.paymentOrders[e.event.paymentId]);
      }
    }
  }

  lemma {:induction false} RunKeepsUnique(db: Db, es: seq<Payments.Event>)
    requires TransactionsUnique(db)
    ensures TransactionsUnique(RunAll(db, es))
    decreases |es|
  {
    if es != [] {
      StepKeepsUnique(db, es[0]);
      RunKeepsUnique(Step(db, es[0]), es[1..]);
    }
  }

  /** From an empty shop, no run gives two orders the same provider transaction. */
  lemma NoSharedTransaction(db: Db, es: seq<Payments.Event>, o: OrderId, p: OrderId)
    requires Empty(db)
    ensures var end := RunAll(db, es);
            o in end.orders && p in end.orders && o != p && end.orders[o].payment.transactionId.Some? ==>
              end.orders[o].payment.transactionId != end.orders[p].payment.transactionId
  {
    RunKeepsUnique(db, es);
  }

  // ----- the payment window -----

  /** All that closing the window writes for a pending order. */
  ghost predicate WindowWrites(db: Db, next: Db, id: OrderId)
    requires id in db.orders
  {
    && Elsewhere(db, next, id) && next.webhooks == db.webhooks && next.verifications == db.verifications
    && Decided(db.orders[id], next.orders[id], Orders.Cancelled)
    && var before := db.orders[id].payment;
    next.orders[id].payment == before.(status := TimedOut, version := before.version + 1)
  }

  lemma WindowEnds(db: Db, id: OrderId, rows: seq<Row>)
    requires id in db.orders && db.orders[id].status == Orders.PendingPayment && rows != []
    requires Settled(db.orders[id]) && ApplyAll(Expire, db.shop.tables, rows).Ok?
    ensures var r := ExpireOrder(db, id, rows);
            r.Ok? && r.value.shop.tables == ApplyAll(Expire, db.shop.tables, rows).value
            && WindowWrites(db, r.value, id)
  {
  }

  /**
   Closing the window leaves everything alone unless the order is pending; then it always succeeds and frees the hold.
   */
  lemma WindowExactly(db: Db, id: OrderId, rows: seq<Row>)
    requires Safe(db) && Bounded(db.shop.tables) && Allowed(db, WindowCloses(id, rows))
    ensures var r := ExpireOrder(db, id, rows);
            && (id !in db.orders || db.orders[id].status != Orders.PendingPayment ==> r == Ok(db))
            && (id in db.orders && db.orders[id].status == Orders.PendingPayment ==>
                  r.Ok? && WindowWrites(db, r.value, id) && Freed(db.shop.tables, id, r.value.shop.tables))
  {
    if id in db.orders && db.orders[id].status == Orders.PendingPayment {
      assert Settled(db.orders[id]);
      HoldSucceeds(Expire, db, id, rows);
      HoldSettles(Expire, db.shop.tables, id, rows);
      WindowEnds(db, id, rows);
    }
  }

  /**
   In any state, a window that closes on a pending order leaves delivered and cancelled packages as they are and cancels
   the others, and times out exactly a payment that was still open.
   */
  lemma WindowSpares(db: Db, id: OrderId, rows: seq<Row>, i: nat)
    requires id in db.orders && db.orders[id].status == Orders.PendingPayment && rows != []
    requires ExpireOrder(db, id, rows).Ok?
    ensures id in ExpireOrder(db, id, rows).value.orders
    ensures var before, after := db.orders[id], ExpireOrder(db, id, rows).value.orders[id];
            && |after.packages| == |before.packages|
            && (i < |before.packages| ==>
                  after.packages[i] == if before.packages[i] == Orders.PackageDelivered then Orders.PackageDelivered
                  else Orders.PackageCancelled)
            && (before.payment.status in {Initiated, RequiresAction, Authorized} ==>
                  after.payment == before.payment.(status := TimedOut, version := before.payment.version + 1))
            && (before.payment.status !in {Initiated, RequiresAction, Authorized} ==> after.payment == before.payment)
  {
    var s := db.orders[id].payment.status;
    assert s.Initiated? || s.RequiresAction? || s.Authorized? || Finished(s);
  }

  // ----- review -----

  /**
   From a reachable state with the bound, a review is accepted exactly when its record exists and is still pending, and,
   to approve, the order still waits for its payment. A refused one changes nothing.
   */
  lemma ReviewAcceptedExactly(db: Db, key: Reference, approve: bool, rows: seq<Row>)
    requires Safe(db) && Bounded(db.shop.tables) && Allowed(db, Decide(key, approve, rows))
    ensures Review(db, key, approve, rows).Ok? <==>
            && key in db.verifications && key.paymentId in db.paymentOrders && db.verifications[key] == Pending
            && (approve ==> db.orders[db.paymentOrders[key.paymentId]].status == Orders.PendingPayment)
    ensures Review(db, key, approve, rows).Fail? ==> Step(db, Decide(key, approve, rows)) == db
  {
    if key in db.verifications && Finds(db, key.paymentId) && db.verifications[key] == Pending {
      ReviewDecides(db, key, approve, rows);
    }
  }

  /** All that an approval writes. */
  lemma ApprovalWrites(db: Db, key: Reference, rows: seq<Row>)
    requires Review(db, key, true, rows).Ok?
    ensures Finds(db, key.paymentId)
    ensures var id, next := db.paymentOrders[key.paymentId], Review(db, key, true, rows).value;
            && Elsewhere(db, next, id) && next.webhooks == db.webhooks
            && next.verifications == db.verifications[key := Approved]
            && Decided(db.orders[id], next.orders[id], Orders.Confirmed)
            && var before := db.orders[id].payment;
            next.orders[id].payment == before.(status := Captured, version := before.version + 1)
  {
  }

  // ----- checkout and evidence -----

  /**
   An order is placed exactly under ids that are not in use and with lines that can all be reserved; it then waits for
   its payment, and every other order, record and event is as before.
   */
  lemma PlacedExactly(db: Db, id: OrderId, payment: PaymentId, amountMinor: int, packages: nat, lines: seq<Line>)
    ensures var r := PlaceOrder(db, id, payment, amountMinor, packages, lines);
            && (r.Ok? <==> id !in db.orders && payment !in db.paymentOrders && lines != []
                           && AllFree(db.shop.tables, id, lines))
            && (r.Ok? ==>
                  && r.value.orders == db.orders[id := r.value.orders[id]]
                  && r.value.paymentOrders == db.paymentOrders[payment := id]
                  && r.value.webhooks == db.webhooks && r.value.verifications == db.verifications
                  && ReserveAll(db.shop.tables, id, lines) == Ok(r.value.shop.tables)
                  && Awaits(r.value.orders[id], payment, amountMinor, packages))
  {
    ReservesExactly(db.shop.tables, id, lines);
  }

  /** A new order with its amount still to be paid. */
  ghost predicate Awaits(order: Order, payment: PaymentId, amountMinor: int, packages: nat) {
    && order.status == Orders.PendingPayment && order.paymentId == payment && order.version == 1
    && |order.packages| == packages && AllPackages(order, Orders.PackagePlaced)
    && order.payment == Payment(RequiresAction, amountMinor, None, 1)
  }

  /** Evidence is recorded exactly for an existing payment and a new reference, as a pending record. */
  lemma SubmittedExactly(db: Db, key: Reference)
    ensures var r := SubmitEvidence(db, key);
            && (r.Ok? <==> key.paymentId in db.paymentOrders && key !in db.verifications)
            && (r.Ok? ==> r.value == db.(verifications := db.verifications[key := Pending]))
  {
  }
}
