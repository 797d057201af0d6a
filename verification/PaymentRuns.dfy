/**
 The payment protocol over whole runs, and its refinement to runs of the stock tables.
 */
module PaymentRuns {
  import opened Wrappers
  import opened Stock
  import opened StockProofs
  import opened StockRuns
  import opened StockRunProofs
  import opened Payments
  import opened PaymentProofs
  import Orders = OrderLifecycle

  // ----- the environment and the stock edits -----

  lemma {:induction false} ReserveAllAdds(t: Tables, order: OrderId, lines: seq<Line>)
    requires ReserveAll(t, order, lines).Ok?
    ensures var after := ReserveAll(t, order, lines).value.reservations;
            && |after| == |t.reservations| + |lines| && after[..|t.reservations|] == t.reservations
            && forall k :: |t.reservations| <= k < |after| ==> after[k].orderId == order && after[k].status == Active
    decreases |lines|
  {
    if lines != [] {
      var t1 := ReserveLine(t, order, lines[0]).value;
      ReserveAllAdds(t1, order, lines[1..]);
      var after := ReserveAll(t1, order, lines[1..]).value.reservations;
      assert after[..|t.reservations|] == after[..|t1.reservations|][..|t.reservations|];
      assert after[|t.reservations|] == after[..|t1.reservations|][|t.reservations|];
    }
  }

  lemma PlaceSafe(db: Db, id: OrderId, payment: PaymentId, amountMinor: int, packages: nat, lines: seq<Line>)
    requires OrdersSafe(db) && PlaceOrder(db, id, payment, amountMinor, packages, lines).Ok?
    ensures OrdersSafe(PlaceOrder(db, id, payment, amountMinor, packages, lines).value)
  {
    var next := PlaceOrder(db, id, payment, amountMinor, packages, lines).value;
    PlacedHolds(db, id, payment, amountMinor, packages, lines);
    forall o | o in next.orders ensures exists r :: r in next.shop.tables.reservations && r.orderId == o {
      PlacedHasRow(db, id, payment, amountMinor, packages, lines, o);
    }
    forall o | o in next.orders ensures Settled(next.orders[o]) && CaptureKept(next, next.orders[o]) {
      if o != id { SameRecords(db, next, next.orders[o]); }
    }
  }

  /** Every order after checkout has a reservation. */
  lemma PlacedHasRow(db: Db, id: OrderId, payment: PaymentId, amountMinor: int, packages: nat, lines: seq<Line>,
                     o: OrderId)
    requires OrdersSafe(db) && PlaceOrder(db, id, payment, amountMinor, packages, lines).Ok?
    requires o == id || o in db.orders
    ensures exists r :: r in PlaceOrder(db, id, payment, amountMinor, packages, lines).value.shop.tables.reservations
                        && r.orderId == o
  {
    var before, after :=
      db.shop.tables.reservations,
      PlaceOrder(db, id, payment, amountMinor, packages, lines).value.shop.tables.reservations;
    ReserveAllAdds(db.shop.tables, id, lines);
    if o == id {
      assert after[|before|] in after;
    } else {
      var r :| r in before && r.orderId == o;
      assert r in after[..|before|];
    }
  }

  /** Every reservation after checkout matches the status of its order. */
  lemma PlacedHolds(db: Db, id: OrderId, payment: PaymentId, amountMinor: int, packages: nat, lines: seq<Line>)
    requires OrdersSafe(db) && PlaceOrder(db, id, payment, amountMinor, packages, lines).Ok?
    ensures var next := PlaceOrder(db, id, payment, amountMinor, packages, lines).value;
            forall r :: r in next.shop.tables.reservations ==>
                          r.orderId in next.orders && r.status in HoldStatuses(next.orders[r.orderId].status)
  {
    var next := PlaceOrder(db, id, payment, amountMinor, packages, lines).value;
    var before, after := db.shop.tables.reservations, next.shop.tables.reservations;
    ReserveAllAdds(db.shop.tables, id, lines);
    forall r | r in after ensures r.orderId in next.orders && r.status in HoldStatuses(next.orders[r.orderId].status) {
      var k :| 0 <= k < |after| && after[k] == r;
      if k < |before| { assert before[k] == after[..|before|][k] && before[k] in before; }
    }
  }

  lemma SameRecords(db: Db, next: Db, order: Order)
    requires KeepsReconciliations(db.verifications, next.verifications) && CaptureKept(db, order)
    ensures CaptureKept(next, order)
  {
    ReconciledStays(db, next, order.paymentId);
  }

  lemma SubmitSafe(db: Db, key: Reference)
    requires OrdersSafe(db) && SubmitEvidence(db, key).Ok?
    ensures OrdersSafe(SubmitEvidence(db, key).value)
  {
    var next := SubmitEvidence(db, key).value;
    forall o | o in next.orders ensures CaptureKept(next, next.orders[o]) { SameRecords(db, next, next.orders[o]); }
  }

  lemma {:induction false} WritesKeepReservations(t: Tables, bulk: bool, before: map<VariantId, Inventory>,
                                                  changes: seq<Change>)
    requires WriteChanges(t, bulk, before, changes).Ok?
    ensures WriteChanges(t, bulk, before, changes).value.reservations == t.reservations
    decreases |changes|
  {
    if changes != [] {
      WritesKeepReservations(WriteChange(t, bulk, before[changes[0].variantId], changes[0]).value, bulk, before,
                             changes[1..]);
    }
  }

  lemma EditKeepsReservations(w: World, e: StockRuns.Event)
    requires StockOnly(e)
    ensures Next(w, e).tables.reservations == w.tables.reservations
  {
    if e.Write? && e.edit < |w.edits| && w.edits[e.edit].AdminEdit? && WriteEdit(w.tables, w.edits[e.edit]).Ok? {
      WritesKeepReservations(w.tables, w.edits[e.edit].bulk, w.edits[e.edit].before, w.edits[e.edit].changes);
    }
  }

  lemma EditSafe(db: Db, e: StockRuns.Event)
    requires OrdersSafe(db) && StockOnly(e)
    ensures OrdersSafe(db.(shop := Next(db.shop, e)))
  {
    var next := db.(shop := Next(db.shop, e));
    EditKeepsReservations(db.shop, e);
    forall o | o in next.orders ensures CaptureKept(next, next.orders[o]) { SameRecords(db, next, next.orders[o]); }
  }

  // ----- refinement: every protocol step is at most one legal step of the stock tables -----

  function StockSteps(db: Db, e: Payments.Event): seq<StockRuns.Event> {
    if Step(db, e).shop == db.shop then []
    else
      match e
      case Place(id, _, _, _, lines) => [Checkout(id, lines)]
      case Submit(_) => []
      case Webhook(event, rows) => [ApplyRows(if event.status == EventCaptured then Consume else GiveBack, rows)]
      case WindowCloses(_, rows) => [ApplyRows(Expire, rows)]
      case Decide(_, _, rows) => [ApplyRows(Consume, rows)]
      case StockEdit(edit) => [edit]
  }

  /** The step writes a vendor's edit. */
  predicate VendorStep(db: Db, e: Payments.Event) {
    e.StockEdit? && VendorWrites(db.shop, e.edit)
  }

  ghost predicate NoVendorSteps(db: Db, es: seq<Payments.Event>)
    decreases |es|
  {
    es != [] ==> !VendorStep(db, es[0]) && NoVendorSteps(Step(db, es[0]), es[1..])
  }

  lemma StepRefinesStock(db: Db, e: Payments.Event)
    requires Allowed(db, e)
    ensures StockRuns.LegalRun(db.shop, StockSteps(db, e))
    ensures StockRuns.Run(db.shop, StockSteps(db, e)) == Step(db, e).shop
    ensures !VendorStep(db, e) ==> NoVendorWrites(db.shop, StockSteps(db, e))
  {
    var se := StockSteps(db, e);
    if se != [] {
      if e.Webhook? { ReadableFor(GiveBack, db.shop.tables, e.rows); }
      if e.WindowCloses? { ReadableFor(Expire, db.shop.tables, e.rows); }
      assert se[1..] == [];
      assert StockRuns.Legal(db.shop, se[0]) && Next(db.shop, se[0]) == Step(db, e).shop;
    }
  }

  function StockRunOf(db: Db, es: seq<Payments.Event>): seq<StockRuns.Event>
    decreases |es|
  {
    if es == [] then [] else StockSteps(db, es[0]) + StockRunOf(Step(db, es[0]), es[1..])
  }

  /** Every run of the protocol is a legal run of the stock tables, so the laws of stock hold along it. */
  lemma {:induction false} RunRefinesStock(db: Db, es: seq<Payments.Event>)
    requires AllowedRun(db, es)
    ensures StockRuns.LegalRun(db.shop, StockRunOf(db, es))
    ensures StockRuns.Run(db.shop, StockRunOf(db, es)) == RunAll(db, es).shop
    ensures NoVendorSteps(db, es) ==> NoVendorWrites(db.shop, StockRunOf(db, es))
    decreases |es|
  {
    if es != [] {
      var head, rest := StockSteps(db, es[0]), StockRunOf(Step(db, es[0]), es[1..]);
      StepRefinesStock(db, es[0]);
      RunRefinesStock(Step(db, es[0]), es[1..]);
      if head == [] {
        assert head + rest == rest;
      } else {
        assert head[1..] == [] && (head + rest)[1..] == rest;
      }
    }
  }

  // ----- every step, every run -----

  lemma StepSafe(db: Db, e: Payments.Event)
    requires Safe(db) && Allowed(db, e)
    ensures Safe(Step(db, e))
  {
    StepRefinesStock(db, e);
    RunKeepsInv(db.shop, StockSteps(db, e));
    if Attempt(db, e).Ok? { StepOrdersSafe(db, e); }
  }

  lemma StepOrdersSafe(db: Db, e: Payments.Event)
    requires Safe(db) && Allowed(db, e) && Attempt(db, e).Ok?
    ensures OrdersSafe(Attempt(db, e).value)
  {
    match e
    case Place(id, payment, amountMinor, packages, lines) => PlaceSafe(db, id, payment, amountMinor, packages, lines);
    case Submit(key) => SubmitSafe(db, key);
    case Webhook(event, rows) =>
      if OrderOf(db, e).Some? { RowsDoMove(db, OrderOf(db, e).value, rows); }
      ProcessSafe(db, event, rows);
    case WindowCloses(id, rows) =>
      RowsDoMove(db, id, rows);
      ExpireSafe(db, id, rows);
    case Decide(key, approve, rows) =>
      if OrderOf(db, e).Some? { RowsDoMove(db, OrderOf(db, e).value, rows); }
      ReviewSafe(db, key, approve, rows);
    case StockEdit(edit) => EditSafe(db, edit);
  }

  lemma {:induction false} RunSafe(db: Db, es: seq<Payments.Event>)
    requires Safe(db) && AllowedRun(db, es)
    ensures Safe(RunAll(db, es))
    decreases |es|
  {
    if es != [] {
      StepSafe(db, es[0]);
      RunSafe(Step(db, es[0]), es[1..]);
    }
  }

  ghost predicate Empty(db: Db) {
    StockRunProofs.Opening(db.shop) && db.orders == map[] && db.paymentOrders == map[] && db.verifications == map[]
  }

  /** Every reservation of the order has one of the statuses. */
  ghost predicate HoldsAre(db: Db, o: OrderId, statuses: set<ReservationStatus>) {
    forall r :: r in db.shop.tables.reservations && r.orderId == o ==> r.status in statuses
  }

  /**
   Lockstep, from an empty shop on, for every order: while it is pending its reservations are active and its payment is
   open; confirmed, they are consumed and it is paid; cancelled, they are released or expired and no package is left. A
   captured payment is never lost, and every reservation belongs to an order.
   */
  lemma Lockstep(db: Db, es: seq<Payments.Event>, o: OrderId)
    requires Empty(db) && AllowedRun(db, es)
    ensures var end := RunAll(db, es);
            && (forall r :: r in end.shop.tables.reservations ==> r.orderId in end.orders)
            && (forall p :: p in end.paymentOrders ==>
                              end.paymentOrders[p] in end.orders && end.orders[end.paymentOrders[p]].paymentId == p)
            && (o in end.orders ==>
                  var order := end.orders[o];
                  && (exists r :: r in end.shop.tables.reservations && r.orderId == o)
                  && order.status in {Orders.PendingPayment, Orders.Confirmed, Orders.Cancelled}
                  && (order.status == Orders.PendingPayment ==>
                        HoldsAre(end, o, {Active}) && order.payment.status == RequiresAction)
                  && (order.status == Orders.Confirmed ==>
                        HoldsAre(end, o, {Consumed}) && order.payment.status == Captured)
                  && (order.status == Orders.Cancelled ==>
                        HoldsAre(end, o, {Released, Expired}) && AllPackages(order, Orders.PackageCancelled))
                  && (order.payment.status == Captured ==>
                        order.status == Orders.Confirmed || Reconciled(end, order.paymentId)))
  {
    OpeningInv(db.shop);
    assert Safe(db);
    RunSafe(db, es);
    var end := RunAll(db, es);
    if o in end.orders { assert Settled(end.orders[o]) && CaptureKept(end, end.orders[o]); }
  }

  /** While no vendor's edit is written, nothing reserved is ever missing from the shelf. */
  lemma RunBounded(db: Db, es: seq<Payments.Event>)
    requires Empty(db) && AllowedRun(db, es) && NoVendorSteps(db, es)
    ensures Safe(RunAll(db, es)) && Bounded(RunAll(db, es).shop.tables)
  {
    OpeningInv(db.shop);
    assert Safe(db);
    RunSafe(db, es);
    RunRefinesStock(db, es);
    RunKeepsInv(db.shop, StockRunOf(db, es));
  }

  // ----- an order leaves PENDING_PAYMENT at most once -----

  lemma StepKeepsDecision(db: Db, e: Payments.Event, id: OrderId)
    requires id in db.orders
    ensures id in Step(db, e).orders
    ensures db.orders[id].status != Orders.PendingPayment ==>
              Step(db, e).orders[id] == db.orders[id].(payment := Step(db, e).orders[id].payment)
    ensures db.orders[id].payment.status == Captured && (db.orders[id].status != Orders.PendingPayment) ==>
              Step(db, e).orders[id] == db.orders[id]
  {
  }

  lemma {:induction false} DecidedOnce(db: Db, es: seq<Payments.Event>, id: OrderId)
    requires id in db.orders && db.orders[id].status != Orders.PendingPayment
    ensures id in RunAll(db, es).orders && RunAll(db, es).orders[id].status == db.orders[id].status
    ensures db.orders[id].payment.status == Captured ==> RunAll(db, es).orders[id] == db.orders[id]
    decreases |es|
  {
    if es != [] {
      StepKeepsDecision(db, es[0], id);
      DecidedOnce(Step(db, es[0]), es[1..], id);
    }
  }

  // ----- replays -----

  lemma {:induction false} SeenStaysSeen(db: Db, es: seq<Payments.Event>)
    ensures db.webhooks <= RunAll(db, es).webhooks
    decreases |es|
  {
    if es != [] { SeenStaysSeen(Step(db, es[0]), es[1..]); }
  }

  /** An accepted event changes nothing when it comes again, however much happened in between and whatever it says. */
  lemma ReplayChangesNothing(db: Db, e: WebhookEvent, rows: seq<Row>, es: seq<Payments.Event>, again: WebhookEvent,
                             rows': seq<Row>)
    requires Process(db, e, rows).Ok? && again.id == e.id
    ensures var later := RunAll(Step(db, Webhook(e, rows)), es);
            Attempt(later, Webhook(again, rows')) == Ok(later)
  {
    assert e.id in Step(db, Webhook(e, rows)).webhooks;
    SeenStaysSeen(Step(db, Webhook(e, rows)), es);
  }

  // ----- captures -----

  /** A capture for a cancelled order is accepted exactly when its reference is new, and then leaves a record. */
  lemma LateCaptureRecorded(db: Db, e: WebhookEvent, rows: seq<Row>)
    requires Finds(db, e.paymentId) && e.id !in db.webhooks && e.status == EventCaptured
    requires var order := db.orders[db.paymentOrders[e.paymentId]];
             && order.status == Orders.Cancelled && order.payment.status != Captured
             && e.amountMinor == order.payment.amountMinor
             && (e.transactionId.Some? ==>
                   !TransactionTaken(db.orders, db.paymentOrders[e.paymentId], e.transactionId.value))
    ensures var r := Process(db, e, rows);
            && (r.Ok? <==> Reference(e.paymentId, CaptureReference("late-capture", e)) !in db.verifications)
            && (r.Ok? ==> Reconciled(r.value, e.paymentId)
                          && r.value.orders[db.paymentOrders[e.paymentId]].payment.status == Captured
                          && r.value.shop == db.shop)
  {
    var r := Process(db, e, rows);
    if r.Ok? { assert Reference(e.paymentId, CaptureReference("late-capture", e)) in r.value.verifications; }
  }

  /**
   When the payment window closes on a pending order, its units become available again and its payment is timed out.
   */
  lemma ExpiryReturnsHold(db: Db, id: OrderId, rows: seq<Row>, v: VariantId)
    requires Safe(db) && Bounded(db.shop.tables) && Allowed(db, WindowCloses(id, rows)) && v in db.shop.tables.inventory
    requires id in db.orders && db.orders[id].status == Orders.PendingPayment
    ensures var r := ExpireOrder(db, id, rows);
            && r.Ok? && v in r.value.shop.tables.inventory
            && r.value.orders[id].status == Orders.Cancelled && r.value.orders[id].payment.status == TimedOut
            && Available(r.value.shop.tables, v)
               == Available(db.shop.tables, v) + Quantity(db.shop.tables.reservations, Pick(Some(id), v, Active))
            && r.value.shop.tables.inventory[v].onHand == db.shop.tables.inventory[v].onHand
  {
    var t := db.shop.tables;
    HasRows(db, id, rows);
    ReadableFor(Expire, t, rows);
    NoRefusal(Expire, t, rows);
    ApplyAllStock(Expire, t, rows, v);
    EnumerationQuantity(Consume, t, id, rows, Pick(Some(id), v, Active));
    OrderRows(rows, id, v, Active);
    OnlyActive(t, rows, v);
    assert Settled(db.orders[id]);
  }

  lemma {:induction false} OnlyActive(t: Tables, rows: seq<Row>, v: VariantId)
    requires Readable(Consume, t, rows)
    ensures RowsQuantity(rows, Pick(None, v, Consumed)) == 0
  {
    if rows != [] {
      assert Accepts(Consume, rows[0].reservation.status);
      OnlyActive(t, rows[1..], v);
    }
  }
}
