/**
 A capture that can never be recorded: it arrives after the order was cancelled, and its transaction reference already
 has a verification record.
 */
module PaymentRaces {
  import opened Wrappers
  import opened Stock
  import opened StockProofs
  import opened StockRuns
  import opened StockRunProofs
  import opened Payments
  import opened PaymentRuns
  import Orders = OrderLifecycle

  /** The order of the event is cancelled, and the reference that the capture would record is taken. */
  ghost predicate Recorded(db: Db, e: WebhookEvent) {
    && e.status == EventCaptured && Finds(db, e.paymentId)
    && db.orders[db.paymentOrders[e.paymentId]].status == Orders.Cancelled
    && Reference(e.paymentId, CaptureReference("late-capture", e)) in db.verifications
  }

  lemma RecordedStep(db: Db, step: Payments.Event, e: WebhookEvent)
    requires Recorded(db, e)
    ensures Recorded(Step(db, step), e) && Step(db, step).paymentOrders[e.paymentId] == db.paymentOrders[e.paymentId]
  {
    StepKeepsDecision(db, step, db.paymentOrders[e.paymentId]);
  }

  lemma {:induction false} RecordedStays(db: Db, es: seq<Payments.Event>, e: WebhookEvent)
    requires Recorded(db, e)
    ensures Recorded(RunAll(db, es), e)
    decreases |es|
  {
    if es != [] {
      RecordedStep(db, es[0], e);
      RecordedStays(Step(db, es[0]), es[1..], e);
    }
  }

  /**
   Whatever happens in between: a late capture whose reference is taken is refused every time, and changes nothing,
   unless its event id has been seen or the payment has been captured under another reference.
   */
  lemma LateCaptureStaysRefused(db: Db, es: seq<Payments.Event>, e: WebhookEvent, rows: seq<Row>)
    requires Recorded(db, e)
    ensures var end := RunAll(db, es);
            && Finds(end, e.paymentId)
            && var payment := end.orders[end.paymentOrders[e.paymentId]].payment;
            (Attempt(end, Webhook(e, rows)).Ok?
             <==> e.id in end.webhooks || (payment.status == Captured && payment.amountMinor == e.amountMinor))
            && (Attempt(end, Webhook(e, rows)).Fail? ==> Step(end, Webhook(e, rows)) == end)
  {
    RecordedStays(db, es, e);
  }

  // ----- such a state is reachable -----

  const SHOP := Db(World(Tables(map["v" := Inventory(5, 0, 1)], [], []), []), map[], map[], {}, map[])

  const HELD := Reservation("o", "v", 1, Active)

  const HOLD := Movement("v", Reserve, 1, None, CheckoutKey("o", "v"))
  const PENDING := Order(Orders.PendingPayment, [Orders.PackagePlaced], 1, "p", Payment(RequiresAction, 100, None, 1))
  const PLACED :=
    Db(World(Tables(map["v" := Inventory(5, 1, 2)], [HELD], [HOLD]), []),
       map["o" := PENDING], map["p" := "o"], {}, map[])

  /** The customer has submitted the transaction reference for review. */
  const SUBMITTED := PLACED.(verifications := map[Reference("p", "T") := Pending])

  /** Then the payment window has closed. */
  const FREED := Movement("v", Release, 1, None, ExpiryKey(0))
  const EXPIRED := Order(Orders.Cancelled, [Orders.PackageCancelled], 2, "p", Payment(TimedOut, 100, None, 2))
  const CLOSED :=
    Db(World(Tables(map["v" := Inventory(5, 0, 3)], [HELD.(status := Expired)], [HOLD, FREED]), []),
       map["o" := EXPIRED], map["p" := "o"], {}, map[Reference("p", "T") := Pending])

  /** And then the provider reports the capture. */
  const CAPTURE := WebhookEvent(WebhookId("gateway", "e"), "p", EventCaptured, Some("T"), 100)

  lemma PlaceStep()
    ensures Step(SHOP, Place("o", "p", 100, 1, [Line("v", 1)])) == PLACED
  {
    assert [Line("v", 1)][1..] == [];
    var t := SHOP.shop.tables;
    assert t.inventory["v" := Inventory(5, 1, 2)] == PLACED.shop.tables.inventory;
    assert t.reservations + [HELD] == PLACED.shop.tables.reservations
           && t.log + PLACED.shop.tables.log == PLACED.shop.tables.log;
    assert ReserveLine(t, "o", Line("v", 1)) == Ok(PLACED.shop.tables);
    assert ReserveAll(t, "o", [Line("v", 1)]) == Ok(PLACED.shop.tables);
    assert seq(1, i => Orders.PackagePlaced) == [Orders.PackagePlaced];
  }

  lemma CloseStep()
    ensures Allowed(SUBMITTED, WindowCloses("o", [Row(0, HELD)]))
    ensures Step(SUBMITTED, WindowCloses("o", [Row(0, HELD)])) == CLOSED
  {
    var t, row := SUBMITTED.shop.tables, Row(0, HELD);
    assert [row][1..] == [];
    assert t.inventory["v" := Inventory(5, 0, 3)] == CLOSED.shop.tables.inventory;
    assert MarkRow(t.reservations, 0, Expired) == CLOSED.shop.tables.reservations;
    assert !HasKey(t.log, ExpiryKey(0));
    assert t.log + [FREED] == CLOSED.shop.tables.log;
    assert ExpireRow(t, row) == Ok(CLOSED.shop.tables);
    assert ApplyAll(Expire, t, [row]) == Ok(CLOSED.shop.tables);
    assert CancelOpen([Orders.PackagePlaced]) == [Orders.PackageCancelled];
    assert [row][0] == row;
  }

  const CLOSING: seq<Payments.Event> :=
    [Place("o", "p", 100, 1, [Line("v", 1)]), Submit(Reference("p", "T")), WindowCloses("o", [Row(0, HELD)])]

  lemma ClosingRun()
    ensures Empty(SHOP) && AllowedRun(SHOP, CLOSING) && RunAll(SHOP, CLOSING) == CLOSED
  {
    PlaceStep();
    CloseStep();
    assert Step(PLACED, CLOSING[1]) == SUBMITTED;
    LastStep(SUBMITTED, CLOSING[2]);
    assert CLOSING[1..][1..] == [CLOSING[2]];
  }

  lemma LastStep(db: Db, e: Payments.Event)
    requires Allowed(db, e)
    ensures AllowedRun(db, [e]) && RunAll(db, [e]) == Step(db, e)
  {
    assert [e][1..] == [] && AllowedRun(Step(db, e), []);
  }

  /**
   From an empty shop: place, submit the reference, let the window close. The fitting capture is then refused for good.
   */
  lemma LateCaptureLost()
    ensures AllowedRun(SHOP, CLOSING) && Recorded(RunAll(SHOP, CLOSING), CAPTURE)
    ensures Attempt(RunAll(SHOP, CLOSING), Webhook(CAPTURE, [])) == Fail(DuplicateReference)
  {
    ClosingRun();
    assert Recorded(CLOSED, CAPTURE);
  }
}
