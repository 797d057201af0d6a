/**
 The payment protocol on values: provider webhooks, payment-window expiry and manual review, racing on orders that
 hold reservations.  Each transaction is one step, because it locks the order row first; a thrown error changes nothing.
 */
module Payments {
  import opened Wrappers
  import opened Stock
  import opened StockRuns
  import Orders = OrderLifecycle

  type PaymentId = string

  datatype PaymentStatus =
    | Initiated | RequiresAction | Authorized | Captured | PartiallyRefunded | Refunded | Failed | Voided | TimedOut

  datatype Payment = Payment(status: PaymentStatus, amountMinor: int, transactionId: Option<string>, version: nat)

  /** An order with its one payment. */
  datatype Order = Order(status: Orders.ParentOrderStatus, packages: seq<Orders.VendorOrderStatus>, version: nat,
                         paymentId: PaymentId, payment: Payment)

  datatype VerificationStatus = Pending | Approved | Rejected | ReconciliationRequired

  /** The unique pair of a verification record: its payment and the transaction reference. */
  datatype Reference = Reference(paymentId: PaymentId, text: string)

  /** A webhook is known by its provider and the provider's event id. */
  datatype WebhookId = WebhookId(provider: string, eventId: string)

  datatype WebhookStatus = EventCaptured | EventFailed | EventCancelled

  datatype WebhookEvent = WebhookEvent(id: WebhookId, paymentId: PaymentId, status: WebhookStatus,
                                       transactionId: Option<string>, amountMinor: int)

  /** `paymentOrders` is the order id column of the payment table. */
  datatype Db = Db(shop: World, orders: map<OrderId, Order>, paymentOrders: map<PaymentId, OrderId>,
                   webhooks: set<WebhookId>, verifications: map<Reference, VerificationStatus>)

  datatype PaymentProblem =
    | PaymentNotFound
    | AmountMismatch
    | DuplicateTransaction
    | DuplicateReference
    | VerificationNotFound
    | AlreadyReviewed
    | OrderNotPending
    | HoldMissing
    | StockProblem(problem: Problem)
    | OrderExists

  function NewStatus(e: WebhookStatus): PaymentStatus {
    match e
    case EventCaptured => Captured
    case EventFailed => Failed
    case EventCancelled => Voided
  }

  // ----- PaymentWebhookService.process -----

  predicate TransactionTaken(orders: map<OrderId, Order>, id: OrderId, transactionId: string) {
    exists o :: o in orders && o != id && orders[o].payment.transactionId == Some(transactionId)
  }

  /** The payment update: any status that is not CAPTURED is overwritten with the event's. */
  function UpdatePayment(p: Payment, e: WebhookEvent): Payment {
    p.(status := NewStatus(e.status), version := p.version + 1,
    transactionId := if e.transactionId.Some? then e.transactionId else p.transactionId)
  }

  predicate Finds(db: Db, p: PaymentId) {
    p in db.paymentOrders && db.paymentOrders[p] in db.orders
  }

  function CaptureReference(prefix: string, e: WebhookEvent): string {
    if e.transactionId.Some? then e.transactionId.value else prefix + ":" + e.id.provider + ":" + e.id.eventId
  }

  function AddVerification(db: Db, key: Reference, status: VerificationStatus): Outcome<Db, PaymentProblem> {
    if key in db.verifications then Fail(DuplicateReference)
    else Ok(db.(verifications := db.verifications[key := status]))
  }

  function CancelAll(packages: seq<Orders.VendorOrderStatus>): seq<Orders.VendorOrderStatus> {
    seq(|packages|, i => Orders.PackageCancelled)
  }

  function SetTables(db: Db, t: Tables): Db {
    db.(shop := db.shop.(tables := t))
  }

  function SetOrder(db: Db, id: OrderId, order: Order): Db {
    db.(orders := db.orders[id := order])
  }

  /** What a webhook does to an order, after the payment row has been updated. */
  function SettleOrder(db: Db, e: WebhookEvent, id: OrderId, rows: seq<Row>): Outcome<Db, PaymentProblem>
    requires id in db.orders
  {
    var order := db.orders[id];
    if e.status == EventCaptured && order.status == Orders.PendingPayment then
      match ApplyAll(Consume, db.shop.tables, rows)
      case Fail(x) => Fail(StockProblem(x))
      case Ok(t) =>
        if |rows| > 0
        then Ok(SetOrder(SetTables(db, t), id, order.(status := Orders.Confirmed, version := order.version + 1)))
        else AddVerification(SetTables(db, t), Reference(e.paymentId, CaptureReference("capture", e)),
                             ReconciliationRequired)
    else if e.status == EventCaptured && order.status == Orders.Cancelled then
      AddVerification(db, Reference(e.paymentId, CaptureReference("late-capture", e)), ReconciliationRequired)
    else if e.status != EventCaptured && order.status == Orders.PendingPayment then
      match ApplyAll(GiveBack, db.shop.tables, rows)
      case Fail(x) => Fail(StockProblem(x))
      case Ok(t) =>
        Ok(SetOrder(SetTables(db, t), id,
                    order.(status := Orders.Cancelled, packages := CancelAll(order.packages),
                    version := order.version + 1)))
    else Ok(db)
  }

  function Process(db: Db, e: WebhookEvent, rows: seq<Row>): Outcome<Db, PaymentProblem> {
    if e.id in db.webhooks then Ok(db)
    else if !Finds(db, e.paymentId) then Fail(PaymentNotFound)
    else
      var id := db.paymentOrders[e.paymentId];
      var order := db.orders[id];
      if e.amountMinor != order.payment.amountMinor then Fail(AmountMismatch)
      else
        var seen := db.(webhooks := db.webhooks + {e.id});
        if order.payment.status == Captured then Ok(seen)
        else if e.transactionId.Some? && TransactionTaken(db.orders, id, e.transactionId.value)
        then Fail(DuplicateTransaction)
        else SettleOrder(SetOrder(seen, id, order.(payment := UpdatePayment(order.payment, e))), e, id, rows)
  }

  // ----- ReservationExpiryScheduler.expire -----

  predicate Finished(s: PaymentStatus) {
    s in {Captured, PartiallyRefunded, Refunded, Failed, Voided, TimedOut}
  }

  function CancelOpen(packages: seq<Orders.VendorOrderStatus>): seq<Orders.VendorOrderStatus> {
    seq(|packages|, i requires 0 <= i < |packages| =>
      if packages[i] in {Orders.PackageCancelled, Orders.PackageDelivered} then packages[i]
      else Orders.PackageCancelled)
  }

  function ExpireOrder(db: Db, id: OrderId, rows: seq<Row>): Outcome<Db, PaymentProblem> {
    if id !in db.orders || db.orders[id].status != Orders.PendingPayment || rows == [] then Ok(db)
    else
      match ApplyAll(Expire, db.shop.tables, rows)
      case Fail(x) => Fail(StockProblem(x))
      case Ok(t) =>
        var order := db.orders[id];
        var p := order.payment;
        Ok(SetOrder(SetTables(db, t), id,
                    order.(status := Orders.Cancelled, packages := CancelOpen(order.packages),
                    version := order.version + 1,
                    payment := if Finished(p.status) then p else p.(status := TimedOut, version := p.version + 1))))
  }

  // ----- AdminService.reviewPayment -----

  function Review(db: Db, key: Reference, approve: bool, rows: seq<Row>): Outcome<Db, PaymentProblem> {
    if key !in db.verifications || !Finds(db, key.paymentId) then Fail(VerificationNotFound)
    else if db.verifications[key] != Pending then Fail(AlreadyReviewed)
    else if !approve then Ok(db.(verifications := db.verifications[key := Rejected]))
    else
      var id := db.paymentOrders[key.paymentId];
      var order := db.orders[id];
      if order.status != Orders.PendingPayment then Fail(OrderNotPending)
      else
        match ApplyAll(Consume, db.shop.tables, rows)
        case Fail(x) => Fail(StockProblem(x))
        case Ok(t) =>
          if rows == [] then Fail(HoldMissing)
          else Ok(SetOrder(SetTables(db, t), id,
                           order.(status := Orders.Confirmed, version := order.version + 1,
                           payment := order.payment.(status := Captured, version := order.payment.version + 1)))
                  .(verifications := db.verifications[key := Approved]))
  }

  // ----- the environment: checkout with online payment, and customers submitting evidence -----

  function PlaceOrder(db: Db, id: OrderId, payment: PaymentId, amountMinor: int, packages: nat,
                      lines: seq<Line>): Outcome<Db, PaymentProblem> {
    if id in db.orders || payment in db.paymentOrders || lines == [] then Fail(OrderExists)
    else
      match ReserveAll(db.shop.tables, id, lines)
      case Fail(x) => Fail(StockProblem(x))
      case Ok(t) =>
        var order := Order(Orders.PendingPayment, seq(packages, i => Orders.PackagePlaced), 1,
                           payment, Payment(RequiresAction, amountMinor, None, 1));
        Ok(SetOrder(SetTables(db, t), id, order).(paymentOrders := db.paymentOrders[payment := id]))
  }

  function SubmitEvidence(db: Db, key: Reference): Outcome<Db, PaymentProblem> {
    if key.paymentId !in db.paymentOrders then Fail(PaymentNotFound) else AddVerification(db, key, Pending)
  }

  // ----- the state machine -----

  datatype Event =
    | Place(order: OrderId, payment: PaymentId, amountMinor: int, packages: nat, lines: seq<Line>)
    | Submit(key: Reference)
    | Webhook(event: WebhookEvent, rows: seq<Row>)
    | WindowCloses(order: OrderId, rows: seq<Row>)
    | Decide(key: Reference, approve: bool, rows: seq<Row>)
    | StockEdit(edit: StockRuns.Event)

  function Attempt(db: Db, e: Event): Outcome<Db, PaymentProblem> {
    match e
    case Place(id, payment, amountMinor, packages, lines) => PlaceOrder(db, id, payment, amountMinor, packages, lines)
    case Submit(key) => SubmitEvidence(db, key)
    case Webhook(event, rows) => Process(db, event, rows)
    case WindowCloses(id, rows) => ExpireOrder(db, id, rows)
    case Decide(key, approve, rows) => Review(db, key, approve, rows)
    case StockEdit(edit) => Ok(db.(shop := StockRuns.Next(db.shop, edit)))
  }

  function Step(db: Db, e: Event): Db {
    match Attempt(db, e)
    case Ok(next) => next
    case Fail(_) => db
  }

  /** The order an event works on, if any. */
  function OrderOf(db: Db, e: Event): Option<OrderId> {
    match e
    case Webhook(event, _) => if Finds(db, event.paymentId) then Some(db.paymentOrders[event.paymentId]) else None
    case WindowCloses(id, _) => Some(id)
    case Decide(key, _, _) => if Finds(db, key.paymentId) then Some(db.paymentOrders[key.paymentId]) else None
    case _ => None
  }

  predicate StockOnly(e: StockRuns.Event) {
    e.AdminRead? || e.VendorRead? || e.Write?
  }

  /** An event brings the order's active reservations, in the order some query returned them. */
  ghost predicate Allowed(db: Db, e: Event) {
    match e
    case Webhook(_, rows) => OrderOf(db, e).Some? ==> Enumerates(Consume, db.shop.tables, OrderOf(db, e).value, rows)
    case WindowCloses(id, rows) => Enumerates(Consume, db.shop.tables, id, rows)
    case Decide(_, _, rows) => OrderOf(db, e).Some? ==> Enumerates(Consume, db.shop.tables, OrderOf(db, e).value, rows)
    case StockEdit(edit) => StockOnly(edit) && StockRuns.Legal(db.shop, edit)
    case _ => true
  }

  function RunAll(db: Db, es: seq<Event>): Db
    decreases |es|
  {
    if es == [] then db else RunAll(Step(db, es[0]), es[1..])
  }

  ghost predicate AllowedRun(db: Db, es: seq<Event>)
    decreases |es|
  {
    es != [] ==> Allowed(db, es[0]) && AllowedRun(Step(db, es[0]), es[1..])
  }

  // ----- invariants -----

  ghost predicate Linked(db: Db) {
    forall p :: p in db.paymentOrders ==>
                  db.paymentOrders[p] in db.orders && db.orders[db.paymentOrders[p]].paymentId == p
  }

  /** The statuses an order's reservations may have. */
  function HoldStatuses(s: Orders.ParentOrderStatus): set<ReservationStatus> {
    match s
    case PendingPayment => {Active}
    case Confirmed => {Consumed}
    case Cancelled => {Released, Expired}
    case _ => {}
  }

  ghost predicate HoldsFollowOrders(db: Db) {
    && (forall r :: r in db.shop.tables.reservations ==>
                      r.orderId in db.orders && r.status in HoldStatuses(db.orders[r.orderId].status))
    && (forall o :: o in db.orders ==> exists r :: r in db.shop.tables.reservations && r.orderId == o)
  }

  ghost predicate AllPackages(order: Order, status: Orders.VendorOrderStatus) {
    forall i :: 0 <= i < |order.packages| ==> order.packages[i] == status
  }

  /**
   An order's own columns: a pending order awaits its payment, a confirmed one is paid, a cancelled one ships nothing.
   */
  ghost predicate Settled(order: Order) {
    match order.status
    case PendingPayment => order.payment.status == RequiresAction && AllPackages(order, Orders.PackagePlaced)
    case Confirmed => order.payment.status == Captured && AllPackages(order, Orders.PackagePlaced)
    case Cancelled => AllPackages(order, Orders.PackageCancelled)
    case _ => false
  }

  ghost predicate Reconciled(db: Db, p: PaymentId) {
    exists key :: key in db.verifications && key.paymentId == p && db.verifications[key] == ReconciliationRequired
  }

  /** No captured payment is lost: its order is confirmed, or a record asks for reconciliation. */
  ghost predicate CaptureKept(db: Db, order: Order) {
    order.payment.status == Captured ==> order.status == Orders.Confirmed || Reconciled(db, order.paymentId)
  }

  ghost predicate OrdersSafe(db: Db) {
    && Linked(db) && HoldsFollowOrders(db)
    && forall o :: o in db.orders ==> Settled(db.orders[o]) && CaptureKept(db, db.orders[o])
  }

  ghost predicate Safe(db: Db) {
    StockRuns.Inv(db.shop) && OrdersSafe(db)
  }
}
