/**
 The transactions as they run: loops over query results that update the tables row by row.  Every transaction is
 proved to compute its specification on values, whatever order the database returns the rows in, and to leave the
 tables as they were when it throws.
 */
module Database {
  import opened Wrappers
  import opened Stock
  import opened StockProofs
  import opened StockRuns
  import StockRunProofs
  import opened Payments
  import Orders = OrderLifecycle

  class Store {
    var inventory: map<VariantId, Inventory>
    var reservations: seq<Reservation>
    var log: seq<Movement>
    var orders: map<OrderId, Order>
    var paymentOrders: map<PaymentId, OrderId>
    var webhooks: set<WebhookId>
    var verifications: map<Reference, VerificationStatus>

    constructor (db: Db)
      ensures State() == db.(shop := World(db.shop.tables, []))
    {
      inventory, reservations, log := db.shop.tables.inventory, db.shop.tables.reservations, db.shop.tables.log;
      orders, paymentOrders, webhooks, verifications := db.orders, db.paymentOrders, db.webhooks, db.verifications;
    }

    function Stocks(): Tables
      reads this
    {
      Tables(inventory, reservations, log)
    }

    function State(): Db
      reads this
    {
      Db(World(Stocks(), []), orders, paymentOrders, webhooks, verifications)
    }

    /** The transaction wrapper's rollback. */
    method Restore(db: Db)
      modifies this
      ensures State() == db.(shop := World(db.shop.tables, []))
    {
      inventory, reservations, log := db.shop.tables.inventory, db.shop.tables.reservations, db.shop.tables.log;
      orders, paymentOrders, webhooks, verifications := db.orders, db.paymentOrders, db.webhooks, db.verifications;
    }

    // ----- queries -----

    /** The active reservations of an order.  Callers may rely on which rows come back, not on their order. */
    method FindActive(orderId: OrderId) returns (rows: seq<Row>)
      ensures Enumerates(Consume, Stocks(), orderId, rows)
    {
      rows := [];
      var id := 0;
      while id < |reservations|
        invariant 0 <= id <= |reservations| && rows == ActiveRows(reservations, orderId, id)
      {
        var r := reservations[id];
        if r.orderId == orderId && r.status == Active { rows := rows + [Row(id, r)]; }
        id := id + 1;
      }
      ActiveRowsEnumerate(Stocks(), orderId);
    }

    // ----- inventory-reservation.ts -----

    /** One pass of the consume loop. */
    method ConsumeOne(row: Row) returns (problem: Option<Problem>)
      modifies this`inventory, this`reservations, this`log
      ensures match ApplyRow(Consume, old(Stocks()), row)
              case Ok(t) => problem == None && Stocks() == t
              case Fail(e) => problem == Some(e)
    {
      var x := row.reservation;
      if x.status != Active && x.status != Consumed { return Some(ReservationChanged); }
      if x.variantId !in inventory { return Some(InventoryInconsistent); }
      var item := inventory[x.variantId];
      if item.onHand < x.quantity || item.reserved < x.quantity { return Some(InventoryInconsistent); }
      if HasKey(log, ConsumeKey(row.id)) { return Some(DuplicateMovement); }
      inventory :=
        inventory[x.variantId := Inventory(item.onHand - x.quantity, item.reserved - x.quantity, item.version + 1)];
      log := log + [Movement(x.variantId, Sale, -(x.quantity as int), None, ConsumeKey(row.id))];
      if row.id >= |reservations| || reservations[row.id].status != Active { return Some(ReservationChanged); }
      reservations := MarkRow(reservations, row.id, Consumed);
      problem := None;
    }

    method ConsumeOrderReservations(orderId: OrderId) returns (r: Outcome<nat, Problem>, ghost rows: seq<Row>)
      modifies this`inventory, this`reservations, this`log
      ensures Enumerates(Consume, old(Stocks()), orderId, rows)
      ensures r == match ApplyAll(Consume, old(Stocks()), rows) case Ok(_) => Ok(|rows|) case Fail(e) => Fail(e)
      ensures r.Ok? ==> ApplyAll(Consume, old(Stocks()), rows) == Ok(Stocks())
    {
      var found := FindActive(orderId);
      rows := found;
      var i := 0;
      while i < |found|
        invariant 0 <= i <= |found|
        invariant ApplyAll(Consume, Stocks(), found[i..]) == ApplyAll(Consume, old(Stocks()), found)
      {
        assert found[i..][0] == found[i] && found[i..][1..] == found[i + 1..];
        var problem := ConsumeOne(found[i]);
        if problem.Some? { return Fail(problem.value), rows; }
        i := i + 1;
      }
      r := Ok(|found|);
    }

    /** One pass of the release loop. */
    method ReleaseOne(row: Row) returns (problem: Option<Problem>)
      modifies this`inventory, this`reservations, this`log
      ensures match ApplyRow(GiveBack, old(Stocks()), row)
              case Ok(t) => problem == None && Stocks() == t
              case Fail(e) => problem == Some(e)
    {
      var x := row.reservation;
      if x.status != Active && x.status != Consumed { return Some(ReservationChanged); }
      if x.variantId !in inventory { return Some(InventoryInconsistent); }
      var item := inventory[x.variantId];
      if x.status == Active {
        if item.reserved < x.quantity { return Some(InventoryInconsistent); }
        if HasKey(log, ReleaseKey(row.id)) { return Some(DuplicateMovement); }
        inventory := inventory[x.variantId := Inventory(item.onHand, item.reserved - x.quantity, item.version + 1)];
      } else {
        if HasKey(log, ReleaseKey(row.id)) { return Some(DuplicateMovement); }
        inventory := inventory[x.variantId := Inventory(item.onHand + x.quantity, item.reserved, item.version + 1)];
      }
      log := log + [Movement(x.variantId, Release, x.quantity, Some(x.status), ReleaseKey(row.id))];
      if row.id >= |reservations| || reservations[row.id].status != x.status { return Some(ReservationChanged); }
      reservations := MarkRow(reservations, row.id, Released);
      problem := None;
    }

    method ReleaseOrderReservations(rows: seq<Row>) returns (r: Outcome<nat, Problem>)
      modifies this`inventory, this`reservations, this`log
      ensures r == match ApplyAll(GiveBack, old(Stocks()), rows) case Ok(_) => Ok(|rows|) case Fail(e) => Fail(e)
      ensures r.Ok? ==> ApplyAll(GiveBack, old(Stocks()), rows) == Ok(Stocks())
    {
      var i := 0;
      while i < |rows|
        invariant 0 <= i <= |rows|
        invariant ApplyAll(GiveBack, Stocks(), rows[i..]) == ApplyAll(GiveBack, old(Stocks()), rows)
      {
        assert rows[i..][0] == rows[i] && rows[i..][1..] == rows[i + 1..];
        var problem := ReleaseOne(rows[i]);
        if problem.Some? { return Fail(problem.value); }
        i := i + 1;
      }
      r := Ok(|rows|);
    }

    /** The quantity of each variant in the package. */
    method TallyPackage(items: seq<Line>) returns (packageQuantities: map<VariantId, nat>)
      ensures forall v :: v in packageQuantities <==> InPackage(items, v)
      ensures forall v :: v in packageQuantities ==> packageQuantities[v] == LinesQuantity(items, v)
    {
      packageQuantities := map[];
      var i := 0;
      while i < |items|
        invariant 0 <= i <= |items|
        invariant forall v :: v in packageQuantities <==> InPackage(items[..i], v)
        invariant forall v :: v in packageQuantities ==> packageQuantities[v] == LinesQuantity(items[..i], v)
      {
        var item := items[i];
        var sofar := if item.variantId in packageQuantities then packageQuantities[item.variantId] else 0;
        OneMoreLine(items, i);
        packageQuantities := packageQuantities[item.variantId := sofar + item.quantity];
        i := i + 1;
      }
      assert items[..|items|] == items;
    }

    method SelectRows(items: seq<Line>, packageQuantities: map<VariantId, nat>, rows: seq<Row>)
      returns (selected: seq<Row>)
      requires forall v :: v in packageQuantities <==> InPackage(items, v)
      ensures selected == Selected(items, rows)
    {
      selected := [];
      var i := 0;
      while i < |rows|
        invariant 0 <= i <= |rows|
        invariant selected + Selected(items, rows[i..]) == Selected(items, rows)
      {
        SelectedStep(items, rows, i, selected);
        if rows[i].reservation.variantId in packageQuantities { selected := selected + [rows[i]]; }
        i := i + 1;
      }
    }

    /** The head of the remaining rows is kept or dropped. */
    lemma SelectedStep(items: seq<Line>, rows: seq<Row>, i: nat, selected: seq<Row>)
      requires i < |rows|
      ensures selected + Selected(items, rows[i..])
           == (if InPackage(items, rows[i].reservation.variantId) then selected + [rows[i]] else selected)
              + Selected(items, rows[i + 1..])
    {
      var head, rest := rows[i], Selected(items, rows[i + 1..]);
      assert rows[i..][0] == head && rows[i..][1..] == rows[i + 1..];
      if InPackage(items, head.reservation.variantId) {
        assert Selected(items, rows[i..]) == [head] + rest;
        assert selected + ([head] + rest) == selected + [head] + rest;
      } else {
        assert Selected(items, rows[i..]) == rest;
      }
    }

    method TotalsMatch(packageQuantities: map<VariantId, nat>, selected: seq<Row>) returns (ok: bool)
      ensures ok <==> forall v :: v in packageQuantities ==> RowsTotal(selected, v) == packageQuantities[v]
    {
      var unchecked := packageQuantities.Keys;
      while unchecked != {}
        invariant unchecked <= packageQuantities.Keys
        invariant forall v :: v in packageQuantities && v !in unchecked ==>
                                RowsTotal(selected, v) == packageQuantities[v]
        decreases unchecked
      {
        var v :| v in unchecked;
        if RowsTotal(selected, v) != packageQuantities[v] { return false; }
        unchecked := unchecked - {v};
      }
      ok := true;
    }

    method ReleaseVendorOrderReservations(items: seq<Line>, rows: seq<Row>) returns (r: Outcome<nat, Problem>)
      modifies this`inventory, this`reservations, this`log
      ensures r == match ReleasePackage(old(Stocks()), items, rows)
                   case Ok(_) => Ok(|Selected(items, rows)|)
                   case Fail(e) => Fail(e)
      ensures r.Ok? ==> ReleasePackage(old(Stocks()), items, rows) == Ok(Stocks())
    {
      var packageQuantities := TallyPackage(items);
      var selected := SelectRows(items, packageQuantities, rows);
      var ok := TotalsMatch(packageQuantities, selected);
      assert ok <==> PackageMatches(items, selected) by {
        forall item | item in items ensures item.variantId in packageQuantities {
          assert InPackage(items, item.variantId);
        }
      }
      if !ok { return Fail(PackageInconsistent); }
      r := ReleaseOrderReservations(selected);
    }

    lemma OneMoreLine(items: seq<Line>, i: nat)
      requires i < |items|
      ensures forall v ::
                LinesQuantity(items[..i + 1], v)
                == LinesQuantity(items[..i], v) + (if items[i].variantId == v then items[i].quantity else 0)
      ensures forall v :: InPackage(items[..i + 1], v) <==> InPackage(items[..i], v) || items[i].variantId == v
      ensures forall v :: !InPackage(items[..i], v) ==> LinesQuantity(items[..i], v) == 0
    {
      assert items[..i + 1][..i] == items[..i];
      assert items[..i + 1] == items[..i] + [items[i]];
      forall v ensures !InPackage(items[..i], v) ==> LinesQuantity(items[..i], v) == 0 {
        if !InPackage(items[..i], v) { StockRunProofs.NoLine(items[..i], v); }
      }
      forall v ensures InPackage(items[..i + 1], v) <==> InPackage(items[..i], v) || items[i].variantId == v {
        OneMoreInPackage(items[..i], items[i], v);
      }
    }

    lemma OneMoreInPackage(items: seq<Line>, item: Line, v: VariantId)
      ensures InPackage(items + [item], v) <==> InPackage(items, v) || item.variantId == v
    {
      assert item in items + [item];
      if InPackage(items, v) {
        var x :| x in items && x.variantId == v;
        assert x in items + [item];
      }
    }

    // ----- admin.service.ts: updateInventory and bulkUpdateInventory -----

    /** The loop over the changes, against the rows read at the start of the transaction. */
    method WriteInventory(bulk: bool, changes: seq<Change>, before: map<VariantId, Inventory>)
      returns (r: Outcome<(), Problem>)
      modifies this
      ensures match WriteChanges(old(Stocks()), bulk, before, changes)
              case Ok(t) => r == Ok(()) && State() == SetTables(old(State()), t)
              case Fail(e) => r == Fail(e) && State() == old(State())
    {
      var start := State();
      var i := 0;
      while i < |changes|
        invariant 0 <= i <= |changes|
        invariant WriteChanges(Stocks(), bulk, before, changes[i..])
               == WriteChanges(old(Stocks()), bulk, before, changes)
        invariant State() == SetTables(old(State()), Stocks())
      {
        var c := changes[i];
        assert changes[i..][0] == c && changes[i..][1..] == changes[i + 1..];
        if c.variantId !in before { Restore(start); return Fail(InventoryNotFound); }
        var seen := before[c.variantId];
        if c.onHand < seen.reserved { Restore(start); return Fail(BelowReserved); }
        if c.variantId !in inventory || inventory[c.variantId].version != c.expectedVersion {
          Restore(start);
          return Fail(VersionConflict);
        }
        var item := inventory[c.variantId];
        inventory := inventory[c.variantId := Inventory(c.onHand, item.reserved, item.version + 1)];
        var quantity := c.onHand - seen.onHand;
        if quantity != 0 {
          if HasKey(log, AdminKey(bulk, c.variantId, c.expectedVersion)) {
            Restore(start);
            return Fail(DuplicateMovement);
          }
          log := log
          + [Movement(c.variantId, Adjustment, quantity, None, AdminKey(bulk, c.variantId, c.expectedVersion))];
        }
        i := i + 1;
      }
      r := Ok(());
    }

    // ----- catalog.service.ts: adjustInventory -----

    /** The transaction of a vendor's adjustment; `seen` is the row as it was read before the transaction began. */
    method AdjustInventory(c: Change, key: string, seen: Inventory) returns (r: Outcome<(), Problem>)
      modifies this`inventory, this`log
      ensures match WriteVendor(old(Stocks()), c, key, seen)
              case Ok(t) => r == Ok(()) && Stocks() == t
              case Fail(e) => r == Fail(e) && Stocks() == old(Stocks())
    {
      if HasKey(log, VendorKey(key)) { return Ok(()); }
      var quantity := c.onHand - seen.onHand;
      if c.variantId !in inventory || inventory[c.variantId].version != c.expectedVersion {
        return Fail(VersionConflict);
      }
      var item := inventory[c.variantId];
      inventory := inventory[c.variantId := Inventory(c.onHand, item.reserved, item.version + 1)];
      if quantity != 0 { log := log + [Movement(c.variantId, Adjustment, quantity, None, VendorKey(key))]; }
      r := Ok(());
    }

    // ----- reservation-expiry.scheduler.ts -----

    /**
     The loop of expire.  It leaves the reservation rows to the bulk update; `t` is the state of a loop that would
     update them row by row.
     */
    method ExpireLoop(rows: seq<Row>) returns (r: Outcome<(), Problem>, ghost t: Tables)
      requires forall i :: 0 <= i < |rows| ==> rows[i].id < |reservations|
      modifies this`inventory, this`log
      ensures match ApplyAll(Expire, old(Stocks()), rows)
              case Ok(t1) => r == Ok(()) && t == t1 && t.inventory == inventory && t.log == log
              case Fail(e) => r == Fail(e)
    {
      t := Stocks();
      var i := 0;
      while i < |rows|
        invariant 0 <= i <= |rows|
        invariant ApplyAll(Expire, t, rows[i..]) == ApplyAll(Expire, old(Stocks()), rows)
        invariant t.inventory == inventory && t.log == log && |t.reservations| == |reservations|
      {
        var row := rows[i];
        var x := row.reservation;
        assert rows[i..][0] == row && rows[i..][1..] == rows[i + 1..];
        if x.variantId !in inventory || inventory[x.variantId].reserved < x.quantity {
          return Fail(InventoryInconsistent), t;
        }
        if HasKey(log, ExpiryKey(row.id)) { return Fail(DuplicateMovement), t; }
        t := ExpireRow(t, row).value;
        var item := inventory[x.variantId];
        inventory := inventory[x.variantId := Inventory(item.onHand, item.reserved - x.quantity, item.version + 1)];
        log := log + [Movement(x.variantId, Release, x.quantity, None, ExpiryKey(row.id))];
        i := i + 1;
      }
      r := Ok(());
    }

    /** The loop of expire and the bulk update after it. */
    method ExpireReservations(orderId: OrderId, rows: seq<Row>) returns (r: Outcome<(), Problem>)
      requires Enumerates(Consume, Stocks(), orderId, rows)
      modifies this`inventory, this`reservations, this`log
      ensures match ApplyAll(Expire, old(Stocks()), rows)
              case Ok(t) => r == Ok(()) && Stocks() == t
              case Fail(e) => r == Fail(e)
    {
      forall i | 0 <= i < |rows| ensures rows[i].id < |reservations| { assert Current(Stocks(), rows[i]); }
      ghost var before := Stocks();
      ghost var t;
      r, t := ExpireLoop(rows);
      if r.Ok? {
        reservations := ExpireActive(reservations, orderId);
        ExpireMarks(before, rows);
        MarksAreBulkUpdate(before, orderId, rows, t.reservations);
      }
    }

    // ----- the transactions of the payment protocol -----

    /** The rows a query for the event's order would return, where the transaction does not get as far as asking. */
    ghost function QueryRows(e: Payments.Event): (rows: seq<Row>)
      reads this
    {
      if OrderOf(State(), e).Some? then ActiveRows(reservations, OrderOf(State(), e).value, |reservations|) else []
    }

    /** PaymentWebhookService.process: the answer says whether the event was a duplicate. */
    method ProcessWebhook(e: WebhookEvent) returns (r: Outcome<bool, PaymentProblem>, ghost rows: seq<Row>)
      modifies this
      ensures Allowed(old(State()), Webhook(e, rows))
      ensures match Process(old(State()), e, rows)
              case Ok(db) => r == Ok(e.id in old(webhooks)) && State() == db
              case Fail(x) => r == Fail(x) && State() == old(State())
    {
      var start := State();
      rows := QueryRows(Webhook(e, []));
      if Finds(start, e.paymentId) { ActiveRowsEnumerate(Stocks(), paymentOrders[e.paymentId]); }
      if e.id in webhooks { return Ok(true), rows; }
      if e.paymentId !in paymentOrders || paymentOrders[e.paymentId] !in orders { return Fail(PaymentNotFound), rows; }
      var id := paymentOrders[e.paymentId];
      var order := orders[id];
      if e.amountMinor != order.payment.amountMinor { return Fail(AmountMismatch), rows; }
      webhooks := webhooks + {e.id};
      if order.payment.status != Captured {
        if e.transactionId.Some? && TransactionTaken(orders, id, e.transactionId.value) {
          Restore(start);
          return Fail(DuplicateTransaction), rows;
        }
        order := order.(payment := UpdatePayment(order.payment, e));
        orders := orders[id := order];
        var problem;
        problem, rows := Settle(e, id, rows);
        if problem.Some? {
          Restore(start);
          return Fail(problem.value), rows;
        }
      }
      r := Ok(false);
    }

    /** What process does with the order; it may stop halfway, leaving the rollback to its caller. */
    method Settle(e: WebhookEvent, id: OrderId, ghost query: seq<Row>)
      returns (problem: Option<PaymentProblem>, ghost rows: seq<Row>)
      requires id in orders && Enumerates(Consume, Stocks(), id, query)
      modifies this
      ensures Enumerates(Consume, old(Stocks()), id, rows)
      ensures match SettleOrder(old(State()), e, id, rows)
              case Ok(db) => problem == None && State() == db
              case Fail(x) => problem == Some(x)
    {
      rows := query;
      var order := orders[id];
      if e.status == EventCaptured && order.status == Orders.PendingPayment {
        var consumed;
        consumed, rows := ConsumeOrderReservations(id);
        if consumed.Fail? { return Some(StockProblem(consumed.error)), rows; }
        if consumed.value > 0 {
          orders := orders[id := order.(status := Orders.Confirmed, version := order.version + 1)];
        } else {
          var key := Reference(e.paymentId, CaptureReference("capture", e));
          if key in verifications { return Some(DuplicateReference), rows; }
          verifications := verifications[key := ReconciliationRequired];
        }
      } else if e.status == EventCaptured && order.status == Orders.Cancelled {
        var key := Reference(e.paymentId, CaptureReference("late-capture", e));
        if key in verifications { return Some(DuplicateReference), rows; }
        verifications := verifications[key := ReconciliationRequired];
      } else if e.status != EventCaptured && order.status == Orders.PendingPayment {
        var found := FindActive(id);
        rows := found;
        var released := ReleaseOrderReservations(found);
        if released.Fail? { return Some(StockProblem(released.error)), rows; }
        orders :=
          orders[id := order.(status := Orders.Cancelled, packages := CancelAll(order.packages),
          version := order.version + 1)];
      }
      problem := None;
    }

    /** ReservationExpiryScheduler.expire. */
    method ExpireWindow(id: OrderId) returns (r: Outcome<(), PaymentProblem>, ghost rows: seq<Row>)
      modifies this
      ensures Allowed(old(State()), WindowCloses(id, rows))
      ensures match ExpireOrder(old(State()), id, rows)
              case Ok(db) => r == Ok(()) && State() == db
              case Fail(x) => r == Fail(x) && State() == old(State())
    {
      var start := State();
      var found := FindActive(id);
      rows := found;
      if id !in orders || orders[id].status != Orders.PendingPayment || found == [] { return Ok(()), rows; }
      var problem := CloseWindow(id, found);
      if problem.Some? {
        Restore(start);
        return Fail(problem.value), rows;
      }
      r := Ok(());
    }

    /** Expires the reservations and closes the order; it may stop halfway, leaving the rollback to its caller. */
    method CloseWindow(id: OrderId, rows: seq<Row>) returns (problem: Option<PaymentProblem>)
      requires id in orders && orders[id].status == Orders.PendingPayment && rows != []
               && Enumerates(Consume, Stocks(), id, rows)
      modifies this
      ensures match ExpireOrder(old(State()), id, rows)
              case Ok(db) => problem == None && State() == db
              case Fail(x) => problem == Some(x)
    {
      var expired := ExpireReservations(id, rows);
      if expired.Fail? { return Some(StockProblem(expired.error)); }
      CloseOrder(id);
      problem := None;
    }

    /** The order, its packages and its payment after the window has closed. */
    method CloseOrder(id: OrderId)
      requires id in orders
      modifies this`orders
      ensures var order, p := old(orders)[id], old(orders)[id].payment;
              orders == old(orders)[id := order.(status := Orders.Cancelled, packages := CancelOpen(order.packages),
              version := order.version + 1,
              payment := if Finished(p.status) then p else p.(status := TimedOut, version := p.version + 1))]
    {
      var order := orders[id];
      order := order.(packages := CancelOpen(order.packages));
      if !Finished(order.payment.status) {
        order := order.(payment := order.payment.(status := TimedOut, version := order.payment.version + 1));
      }
      orders := orders[id := order.(status := Orders.Cancelled, version := order.version + 1)];
    }

    /** AdminService.reviewPayment. */
    method ReviewPayment(key: Reference, approve: bool) returns (r: Outcome<(), PaymentProblem>, ghost rows: seq<Row>)
      modifies this
      ensures Allowed(old(State()), Decide(key, approve, rows))
      ensures match Review(old(State()), key, approve, rows)
              case Ok(db) => r == Ok(()) && State() == db
              case Fail(x) => r == Fail(x) && State() == old(State())
    {
      var start := State();
      rows := QueryRows(Decide(key, approve, []));
      if Finds(start, key.paymentId) { ActiveRowsEnumerate(Stocks(), paymentOrders[key.paymentId]); }
      if key !in verifications || key.paymentId !in paymentOrders || paymentOrders[key.paymentId] !in orders {
        return Fail(VerificationNotFound), rows;
      }
      if verifications[key] != Pending { return Fail(AlreadyReviewed), rows; }
      if !approve {
        verifications := verifications[key := Rejected];
        return Ok(()), rows;
      }
      var problem;
      problem, rows := Approve(key, rows);
      if problem.Some? {
        Restore(start);
        return Fail(problem.value), rows;
      }
      r := Ok(());
    }

    /** What reviewPayment does on approval; it may stop halfway, leaving the rollback to its caller. */
    method Approve(key: Reference, ghost query: seq<Row>)
      returns (problem: Option<PaymentProblem>, ghost rows: seq<Row>)
      requires key in verifications && verifications[key] == Pending && Finds(State(), key.paymentId)
      requires Enumerates(Consume, Stocks(), paymentOrders[key.paymentId], query)
      modifies this
      ensures Enumerates(Consume, old(Stocks()), old(paymentOrders)[key.paymentId], rows)
      ensures match Review(old(State()), key, true, rows)
              case Ok(db) => problem == None && State() == db
              case Fail(x) => problem == Some(x)
    {
      rows := query;
      var id := paymentOrders[key.paymentId];
      var order := orders[id];
      if order.status != Orders.PendingPayment { return Some(OrderNotPending), rows; }
      var consumed;
      consumed, rows := ConsumeOrderReservations(id);
      if consumed.Fail? { return Some(StockProblem(consumed.error)), rows; }
      if consumed.value == 0 { return Some(HoldMissing), rows; }
      order := order.(payment := order.payment.(status := Captured, version := order.payment.version + 1));
      orders := orders[id := order.(status := Orders.Confirmed, version := order.version + 1)];
      verifications := verifications[key := Approved];
      problem := None;
    }
  }

  function ActiveRows(rs: seq<Reservation>, orderId: OrderId, n: nat): seq<Row>
    requires n <= |rs|
  {
    if n == 0 then []
    else ActiveRows(rs, orderId, n - 1)
         + (if rs[n - 1].orderId == orderId && rs[n - 1].status == Active then [Row(n - 1, rs[n - 1])] else [])
  }

  /** Different active rows of the order among the first `n`. */
  ghost predicate SomeActive(rs: seq<Reservation>, orderId: OrderId, n: nat, rows: seq<Row>)
    requires n <= |rs|
  {
    && (forall i :: 0 <= i < |rows| ==> rows[i].id < n && rs[rows[i].id] == rows[i].reservation
                                        && rows[i].reservation.status == Active
                                        && rows[i].reservation.orderId == orderId)
    && (forall i, j :: 0 <= i < j < |rows| ==> rows[i].id != rows[j].id)
  }

  lemma {:induction false} ActiveRowsSound(rs: seq<Reservation>, orderId: OrderId, n: nat)
    requires n <= |rs|
    ensures SomeActive(rs, orderId, n, ActiveRows(rs, orderId, n))
  {
    if n > 0 {
      ActiveRowsSound(rs, orderId, n - 1);
      AnotherActive(rs, orderId, n - 1, ActiveRows(rs, orderId, n - 1));
    }
  }

  lemma AnotherActive(rs: seq<Reservation>, orderId: OrderId, n: nat, rows: seq<Row>)
    requires n < |rs| && SomeActive(rs, orderId, n, rows)
    ensures SomeActive(rs, orderId, n + 1, rows + [])
    ensures rs[n].orderId == orderId && rs[n].status == Active ==>
              SomeActive(rs, orderId, n + 1, rows + [Row(n, rs[n])])
  {
  }

  lemma {:induction false} ActiveRowsComplete(rs: seq<Reservation>, orderId: OrderId, n: nat, id: nat)
    requires id < n <= |rs| && rs[id].orderId == orderId && rs[id].status == Active
    ensures Lists(ActiveRows(rs, orderId, n), id)
  {
    var rows, less := ActiveRows(rs, orderId, n), ActiveRows(rs, orderId, n - 1);
    if id < n - 1 {
      ActiveRowsComplete(rs, orderId, n - 1, id);
      var i :| 0 <= i < |less| && less[i].id == id;
      assert rows[i].id == id;
    } else {
      assert rows[|less|].id == id;
    }
  }

  lemma ActiveRowsEnumerate(t: Tables, orderId: OrderId)
    ensures Enumerates(Consume, t, orderId, ActiveRows(t.reservations, orderId, |t.reservations|))
  {
    ActiveRowsSound(t.reservations, orderId, |t.reservations|);
    var rows := ActiveRows(t.reservations, orderId, |t.reservations|);
    forall id: nat | id < |t.reservations| && t.reservations[id].orderId == orderId
                     && Accepts(Consume, t.reservations[id].status)
      ensures exists i :: 0 <= i < |rows| && rows[i].id == id
    {
      ActiveRowsComplete(t.reservations, orderId, |t.reservations|, id);
    }
  }

  /** The bulk update: every active reservation of the order expires. */
  function ExpireActive(rs: seq<Reservation>, orderId: OrderId): seq<Reservation> {
    seq(|rs|, i requires 0 <= i < |rs| =>
      if rs[i].orderId == orderId && rs[i].status == Active then rs[i].(status := Expired) else rs[i])
  }

  lemma {:induction false} ExpireMarks(t: Tables, rows: seq<Row>)
    requires forall i :: 0 <= i < |rows| ==> rows[i].id < |t.reservations|
    requires ApplyAll(Expire, t, rows).Ok?
    ensures Marked(t.reservations, rows, Expired, ApplyAll(Expire, t, rows).value.reservations)
    decreases |rows|
  {
    if rows != [] {
      ExpireMarks(ExpireRow(t, rows[0]).value, rows[1..]);
      MarkedStep(Expire, t.reservations, rows, ApplyAll(Expire, t, rows).value.reservations);
    }
  }

  lemma MarksAreBulkUpdate(t: Tables, orderId: OrderId, rows: seq<Row>, after: seq<Reservation>)
    requires Enumerates(Consume, t, orderId, rows) && Marked(t.reservations, rows, Expired, after)
    ensures after == ExpireActive(t.reservations, orderId)
  {
    forall id: nat | id < |t.reservations|
      ensures Lists(rows, id) <==> t.reservations[id].orderId == orderId && t.reservations[id].status == Active
    {
      if i :| 0 <= i < |rows| && rows[i].id == id {
        assert Current(t, rows[i]) && Accepts(Consume, rows[i].reservation.status);
      }
      assert Accepts(Consume, t.reservations[id].status) <==> t.reservations[id].status == Active;
    }
  }
}
