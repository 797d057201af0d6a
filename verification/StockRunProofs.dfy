/**
 The laws of stock over whole runs: `reserved` is the sum of the active reservations, it never exceeds the units
 on hand, no unit moves without a movement, and the inconsistency guards never fire.
 */
module StockRunProofs {
  import opened Wrappers
  import opened Stock
  import opened StockProofs
  import opened StockRuns

  lemma LaterTransitive(t0: Tables, t1: Tables, t2: Tables)
    requires GoodStep(t0, t1) && GoodStep(t1, t2)
    ensures GoodStep(t0, t2)
  {
  }

  lemma SeenStaysSound(t: Tables, t1: Tables, e: Edit)
    requires EditSound(t, e) && Later(t, t1)
    ensures EditSound(t1, e)
  {
  }

  // ----- reservation loops -----

  lemma ApplyAllGood(op: RowOperation, t: Tables, rows: seq<Row>)
    requires Consistent(t) && Readable(op, t, rows) && ApplyAll(op, t, rows).Ok?
    ensures GoodStep(t, ApplyAll(op, t, rows).value)
    ensures Bounded(t) ==> Bounded(ApplyAll(op, t, rows).value)
  {
    ApplyAllKeeps(op, t, rows);
    var t1 := ApplyAll(op, t, rows).value;
    forall v | v in t.inventory
      ensures t.inventory[v].version <= t1.inventory[v].version
      ensures t.inventory[v].version == t1.inventory[v].version ==> t.inventory[v] == t1.inventory[v]
    {
      ApplyAllStock(op, t, rows, v);
      UntouchedQuantity(rows, Pick(None, v, Active));
      UntouchedQuantity(rows, Pick(None, v, Consumed));
    }
  }

  // ----- checkout -----

  lemma ReserveLineReserved(t: Tables, order: OrderId, line: Line)
    requires ReservedMatches(t) && ReserveLine(t, order, line).Ok?
    ensures ReservedMatches(ReserveLine(t, order, line).value)
  {
    var t1 := ReserveLine(t, order, line).value;
    var r := Reservation(order, line.variantId, line.quantity, Active);
    forall x | x in t1.reservations ensures x.variantId in t1.inventory { assert x in t.reservations || x == r; }
    forall v | v in t1.inventory ensures t1.inventory[v].reserved == Held(t1, v, Active) {
      ReservedItem(t, order, line, v);
    }
  }

  lemma ReservedItem(t: Tables, order: OrderId, line: Line, v: VariantId)
    requires v in t.inventory && t.inventory[v].reserved == Held(t, v, Active) && ReserveLine(t, order, line).Ok?
    ensures var t1 := ReserveLine(t, order, line).value; v in t1.inventory
                                                         && t1.inventory[v].reserved == Held(t1, v, Active)
  {
    QuantityAppend(t.reservations, Reservation(order, line.variantId, line.quantity, Active), Pick(None, v, Active));
  }

  lemma ReserveLineGood(t: Tables, order: OrderId, line: Line)
    requires Consistent(t) && ReserveLine(t, order, line).Ok?
    ensures GoodStep(t, ReserveLine(t, order, line).value)
    ensures Bounded(t) ==> Bounded(ReserveLine(t, order, line).value)
  {
    ReserveLineReserved(t, order, line);
    ReserveLineLog(t, order, line);
    ReserveLineStock(t, order, line);
  }

  lemma ReserveLineLog(t: Tables, order: OrderId, line: Line)
    requires Consistent(t) && ReserveLine(t, order, line).Ok?
    ensures var t1 := ReserveLine(t, order, line).value; LogMirrorsStatus(t1) && KeysUnique(t1.log) && AdminKeysPast(t1)
  {
    var t1 := ReserveLine(t, order, line).value;
    var m := Movement(line.variantId, Reserve, line.quantity, None, CheckoutKey(order, line.variantId));
    forall i | 0 <= i < |t.log| ensures t.log[i].key != m.key { assert t.log[i] in t.log; }
    forall key ensures HasKey(t1.log, key) <==> HasKey(t.log, key) || m.key == key { HasKeyAppend(t.log, m, key); }
  }

  lemma ReserveLineStock(t: Tables, order: OrderId, line: Line)
    requires ReserveLine(t, order, line).Ok?
    ensures var t1 := ReserveLine(t, order, line).value;
            Later(t, t1) && SameOpening(t, t1) && (Bounded(t) ==> Bounded(t1))
  {
    var t1 := ReserveLine(t, order, line).value;
    var m := Movement(line.variantId, Reserve, line.quantity, None, CheckoutKey(order, line.variantId));
    forall v | v in t.inventory ensures OpeningStock(t1, v) == OpeningStock(t, v) { EffectAppend(t.log, m, v); }
  }

  lemma {:induction false} ReserveAllGood(t: Tables, order: OrderId, lines: seq<Line>)
    requires Consistent(t) && ReserveAll(t, order, lines).Ok?
    ensures GoodStep(t, ReserveAll(t, order, lines).value)
    ensures Bounded(t) ==> Bounded(ReserveAll(t, order, lines).value)
    decreases |lines|
  {
    if lines != [] {
      var t1 := ReserveLine(t, order, lines[0]).value;
      ReserveLineGood(t, order, lines[0]);
      ReserveAllGood(t1, order, lines[1..]);
      LaterTransitive(t, t1, ReserveAll(t1, order, lines[1..]).value);
    }
  }

  // ----- package release -----

  lemma {:induction false} SelectedRows(items: seq<Line>, rows: seq<Row>)
    ensures forall x :: x in Selected(items, rows) <==> x in rows && InPackage(items, x.reservation.variantId)
  {
    if rows != [] { SelectedRows(items, rows[1..]); }
  }

  lemma {:induction false} SelectedReadable(t: Tables, items: seq<Line>, rows: seq<Row>)
    requires Readable(GiveBack, t, rows)
    ensures Readable(GiveBack, t, Selected(items, rows))
  {
    if rows != [] {
      var rest := Selected(items, rows[1..]);
      SelectedReadable(t, items, rows[1..]);
      SelectedRows(items, rows[1..]);
      forall i | 0 <= i < |rest| ensures rest[i].id != rows[0].id {
        assert rest[i] in rows[1..];
      }
    }
  }

  lemma {:induction false} RowsTotalSplits(op: RowOperation, t: Tables, rows: seq<Row>, v: VariantId)
    requires Readable(op, t, rows)
    ensures RowsTotal(rows, v)
         == RowsQuantity(rows, Pick(None, v, Active)) + RowsQuantity(rows, Pick(None, v, Consumed))
  {
    if rows != [] {
      assert Accepts(op, rows[0].reservation.status);
      RowsTotalSplits(op, t, rows[1..], v);
    }
  }

  lemma {:induction false} NoLine(items: seq<Line>, v: VariantId)
    requires !InPackage(items, v)
    ensures LinesQuantity(items, v) == 0
  {
    if items != [] {
      assert items[|items| - 1] in items;
      assert forall item :: item in items[..|items| - 1] ==> item in items;
      NoLine(items[..|items| - 1], v);
    }
  }

  lemma {:induction false} NoRow(items: seq<Line>, rows: seq<Row>, v: VariantId)
    requires !InPackage(items, v)
    ensures RowsTotal(Selected(items, rows), v) == 0
  {
    if rows != [] {
      NoRow(items, rows[1..], v);
      var rest := Selected(items, rows[1..]);
      assert ([rows[0]] + rest)[1..] == rest && [] + rest == rest;
    }
  }

  function Available(t: Tables, v: VariantId): int
    requires v in t.inventory
  {
    t.inventory[v].onHand - t.inventory[v].reserved
  }

  /** A package release either changes nothing or makes available exactly the package's quantity of every variant. */
  lemma PackageReleaseExact(t: Tables, items: seq<Line>, rows: seq<Row>, v: VariantId)
    requires Consistent(t) && Readable(GiveBack, t, rows) && v in t.inventory
    ensures ReleasePackage(t, items, rows).Ok? <==> PackageMatches(items, Selected(items, rows))
    ensures ReleasePackage(t, items, rows).Ok? ==>
              && v in ReleasePackage(t, items, rows).value.inventory
              && Available(ReleasePackage(t, items, rows).value, v) == Available(t, v) + LinesQuantity(items, v)
    ensures ReleasePackage(t, items, rows).Ok? && (forall row :: row in rows ==> row.reservation.status == Consumed) ==>
              && ReleasePackage(t, items, rows).value.inventory[v].onHand
                 == t.inventory[v].onHand + LinesQuantity(items, v)
              && ReleasePackage(t, items, rows).value.inventory[v].reserved == t.inventory[v].reserved
  {
    var chosen := Selected(items, rows);
    SelectedReadable(t, items, rows);
    ApplyAllSucceeds(GiveBack, t, chosen);
    if ReleasePackage(t, items, rows).Ok? {
      ApplyAllStock(GiveBack, t, chosen, v);
      RowsTotalSplits(GiveBack, t, chosen, v);
      if InPackage(items, v) {
        var item :| item in items && item.variantId == v;
        assert RowsTotal(chosen, item.variantId) == LinesQuantity(items, item.variantId);
      } else {
        NoLine(items, v);
        NoRow(items, rows, v);
      }
      if forall row :: row in rows ==> row.reservation.status == Consumed {
        SelectedRows(items, rows);
        NoneActive(chosen, v);
      }
    }
  }

  lemma {:induction false} NoneActive(rows: seq<Row>, v: VariantId)
    requires forall row :: row in rows ==> row.reservation.status == Consumed
    ensures RowsQuantity(rows, Pick(None, v, Active)) == 0
  {
    if rows != [] {
      assert rows[0] in rows;
      NoneActive(rows[1..], v);
    }
  }

  // ----- stock edits -----

  /** The version check makes a stale read harmless: the row written is the row that was read. */
  lemma WriteChangeGood(t: Tables, bulk: bool, seen: Inventory, c: Change)
    requires Consistent(t) && SeenSound(t, c, seen)
    ensures WriteChange(t, bulk, seen, c) ==
            if c.onHand < seen.reserved then Fail(BelowReserved)
            else if t.inventory[c.variantId].version != c.expectedVersion then Fail(VersionConflict)
            else Ok(WriteChange(t, bulk, seen, c).value)
    ensures WriteChange(t, bulk, seen, c).Ok? ==>
              && seen == t.inventory[c.variantId]
              && GoodStep(t, WriteChange(t, bulk, seen, c).value)
              && (Bounded(t) ==> Bounded(WriteChange(t, bulk, seen, c).value))
  {
    var key := AdminKey(bulk, c.variantId, c.expectedVersion);
    if WriteChange(t, bulk, seen, c).Ok? {
      var t1 := WriteChange(t, bulk, seen, c).value;
      if t1.log == t.log {
        assert forall v :: v in t.inventory ==> OpeningStock(t1, v) == OpeningStock(t, v);
      } else {
        AdjustmentGood(t, t1, Movement(c.variantId, Adjustment, c.onHand - seen.onHand, None, key));
      }
    }
  }

  /** Logging an adjustment under a fresh key, for a row whose `onHand` changed by that much. */
  lemma AdjustmentGood(t: Tables, t1: Tables, m: Movement)
    requires Consistent(t) && !HasKey(t.log, m.key) && m.kind == Adjustment && m.variantId in t.inventory
    requires m.key.VendorKey?
             || (m.key.AdminKey? && m.key.variantId == m.variantId && m.key.version == t.inventory[m.variantId].version)
    requires var item := t.inventory[m.variantId];
             t1 == Tables(t.inventory[m.variantId := Inventory(item.onHand + m.quantity, item.reserved,
                                                               item.version + 1)],
                          t.reservations, t.log + [m])
    ensures GoodStep(t, t1)
  {
    forall v | v in t.inventory ensures OpeningStock(t1, v) == OpeningStock(t, v) { EffectAppend(t.log, m, v); }
    AdjustmentLog(t, t1, m);
  }

  lemma AdjustmentLog(t: Tables, t1: Tables, m: Movement)
    requires Consistent(t) && !HasKey(t.log, m.key) && m.variantId in t.inventory
    requires m.key.VendorKey?
             || (m.key.AdminKey? && m.key.variantId == m.variantId && m.key.version == t.inventory[m.variantId].version)
    requires t1.log == t.log + [m] && t1.reservations == t.reservations && t1.inventory.Keys == t.inventory.Keys
    requires forall v :: v in t.inventory ==> t.inventory[v].version <= t1.inventory[v].version
    requires t.inventory[m.variantId].version < t1.inventory[m.variantId].version
    ensures LogMirrorsStatus(t1) && KeysUnique(t1.log) && AdminKeysPast(t1)
  {
    forall i | 0 <= i < |t.log| ensures t.log[i].key != m.key { assert t.log[i] in t.log; }
    forall key ensures HasKey(t1.log, key) <==> HasKey(t.log, key) || m.key == key { HasKeyAppend(t.log, m, key); }
  }

  lemma {:induction false} WriteChangesGood(t: Tables, bulk: bool, before: map<VariantId, Inventory>,
                                            changes: seq<Change>)
    requires Consistent(t) && EditSound(t, AdminEdit(bulk, changes, before))
    requires WriteChanges(t, bulk, before, changes).Ok?
    ensures GoodStep(t, WriteChanges(t, bulk, before, changes).value)
    ensures Bounded(t) ==> Bounded(WriteChanges(t, bulk, before, changes).value)
    decreases |changes|
  {
    if changes != [] {
      var c, rest := changes[0], changes[1..];
      assert c in changes;
      WriteChangeGood(t, bulk, before[c.variantId], c);
      var t1 := WriteChange(t, bulk, before[c.variantId], c).value;
      assert forall x :: x in rest ==> x in changes;
      SeenStaysSound(t, t1, AdminEdit(bulk, rest, before));
      WriteChangesGood(t1, bulk, before, rest);
      LaterTransitive(t, t1, WriteChanges(t1, bulk, before, rest).value);
    }
  }

  /** A vendor's write logs what it does, and keeps the reserved bound exactly when it asks for enough stock. */
  lemma WriteVendorGood(t: Tables, c: Change, key: string, seen: Inventory)
    requires Consistent(t) && SeenSound(t, c, seen) && WriteVendor(t, c, key, seen).Ok?
    ensures GoodStep(t, WriteVendor(t, c, key, seen).value)
    ensures Bounded(t) && !HasKey(t.log, VendorKey(key)) ==>
              (Bounded(WriteVendor(t, c, key, seen).value) <==> c.onHand >= t.inventory[c.variantId].reserved)
  {
    var t1 := WriteVendor(t, c, key, seen).value;
    if t1.log == t.log {
      assert forall v :: v in t.inventory ==> OpeningStock(t1, v) == OpeningStock(t, v);
    } else {
      AdjustmentGood(t, t1, Movement(c.variantId, Adjustment, c.onHand - seen.onHand, None, VendorKey(key)));
    }
    if Bounded(t) && !HasKey(t.log, VendorKey(key)) { WriteVendorBound(t, c, key, seen); }
  }

  lemma WriteVendorBound(t: Tables, c: Change, key: string, seen: Inventory)
    requires Bounded(t) && !HasKey(t.log, VendorKey(key)) && WriteVendor(t, c, key, seen).Ok?
    ensures c.variantId in t.inventory
    ensures Bounded(WriteVendor(t, c, key, seen).value) <==> c.onHand >= t.inventory[c.variantId].reserved
  {
    assert c.variantId in WriteVendor(t, c, key, seen).value.inventory;
  }

  // ----- steps and runs -----

  lemma StepGood(w: World, e: Event)
    requires Inv(w) && Legal(w, e)
    ensures GoodStep(w.tables, Next(w, e).tables)
    ensures !VendorWrites(w, e) && Bounded(w.tables) ==> Bounded(Next(w, e).tables)
  {
    var t := w.tables;
    match e
    case Checkout(order, lines) =>
      if ReserveAll(t, order, lines).Ok? { ReserveAllGood(t, order, lines); }
    case ApplyRows(op, rows) =>
      if ApplyAll(op, t, rows).Ok? { ApplyAllGood(op, t, rows); }
    case ReleaseItems(items, rows) =>
      SelectedReadable(t, items, rows);
      if ApplyAll(GiveBack, t, Selected(items, rows)).Ok? { ApplyAllGood(GiveBack, t, Selected(items, rows)); }
    case AdminRead(_, _) =>
    case VendorRead(_, _) =>
    case Write(i) =>
      if i < |w.edits| && WriteEdit(t, w.edits[i]).Ok? {
        assert w.edits[i] in w.edits;
        match w.edits[i]
        case AdminEdit(bulk, changes, before) => WriteChangesGood(t, bulk, before, changes);
        case VendorEdit(c, key, seen) => WriteVendorGood(t, c, key, seen);
      }
  }

  lemma StepKeepsInv(w: World, e: Event)
    requires Inv(w) && Legal(w, e)
    ensures Inv(Next(w, e))
  {
    StepGood(w, e);
    forall d | d in Next(w, e).edits ensures EditSound(Next(w, e).tables, d) {
      if d in w.edits { SeenStaysSound(w.tables, Next(w, e).tables, d); }
    }
  }

  /**
   Over every legal run: `reserved` stays the sum of the active quantities, each variant's stock stays its opening
   stock plus the effect of the log, and while no vendor edit is written `0 <= reserved <= onHand` holds throughout.
   */
  lemma {:induction false} RunKeepsInv(w: World, es: seq<Event>)
    requires Inv(w) && LegalRun(w, es)
    ensures Inv(Run(w, es)) && GoodStep(w.tables, Run(w, es).tables)
    ensures Bounded(w.tables) && NoVendorWrites(w, es) ==> Bounded(Run(w, es).tables)
    decreases |es|
  {
    if es != [] {
      StepGood(w, es[0]);
      StepKeepsInv(w, es[0]);
      RunKeepsInv(Next(w, es[0]), es[1..]);
      LaterTransitive(w.tables, Next(w, es[0]).tables, Run(w, es).tables);
    }
  }

  /** A shop that opens with stock, no reservations and an empty log. */
  ghost predicate Opening(w: World) {
    && w.tables.reservations == [] && w.tables.log == [] && w.edits == []
    && forall v :: v in w.tables.inventory ==> w.tables.inventory[v].reserved == 0 <= w.tables.inventory[v].onHand
  }

  lemma OpeningInv(w: World)
    requires Opening(w)
    ensures Inv(w) && Bounded(w.tables)
  {
  }

  lemma StockLaw(w: World, es: seq<Event>, v: VariantId)
    requires Opening(w) && LegalRun(w, es) && v in w.tables.inventory
    ensures v in Run(w, es).tables.inventory
    ensures var t := Run(w, es).tables;
            && t.inventory[v].reserved == Held(t, v, Active)
            && t.inventory[v].onHand == w.tables.inventory[v].onHand + LedgerEffect(t.log, v)
            && (NoVendorWrites(w, es) ==> 0 <= t.inventory[v].reserved <= t.inventory[v].onHand)
  {
    OpeningInv(w);
    RunKeepsInv(w, es);
    assert OpeningStock(Run(w, es).tables, v) == OpeningStock(w.tables, v);
  }

  /** No inconsistency guard can fire: in every reachable state, every row operation on rows read there succeeds. */
  lemma GuardsNeverFire(w: World, es: seq<Event>, op: RowOperation, rows: seq<Row>)
    requires Opening(w) && LegalRun(w, es) && NoVendorWrites(w, es)
    requires Readable(op, Run(w, es).tables, rows)
    ensures ApplyAll(op, Run(w, es).tables, rows).Ok?
  {
    OpeningInv(w);
    RunKeepsInv(w, es);
    NoRefusal(op, Run(w, es).tables, rows);
  }

  lemma {:induction false} NoRefusal(op: RowOperation, t: Tables, rows: seq<Row>)
    requires Consistent(t) && Bounded(t) && Readable(op, t, rows)
    ensures ApplyAll(op, t, rows).Ok?
    decreases |rows|
  {
    if rows != [] {
      var r := rows[0].reservation;
      assert Accepts(op, r.status);
      QuantityCovers(t.reservations, rows[0].id, Pick(None, r.variantId, Active));
      RowSucceeds(op, t, rows[0]);
      RowKeeps(op, t, rows[0]);
      RestReadable(op, t, rows);
      NoRefusal(op, ApplyRow(op, t, rows[0]).value, rows[1..]);
    }
  }

  /** Vendor edits included: an order's units can be consumed exactly when every variant still has them on hand. */
  lemma ConsumeExactly(w: World, es: seq<Event>, order: OrderId, rows: seq<Row>)
    requires Opening(w) && LegalRun(w, es) && Enumerates(Consume, Run(w, es).tables, order, rows)
    ensures var t := Run(w, es).tables;
            ApplyAll(Consume, t, rows).Ok? <==>
            forall v :: v in t.inventory && Touches(rows, v) > 0 ==>
                          Quantity(t.reservations, Pick(Some(order), v, Active)) <= t.inventory[v].onHand
  {
    OpeningInv(w);
    RunKeepsInv(w, es);
    var t := Run(w, es).tables;
    ApplyAllSucceeds(Consume, t, rows);
    forall v | v in t.inventory
      ensures RowsQuantity(rows, Pick(None, v, Active)) == Quantity(t.reservations, Pick(Some(order), v, Active))
    {
      EnumerationQuantity(Consume, t, order, rows, Pick(Some(order), v, Active));
      OrderRows(rows, order, v, Active);
    }
  }

  lemma {:induction false} OrderRows(rows: seq<Row>, order: OrderId, v: VariantId, status: ReservationStatus)
    requires forall i :: 0 <= i < |rows| ==> rows[i].reservation.orderId == order
    ensures RowsQuantity(rows, Pick(None, v, status)) == RowsQuantity(rows, Pick(Some(order), v, status))
  {
    if rows != [] { OrderRows(rows[1..], order, v, status); }
  }
}
