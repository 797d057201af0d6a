/**
 Exactly when a checkout or a stock edit is accepted as a whole, and all that an accepted one writes.
 */
module StockWrites {
  import opened Wrappers
  import opened Stock
  import opened StockProofs
  import opened StockRuns
  import opened StockRunProofs

  // ----- checkout -----

  /** The line can be reserved for the order: its variant has the units to spare and was not reserved for it before. */
  predicate Free(t: Tables, order: OrderId, line: Line) {
    && line.variantId in t.inventory
    && line.quantity <= t.inventory[line.variantId].onHand - t.inventory[line.variantId].reserved
    && !HasKey(t.log, CheckoutKey(order, line.variantId))
  }

  ghost predicate AllFree(t: Tables, order: OrderId, lines: seq<Line>) {
    && (forall i :: 0 <= i < |lines| ==> Free(t, order, lines[i]))
    && (forall i, j :: 0 <= i < j < |lines| ==> lines[i].variantId != lines[j].variantId)
  }

  lemma FreeAfter(t: Tables, order: OrderId, first: Line, line: Line)
    requires ReserveLine(t, order, first).Ok?
    ensures Free(ReserveLine(t, order, first).value, order, line)
       <==> Free(t, order, line) && line.variantId != first.variantId
  {
    var m := Movement(first.variantId, Reserve, first.quantity, None, CheckoutKey(order, first.variantId));
    HasKeyAppend(t.log, m, CheckoutKey(order, line.variantId));
  }

  lemma AllFreeFirst(t: Tables, order: OrderId, lines: seq<Line>)
    requires lines != []
    ensures !Free(t, order, lines[0]) ==> !AllFree(t, order, lines)
    ensures Free(t, order, lines[0]) ==>
              ReserveLine(t, order, lines[0]).Ok?
              && (AllFree(t, order, lines) <==> AllFree(ReserveLine(t, order, lines[0]).value, order, lines[1..]))
  {
    if Free(t, order, lines[0]) {
      var t1 := ReserveLine(t, order, lines[0]).value;
      forall i | 0 < i < |lines|
        ensures Free(t1, order, lines[i]) <==> Free(t, order, lines[i]) && lines[i].variantId != lines[0].variantId
      {
        FreeAfter(t, order, lines[0], lines[i]);
      }
      if AllFree(t1, order, lines[1..]) {
        forall i | 0 <= i < |lines| ensures Free(t, order, lines[i]) {
          if i > 0 { assert Free(t1, order, lines[1..][i - 1]); }
        }
        forall i, j | 0 <= i < j < |lines| ensures lines[i].variantId != lines[j].variantId {
          assert Free(t1, order, lines[1..][j - 1]);
          if i > 0 { assert lines[1..][i - 1].variantId != lines[1..][j - 1].variantId; }
        }
      }
    }
  }

  /** A checkout is accepted exactly when every line can be reserved and no variant comes twice. */
  lemma {:induction false} ReservesExactly(t: Tables, order: OrderId, lines: seq<Line>)
    ensures ReserveAll(t, order, lines).Ok? <==> AllFree(t, order, lines)
    decreases |lines|
  {
    if lines != [] {
      AllFreeFirst(t, order, lines);
      if Free(t, order, lines[0]) { ReservesExactly(ReserveLine(t, order, lines[0]).value, order, lines[1..]); }
    }
  }

  function NewRows(order: OrderId, lines: seq<Line>): seq<Reservation> {
    seq(|lines|, i requires 0 <= i < |lines| => Reservation(order, lines[i].variantId, lines[i].quantity, Active))
  }

  function NewMovements(order: OrderId, lines: seq<Line>): seq<Movement> {
    seq(|lines|, i requires 0 <= i < |lines| =>
      Movement(lines[i].variantId, Reserve, lines[i].quantity, None, CheckoutKey(order, lines[i].variantId)))
  }

  /** An accepted checkout adds one active row and one movement for each line, in order. */
  lemma {:induction false} ReservesLines(t: Tables, order: OrderId, lines: seq<Line>)
    requires ReserveAll(t, order, lines).Ok?
    ensures ReserveAll(t, order, lines).value.reservations == t.reservations + NewRows(order, lines)
    ensures ReserveAll(t, order, lines).value.log == t.log + NewMovements(order, lines)
    decreases |lines|
  {
    if lines != [] {
      ReservesLines(ReserveLine(t, order, lines[0]).value, order, lines[1..]);
      assert NewRows(order, lines) == NewRows(order, lines[..1]) + NewRows(order, lines[1..]);
      assert NewMovements(order, lines) == NewMovements(order, lines[..1]) + NewMovements(order, lines[1..]);
    }
  }

  /** It holds each line's quantity back, once, and leaves every other variant alone. */
  lemma {:induction false} ReservesUnits(t: Tables, order: OrderId, lines: seq<Line>, v: VariantId)
    requires ReserveAll(t, order, lines).Ok? && v in t.inventory
    ensures v in ReserveAll(t, order, lines).value.inventory
    ensures var was, now := t.inventory[v], ReserveAll(t, order, lines).value.inventory[v];
            && now.onHand == was.onHand && now.reserved == was.reserved + LinesQuantity(lines, v)
            && now.version == was.version + if InPackage(lines, v) then 1 else 0
    decreases |lines|
  {
    ReservesExactly(t, order, lines);
    if lines != [] {
      ReservesUnits(ReserveLine(t, order, lines[0]).value, order, lines[1..], v);
      FirstQuantity(lines, v);
      if InPackage(lines[1..], v) {
        var item :| item in lines[1..] && item.variantId == v;
        assert item in lines;
        var k :| 0 <= k < |lines[1..]| && lines[1..][k] == item;
        assert lines[0].variantId != lines[k + 1].variantId;
      }
      assert InPackage(lines, v) <==> lines[0].variantId == v || InPackage(lines[1..], v) by {
        assert lines == [lines[0]] + lines[1..];
      }
    }
  }

  lemma {:induction false} FirstQuantity(lines: seq<Line>, v: VariantId)
    requires lines != []
    ensures LinesQuantity(lines, v)
         == (if lines[0].variantId == v then lines[0].quantity else 0) + LinesQuantity(lines[1..], v)
  {
    if |lines| > 1 {
      var n := |lines| - 1;
      FirstQuantity(lines[..n], v);
      assert lines[1..][..n - 1] == lines[..n][1..];
    }
  }

  // ----- the administrator's edits -----

  /** The stock asked for covers what was reserved, and the version named is the current one. */
  predicate Fits(t: Tables, before: map<VariantId, Inventory>, c: Change) {
    && c.variantId in before && c.variantId in t.inventory
    && before[c.variantId].reserved <= c.onHand && t.inventory[c.variantId].version == c.expectedVersion
  }

  ghost predicate AllFit(t: Tables, before: map<VariantId, Inventory>, changes: seq<Change>) {
    && (forall i :: 0 <= i < |changes| ==> Fits(t, before, changes[i]))
    && (forall i, j :: 0 <= i < j < |changes| ==> changes[i].variantId != changes[j].variantId)
  }

  ghost predicate AllSeen(t: Tables, before: map<VariantId, Inventory>, changes: seq<Change>) {
    forall i :: 0 <= i < |changes| ==>
                  changes[i].variantId in before && SeenSound(t, changes[i], before[changes[i].variantId])
  }

  lemma WriteChangeWrites(t: Tables, bulk: bool, seen: Inventory, c: Change, to: Tables)
    requires c.variantId in t.inventory && seen == t.inventory[c.variantId] && WriteChange(t, bulk, seen, c).Ok?
    requires to == Tables(t.inventory[c.variantId := Edited(t, c)], t.reservations, t.log + AdjustmentOf(t, bulk, c))
    ensures WriteChange(t, bulk, seen, c) == Ok(to)
  {
    assert t.log + [] == t.log;
  }

  /** An accepted change sets its own stock row, from what it is now, and logs the difference if there is one. */
  lemma WriteChangeSets(t: Tables, bulk: bool, before: map<VariantId, Inventory>, c: Change)
    requires Consistent(t) && c.variantId in before && SeenSound(t, c, before[c.variantId])
    ensures var r := WriteChange(t, bulk, before[c.variantId], c);
            && (r.Ok? <==> Fits(t, before, c))
            && (r.Ok? ==> r.value == Tables(t.inventory[c.variantId := Edited(t, c)], t.reservations,
                                            t.log + AdjustmentOf(t, bulk, c)))
  {
    WriteChangeGood(t, bulk, before[c.variantId], c);
    if WriteChange(t, bulk, before[c.variantId], c).Ok? {
      WriteChangeWrites(t, bulk, before[c.variantId], c,
                        Tables(t.inventory[c.variantId := Edited(t, c)], t.reservations,
                               t.log + AdjustmentOf(t, bulk, c)));
    }
  }

  function Edited(t: Tables, c: Change): Inventory
    requires c.variantId in t.inventory
  {
    Inventory(c.onHand, t.inventory[c.variantId].reserved, t.inventory[c.variantId].version + 1)
  }

  ghost predicate AllIn(t: Tables, changes: seq<Change>) {
    forall i :: 0 <= i < |changes| ==> changes[i].variantId in t.inventory
  }

  /** The adjustment of a change that changes the units on hand. */
  function AdjustmentOf(t: Tables, bulk: bool, c: Change): seq<Movement>
    requires c.variantId in t.inventory
  {
    var units := c.onHand - t.inventory[c.variantId].onHand;
    if units == 0 then []
    else [Movement(c.variantId, Adjustment, units, None, AdminKey(bulk, c.variantId, c.expectedVersion))]
  }

  ghost function Adjustments(t: Tables, bulk: bool, changes: seq<Change>): seq<Movement>
    requires AllIn(t, changes)
  {
    if changes == [] then [] else AdjustmentOf(t, bulk, changes[0]) + Adjustments(t, bulk, changes[1..])
  }

  lemma FitsAfter(t: Tables, t1: Tables, before: map<VariantId, Inventory>, first: Change, c: Change)
    requires first.variantId in t.inventory && t1.inventory == t.inventory[first.variantId := Edited(t, first)]
    requires t.inventory[first.variantId].version == first.expectedVersion
    requires c.variantId in before && SeenSound(t, c, before[c.variantId])
    ensures SeenSound(t1, c, before[c.variantId])
    ensures Fits(t1, before, c) <==> Fits(t, before, c) && c.variantId != first.variantId
  {
  }

  lemma AllFitFirst(t: Tables, t1: Tables, before: map<VariantId, Inventory>, changes: seq<Change>)
    requires changes != [] && AllSeen(t, before, changes) && Fits(t, before, changes[0])
    requires t1.inventory == t.inventory[changes[0].variantId := Edited(t, changes[0])]
    ensures AllSeen(t1, before, changes[1..])
    ensures AllFit(t, before, changes) <==> AllFit(t1, before, changes[1..])
  {
    forall i | 0 < i < |changes|
      ensures SeenSound(t1, changes[i], before[changes[i].variantId])
      ensures Fits(t1, before, changes[i])
         <==> Fits(t, before, changes[i]) && changes[i].variantId != changes[0].variantId
    {
      FitsAfter(t, t1, before, changes[0], changes[i]);
    }
    if AllFit(t1, before, changes[1..]) {
      forall i | 0 <= i < |changes| ensures Fits(t, before, changes[i]) {
        if i > 0 { assert Fits(t1, before, changes[1..][i - 1]); }
      }
      forall i, j | 0 <= i < j < |changes| ensures changes[i].variantId != changes[j].variantId {
        assert Fits(t1, before, changes[1..][j - 1]);
        if i > 0 { assert changes[1..][i - 1].variantId != changes[1..][j - 1].variantId; }
      }
    }
  }

  lemma {:induction false} SameAdjustments(t: Tables, t1: Tables, bulk: bool, changes: seq<Change>)
    requires AllIn(t, changes) && t1.inventory.Keys == t.inventory.Keys
    requires forall i :: 0 <= i < |changes| ==>
                           t1.inventory[changes[i].variantId] == t.inventory[changes[i].variantId]
    ensures Adjustments(t1, bulk, changes) == Adjustments(t, bulk, changes)
  {
    if changes != [] { SameAdjustments(t, t1, bulk, changes[1..]); }
  }

  /** The stock rows after the changes: each changed row once, every other row as it was. */
  ghost predicate Rewritten(t: Tables, changes: seq<Change>, t1: Tables) {
    && t1.inventory.Keys == t.inventory.Keys && t1.reservations == t.reservations
    && (forall i :: 0 <= i < |changes| ==>
                      changes[i].variantId in t.inventory
                      && t1.inventory[changes[i].variantId] == Edited(t, changes[i]))
    && (forall v :: v in t.inventory && (forall i :: 0 <= i < |changes| ==> changes[i].variantId != v) ==>
                      t1.inventory[v] == t.inventory[v])
  }

  lemma RewrittenFirst(t: Tables, t1: Tables, changes: seq<Change>, t2: Tables)
    requires changes != [] && changes[0].variantId in t.inventory
    requires t1.inventory == t.inventory[changes[0].variantId := Edited(t, changes[0])]
             && t1.reservations == t.reservations
    requires forall j :: 0 < j < |changes| ==> changes[j].variantId != changes[0].variantId
    requires Rewritten(t1, changes[1..], t2)
    ensures Rewritten(t, changes, t2)
  {
    forall i | 0 <= i < |changes|
      ensures changes[i].variantId in t.inventory && t2.inventory[changes[i].variantId] == Edited(t, changes[i])
    {
      if i > 0 {
        assert changes[1..][i - 1] == changes[i];
      } else {
        assert forall j :: 0 <= j < |changes| - 1 ==> changes[1..][j].variantId != changes[0].variantId;
      }
    }
    forall v | v in t.inventory && (forall i :: 0 <= i < |changes| ==> changes[i].variantId != v)
      ensures t2.inventory[v] == t.inventory[v]
    {
      assert forall j :: 0 <= j < |changes| - 1 ==> changes[1..][j] == changes[j + 1];
    }
  }

  lemma LogRest(t: Tables, t1: Tables, bulk: bool, changes: seq<Change>, log: seq<Movement>)
    requires changes != [] && AllIn(t, changes) && t1.inventory.Keys == t.inventory.Keys
    requires forall i :: 0 < i < |changes| ==>
                           t1.inventory[changes[i].variantId] == t.inventory[changes[i].variantId]
    requires log == t.log + AdjustmentOf(t, bulk, changes[0]) + Adjustments(t1, bulk, changes[1..])
    ensures log == t.log + Adjustments(t, bulk, changes)
  {
    var rest := changes[1..];
    forall i | 0 <= i < |rest|
      ensures rest[i].variantId in t.inventory
              && t1.inventory[rest[i].variantId] == t.inventory[rest[i].variantId]
    {
      assert rest[i] == changes[i + 1];
    }
    SameAdjustments(t, t1, bulk, rest);
    Reassociate(t.log, AdjustmentOf(t, bulk, changes[0]), Adjustments(t, bulk, rest));
  }

  lemma Reassociate<T>(a: seq<T>, b: seq<T>, c: seq<T>)
    ensures a + b + c == a + (b + c)
  {
  }

  /** The first change of a list, accepted. */
  ghost predicate WritesFirst(t: Tables, bulk: bool, changes: seq<Change>, t1: Tables) {
    && changes != [] && changes[0].variantId in t.inventory
    && t1 == Tables(t.inventory[changes[0].variantId := Edited(t, changes[0])], t.reservations,
                    t.log + AdjustmentOf(t, bulk, changes[0]))
  }

  lemma FirstChange(t: Tables, bulk: bool, before: map<VariantId, Inventory>, changes: seq<Change>)
    returns (t1: Tables)
    requires changes != [] && Consistent(t) && AllSeen(t, before, changes) && Fits(t, before, changes[0])
    ensures WriteChange(t, bulk, before[changes[0].variantId], changes[0]) == Ok(t1)
    ensures Consistent(t1) && WritesFirst(t, bulk, changes, t1) && AllSeen(t1, before, changes[1..])
    ensures AllFit(t, before, changes) <==> AllFit(t1, before, changes[1..])
  {
    WriteChangeSets(t, bulk, before, changes[0]);
    WriteChangeGood(t, bulk, before[changes[0].variantId], changes[0]);
    t1 := WriteChange(t, bulk, before[changes[0].variantId], changes[0]).value;
    AllFitFirst(t, t1, before, changes);
  }

  /** All that an accepted bulk edit writes. */
  ghost predicate Writes(t: Tables, bulk: bool, changes: seq<Change>, t1: Tables) {
    Rewritten(t, changes, t1) && AllIn(t, changes) && t1.log == t.log + Adjustments(t, bulk, changes)
  }

  lemma WritesOn(t: Tables, bulk: bool, before: map<VariantId, Inventory>, changes: seq<Change>, t1: Tables, t2: Tables)
    requires AllFit(t, before, changes) && WritesFirst(t, bulk, changes, t1) && Writes(t1, bulk, changes[1..], t2)
    ensures Writes(t, bulk, changes, t2)
  {
    RewrittenFirst(t, t1, changes, t2);
    LogRest(t, t1, bulk, changes, t2.log);
  }

  /**
   A bulk edit is accepted exactly when every change fits and no variant comes twice. Accepted, it sets each row once
   from what it was and logs one adjustment for each row whose units change.
   */
  lemma {:induction false} WritesExactly(t: Tables, bulk: bool, before: map<VariantId, Inventory>, changes: seq<Change>)
    requires Consistent(t) && AllSeen(t, before, changes)
    ensures WriteChanges(t, bulk, before, changes).Ok? <==> AllFit(t, before, changes)
    ensures WriteChanges(t, bulk, before, changes).Ok? ==>
              Writes(t, bulk, changes, WriteChanges(t, bulk, before, changes).value)
    decreases |changes|
  {
    if changes == [] {
      assert t.log + [] == t.log;
    } else if Fits(t, before, changes[0]) {
      var t1 := FirstChange(t, bulk, before, changes);
      WritesExactly(t1, bulk, before, changes[1..]);
      if AllFit(t, before, changes) {
        WritesOn(t, bulk, before, changes, t1, WriteChanges(t1, bulk, before, changes[1..]).value);
      }
    } else {
      WriteChangeSets(t, bulk, before, changes[0]);
    }
  }

  // ----- the vendor's edit -----

  /**
   A vendor's write is accepted exactly when its key is known already, and then changes nothing, or the version named is
   the current one; then it sets its own row, whatever is reserved, and logs the difference under its key.
   */
  lemma VendorWritesExactly(t: Tables, c: Change, key: string, seen: Inventory)
    requires SeenSound(t, c, seen)
    ensures var r := WriteVendor(t, c, key, seen);
            var known, current := HasKey(t.log, VendorKey(key)), t.inventory[c.variantId].version == c.expectedVersion;
            && (r.Ok? <==> known || current)
            && (r.Fail? ==> r.error == VersionConflict)
            && (known ==> r.value == t)
            && (!known && current ==>
                  var units := c.onHand - t.inventory[c.variantId].onHand;
                  r.value == Tables(t.inventory[c.variantId := Edited(t, c)], t.reservations,
                                    t.log + if units == 0 then []
                                    else [Movement(c.variantId, Adjustment, units, None, VendorKey(key))]))
  {
    assert t.log + [] == t.log;
  }

  // ----- the queries -----

  predicate Wants(op: RowOperation, t: Tables, order: OrderId, id: nat)
    requires id < |t.reservations|
  {
    t.reservations[id].orderId == order && Accepts(op, t.reservations[id].status)
  }

  /** The rows of the order below position k. */
  ghost predicate ListsBelow(op: RowOperation, t: Tables, order: OrderId, k: nat, rows: seq<Row>)
    requires k <= |t.reservations|
  {
    && Readable(op, t, rows)
    && (forall i :: 0 <= i < |rows| ==> rows[i].reservation.orderId == order && rows[i].id < k)
    && (forall id: nat :: id < k && Wants(op, t, order, id) ==> Lists(rows, id))
  }

  lemma ReadableAppend(op: RowOperation, t: Tables, rows: seq<Row>, row: Row)
    requires Readable(op, t, rows) && Current(t, row) && Accepts(op, row.reservation.status)
    requires forall i :: 0 <= i < |rows| ==> rows[i].id < row.id
    ensures Readable(op, t, rows + [row])
  {
  }

  lemma ListsAppend(rows: seq<Row>, row: Row, id: nat)
    requires Lists(rows, id) || row.id == id
    ensures Lists(rows + [row], id)
  {
    if i :| 0 <= i < |rows| && rows[i].id == id { assert (rows + [row])[i].id == id; }
    assert (rows + [row])[|rows|] == row;
  }

  lemma ListsOneMore(op: RowOperation, t: Tables, order: OrderId, k: nat, rows: seq<Row>)
    requires k < |t.reservations| && ListsBelow(op, t, order, k, rows) && Wants(op, t, order, k)
    ensures ListsBelow(op, t, order, k + 1, rows + [Row(k, t.reservations[k])])
  {
    var row := Row(k, t.reservations[k]);
    ReadableAppend(op, t, rows, row);
    forall id: nat | id < k + 1 && Wants(op, t, order, id) ensures Lists(rows + [row], id) {
      ListsAppend(rows, row, id);
    }
  }

  lemma BelowAllEnumerates(op: RowOperation, t: Tables, order: OrderId, rows: seq<Row>)
    requires ListsBelow(op, t, order, |t.reservations|, rows)
    ensures Enumerates(op, t, order, rows)
  {
    forall id: nat | id < |t.reservations| && t.reservations[id].orderId == order
                     && Accepts(op, t.reservations[id].status)
      ensures exists i :: 0 <= i < |rows| && rows[i].id == id
    {
      assert Wants(op, t, order, id);
    }
  }

  /** In every state the query for an order's rows has an answer. */
  lemma {:induction false} QueryAnswers(op: RowOperation, t: Tables, order: OrderId, k: nat) returns (rows: seq<Row>)
    requires k <= |t.reservations|
    ensures ListsBelow(op, t, order, k, rows)
    ensures k == |t.reservations| ==> Enumerates(op, t, order, rows)
  {
    rows := [];
    if k > 0 {
      rows := QueryAnswers(op, t, order, k - 1);
      if Wants(op, t, order, k - 1) {
        ListsOneMore(op, t, order, k - 1, rows);
        rows := rows + [Row(k - 1, t.reservations[k - 1])];
      }
    }
    if k == |t.reservations| { BelowAllEnumerates(op, t, order, rows); }
  }
}
