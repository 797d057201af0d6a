/**
 What the row operations keep and what they change: from one row to whole lists of rows.
 */
module StockProofs {
  import opened Wrappers
  import opened Stock

  function Target(op: RowOperation): ReservationStatus {
    match op
    case Consume => Consumed
    case GiveBack => Released
    case Expire => Expired
  }

  /** Units leaving `reserved` and units arriving at `onHand` when the operation handles a row. */
  function Unreserves(r: Reservation): nat {
    if r.status == Active then r.quantity else 0
  }

  function Arrives(op: RowOperation, r: Reservation): int {
    if op == Consume then -(r.quantity as int) else if r.status == Consumed then r.quantity else 0
  }

  function MovementOf(op: RowOperation, row: Row): Movement {
    var r := row.reservation;
    match op
    case Consume => Movement(r.variantId, Sale, -(r.quantity as int), None, ConsumeKey(row.id))
    case GiveBack => Movement(r.variantId, Release, r.quantity, Some(r.status), ReleaseKey(row.id))
    case Expire => Movement(r.variantId, Release, r.quantity, None, ExpiryKey(row.id))
  }

  function Post(op: RowOperation, t: Tables, row: Row): Tables
    requires row.id < |t.reservations| && row.reservation.variantId in t.inventory
  {
    var r := row.reservation;
    var item := t.inventory[r.variantId];
    Tables(t.inventory[r.variantId := Inventory(item.onHand + Arrives(op, r), item.reserved - Unreserves(r),
                                                item.version + 1)],
           MarkRow(t.reservations, row.id, Target(op)),
           t.log + [MovementOf(op, row)])
  }

  /** What a row read in a consistent state can rely on: its item exists, holds enough, and the movement is new. */
  lemma RowIsBacked(op: RowOperation, t: Tables, row: Row)
    requires Consistent(t) && Current(t, row) && Accepts(op, row.reservation.status)
    ensures row.reservation.variantId in t.inventory && !HasKey(t.log, MovementOf(op, row).key)
    ensures row.reservation.status == Active ==>
              t.inventory[row.reservation.variantId].reserved >= row.reservation.quantity
  {
    var r := row.reservation;
    assert r in t.reservations;
    QuantityCovers(t.reservations, row.id, Pick(None, r.variantId, Active));
  }

  /** In a consistent state a row read in that state is refused only when a sale finds too little stock. */
  lemma RowSucceeds(op: RowOperation, t: Tables, row: Row)
    requires Consistent(t) && Current(t, row) && Accepts(op, row.reservation.status)
    ensures row.reservation.variantId in t.inventory
    ensures ApplyRow(op, t, row) ==
            if op == Consume && t.inventory[row.reservation.variantId].onHand < row.reservation.quantity
            then Fail(InventoryInconsistent) else Ok(Post(op, t, row))
  {
    RowIsBacked(op, t, row);
    BackedRowSucceeds(op, t, row);
  }

  lemma BackedRowSucceeds(op: RowOperation, t: Tables, row: Row)
    requires Current(t, row) && Accepts(op, row.reservation.status)
    requires row.reservation.variantId in t.inventory && !HasKey(t.log, MovementOf(op, row).key)
    requires row.reservation.status == Active ==>
               t.inventory[row.reservation.variantId].reserved >= row.reservation.quantity
    ensures ApplyRow(op, t, row) ==
            if op == Consume && t.inventory[row.reservation.variantId].onHand < row.reservation.quantity
            then Fail(InventoryInconsistent) else Ok(Post(op, t, row))
  {
  }

  lemma PostKeepsReserved(op: RowOperation, t: Tables, row: Row)
    requires Consistent(t) && Current(t, row) && Accepts(op, row.reservation.status)
    ensures row.reservation.variantId in t.inventory && ReservedMatches(Post(op, t, row))
  {
    assert row.reservation in t.reservations;
    var t1 := Post(op, t, row);
    forall v | v in t1.inventory ensures t1.inventory[v].reserved == Held(t1, v, Active) { PostItem(op, t, row, v); }
    forall x | x in t1.reservations ensures x.variantId in t1.inventory {
      var i :| 0 <= i < |t1.reservations| && t1.reservations[i] == x;
      assert t.reservations[i] in t.reservations;
    }
  }

  lemma PostItem(op: RowOperation, t: Tables, row: Row, v: VariantId)
    requires Current(t, row) && Accepts(op, row.reservation.status) && row.reservation.variantId in t.inventory
    requires v in t.inventory && t.inventory[v].reserved == Held(t, v, Active)
    ensures Post(op, t, row).inventory[v].reserved == Held(Post(op, t, row), v, Active)
  {
    QuantityUpdate(t.reservations, row.id, row.reservation.(status := Target(op)), Pick(None, v, Active));
  }

  lemma PostKeepsKeys(op: RowOperation, t: Tables, row: Row)
    requires Consistent(t) && row.id < |t.reservations| && row.reservation.variantId in t.inventory
    requires !HasKey(t.log, MovementOf(op, row).key)
    ensures KeysUnique(Post(op, t, row).log) && AdminKeysPast(Post(op, t, row))
  {
    forall i | 0 <= i < |t.log| ensures t.log[i].key != MovementOf(op, row).key { assert t.log[i] in t.log; }
  }

  lemma PostKeepsLog(op: RowOperation, t: Tables, row: Row)
    requires Consistent(t) && Current(t, row) && Accepts(op, row.reservation.status)
    requires row.reservation.variantId in t.inventory
    ensures LogMirrorsStatus(Post(op, t, row)) && KeysUnique(Post(op, t, row).log) && AdminKeysPast(Post(op, t, row))
  {
    var t1 := Post(op, t, row);
    var m := MovementOf(op, row);
    assert !HasKey(t.log, m.key);
    PostKeepsKeys(op, t, row);
    forall id: nat
      ensures HasKey(t1.log, ReleaseKey(id)) <==> (id < |t1.reservations| && t1.reservations[id].status == Released)
      ensures HasKey(t1.log, ExpiryKey(id)) <==> (id < |t1.reservations| && t1.reservations[id].status == Expired)
      ensures HasKey(t1.log, ConsumeKey(id)) ==>
                id < |t1.reservations|
                && (t1.reservations[id].status == Consumed || t1.reservations[id].status == Released)
      ensures id < |t1.reservations| && t1.reservations[id].status == Consumed ==> HasKey(t1.log, ConsumeKey(id))
    {
      HasKeyAppend(t.log, m, ReleaseKey(id));
      HasKeyAppend(t.log, m, ExpiryKey(id));
      HasKeyAppend(t.log, m, ConsumeKey(id));
    }
  }

  /** One accepted row keeps the tables consistent, keeps the reserved bound, and moves no stock without logging it. */
  lemma RowKeeps(op: RowOperation, t: Tables, row: Row)
    requires Consistent(t) && Current(t, row) && Accepts(op, row.reservation.status)
    requires ApplyRow(op, t, row).Ok?
    ensures var t1 := ApplyRow(op, t, row).value;
            && row.reservation.variantId in t.inventory && t1 == Post(op, t, row) && Consistent(t1)
            && t1.inventory.Keys == t.inventory.Keys
            && (Bounded(t) ==> Bounded(t1))
            && (forall v :: v in t.inventory ==> OpeningStock(t1, v) == OpeningStock(t, v))
  {
    RowSucceeds(op, t, row);
    PostKeepsReserved(op, t, row);
    PostKeepsLog(op, t, row);
    PostKeepsStock(op, t, row);
    RowIsBacked(op, t, row);
    if Bounded(t) { PostKeepsBound(op, t, row); }
  }

  lemma PostKeepsBound(op: RowOperation, t: Tables, row: Row)
    requires Bounded(t) && row.id < |t.reservations| && Accepts(op, row.reservation.status)
             && row.reservation.variantId in t.inventory
    requires row.reservation.status == Active ==>
               t.inventory[row.reservation.variantId].reserved >= row.reservation.quantity
    ensures Bounded(Post(op, t, row))
  {
  }

  lemma PostKeepsStock(op: RowOperation, t: Tables, row: Row)
    requires row.id < |t.reservations| && Accepts(op, row.reservation.status)
             && row.reservation.variantId in t.inventory
    ensures Post(op, t, row).inventory.Keys == t.inventory.Keys
    ensures forall v :: v in t.inventory ==> OpeningStock(Post(op, t, row), v) == OpeningStock(t, v)
  {
    forall v | v in t.inventory ensures OpeningStock(Post(op, t, row), v) == OpeningStock(t, v) {
      EffectAppend(t.log, MovementOf(op, row), v);
    }
  }

  lemma RestReadable(op: RowOperation, t: Tables, rows: seq<Row>)
    requires Consistent(t) && Readable(op, t, rows) && rows != [] && ApplyRow(op, t, rows[0]).Ok?
    ensures Readable(op, ApplyRow(op, t, rows[0]).value, rows[1..])
  {
    RowSucceeds(op, t, rows[0]);
    var t1 := ApplyRow(op, t, rows[0]).value;
    forall i | 0 <= i < |rows[1..]| ensures Current(t1, rows[1..][i]) {
      assert rows[1..][i] == rows[i + 1];
    }
  }

  ghost predicate Lists(rows: seq<Row>, id: nat) {
    exists i :: 0 <= i < |rows| && rows[i].id == id
  }

  /** A reservation table with the given rows moved to a status. */
  ghost predicate Marked(before: seq<Reservation>, rows: seq<Row>, status: ReservationStatus, after: seq<Reservation>) {
    && |after| == |before|
    && forall id: nat :: id < |before| ==> after[id] == if Lists(rows, id) then before[id].(status := status)
                                                        else before[id]
  }

  /** Every listed variant has the units that the listed reservations take from it. */
  ghost predicate Covers(t: Tables, rows: seq<Row>) {
    forall v :: v in t.inventory && Touches(rows, v) > 0 ==>
                  RowsQuantity(rows, Pick(None, v, Active)) <= t.inventory[v].onHand
  }

  /** The loop succeeds exactly when the stock covers the sales, whatever the order of the rows. */
  lemma {:induction false} ApplyAllSucceeds(op: RowOperation, t: Tables, rows: seq<Row>)
    requires Consistent(t) && Readable(op, t, rows)
    ensures ApplyAll(op, t, rows).Ok? <==> (op == Consume ==> Covers(t, rows))
    ensures ApplyAll(op, t, rows).Fail? ==> ApplyAll(op, t, rows).error == InventoryInconsistent
    decreases |rows|
  {
    if rows != [] {
      var row := rows[0];
      RowSucceeds(op, t, row);
      if ApplyRow(op, t, row).Ok? {
        RowKeeps(op, t, row);
        RestReadable(op, t, rows);
        ApplyAllSucceeds(op, ApplyRow(op, t, row).value, rows[1..]);
        if op == Consume { CoversStep(t, rows); }
      } else {
        assert Accepts(op, row.reservation.status);
        assert RowsQuantity(rows, Pick(None, row.reservation.variantId, Active)) >= row.reservation.quantity;
        assert !Covers(t, rows);
      }
    }
  }

  /** The state after the first row of a loop that succeeds, ready for the rest of the rows. */
  lemma FirstRow(op: RowOperation, t: Tables, rows: seq<Row>) returns (t1: Tables)
    requires Consistent(t) && Readable(op, t, rows) && rows != [] && ApplyAll(op, t, rows).Ok?
    ensures ApplyRow(op, t, rows[0]) == Ok(t1) && ApplyAll(op, t1, rows[1..]) == ApplyAll(op, t, rows)
    ensures Consistent(t1) && Readable(op, t1, rows[1..])
    ensures rows[0].id < |t.reservations| && rows[0].reservation.variantId in t.inventory && t1 == Post(op, t, rows[0])
    ensures Accepts(op, rows[0].reservation.status)
  {
    t1 := ApplyRow(op, t, rows[0]).value;
    RowKeeps(op, t, rows[0]);
    RestReadable(op, t, rows);
  }

  /** A successful loop keeps every invariant and moves no stock without logging it. */
  lemma {:induction false} ApplyAllKeeps(op: RowOperation, t: Tables, rows: seq<Row>)
    requires Consistent(t) && Readable(op, t, rows) && ApplyAll(op, t, rows).Ok?
    ensures Consistent(ApplyAll(op, t, rows).value)
    ensures Bounded(t) ==> Bounded(ApplyAll(op, t, rows).value)
    ensures ApplyAll(op, t, rows).value.inventory.Keys == t.inventory.Keys
    ensures forall v :: v in t.inventory ==> OpeningStock(ApplyAll(op, t, rows).value, v) == OpeningStock(t, v)
    decreases |rows|
  {
    if rows != [] {
      var t1 := FirstRow(op, t, rows);
      RowKeeps(op, t, rows[0]);
      ApplyAllKeeps(op, t1, rows[1..]);
    }
  }

  /** The reservation table after a successful loop: exactly the listed rows have moved. */
  lemma {:induction false} ApplyAllMarks(op: RowOperation, t: Tables, rows: seq<Row>)
    requires Consistent(t) && Readable(op, t, rows) && ApplyAll(op, t, rows).Ok?
    ensures Marked(t.reservations, rows, Target(op), ApplyAll(op, t, rows).value.reservations)
    decreases |rows|
  {
    if rows != [] {
      var t1 := FirstRow(op, t, rows);
      ApplyAllMarks(op, t1, rows[1..]);
      MarkedStep(op, t.reservations, rows, ApplyAll(op, t, rows).value.reservations);
    }
  }

  /** The log after a successful loop: one movement per row, in the order of the rows. */
  lemma {:induction false} ApplyAllLogs(op: RowOperation, t: Tables, rows: seq<Row>)
    requires Consistent(t) && Readable(op, t, rows) && ApplyAll(op, t, rows).Ok?
    ensures ApplyAll(op, t, rows).value.log == t.log + Movements(op, rows)
    decreases |rows|
  {
    if rows != [] {
      var t1 := FirstRow(op, t, rows);
      ApplyAllLogs(op, t1, rows[1..]);
      AppendInOrder(t.log, MovementOf(op, rows[0]), Movements(op, rows[1..]));
    }
  }

  lemma AppendInOrder(log: seq<Movement>, m: Movement, rest: seq<Movement>)
    ensures (log + [m]) + rest == log + ([m] + rest)
  {
  }

  function Movements(op: RowOperation, rows: seq<Row>): seq<Movement> {
    if rows == [] then [] else [MovementOf(op, rows[0])] + Movements(op, rows[1..])
  }

  /** What a loop over the rows does to one variant's stock: a function of sums over the rows. */
  function ItemAfter(op: RowOperation, item: Inventory, rows: seq<Row>, v: VariantId): Inventory {
    var active := RowsQuantity(rows, Pick(None, v, Active));
    var consumed := RowsQuantity(rows, Pick(None, v, Consumed));
    Inventory(if op == Consume then item.onHand - active else item.onHand + consumed,
              item.reserved - active,
              item.version + Touches(rows, v))
  }

  lemma ItemAfterStep(op: RowOperation, t: Tables, rows: seq<Row>, v: VariantId)
    requires rows != [] && Accepts(op, rows[0].reservation.status) && v in t.inventory
    requires rows[0].id < |t.reservations| && rows[0].reservation.variantId in t.inventory
    ensures ItemAfter(op, Post(op, t, rows[0]).inventory[v], rows[1..], v) == ItemAfter(op, t.inventory[v], rows, v)
  {
  }

  lemma {:induction false} ApplyAllStock(op: RowOperation, t: Tables, rows: seq<Row>, v: VariantId)
    requires Consistent(t) && Readable(op, t, rows) && ApplyAll(op, t, rows).Ok? && v in t.inventory
    ensures v in ApplyAll(op, t, rows).value.inventory
    ensures ApplyAll(op, t, rows).value.inventory[v] == ItemAfter(op, t.inventory[v], rows, v)
    decreases |rows|
  {
    if rows != [] {
      var t1 := FirstRow(op, t, rows);
      ItemAfterStep(op, t, rows, v);
      ApplyAllStock(op, t1, rows[1..], v);
    }
  }

  lemma CoversStep(t: Tables, rows: seq<Row>)
    requires Consistent(t) && Readable(Consume, t, rows) && rows != [] && ConsumeRow(t, rows[0]).Ok?
    ensures Covers(t, rows) <==> Covers(ConsumeRow(t, rows[0]).value, rows[1..])
  {
    var row, t0 := rows[0], ConsumeRow(t, rows[0]).value;
    assert row.reservation.variantId in t.inventory;
    forall v | v in t.inventory
      ensures v in t0.inventory
      ensures Touches(rows, v) > 0 && RowsQuantity(rows, Pick(None, v, Active)) > t.inventory[v].onHand
         <==> Touches(rows[1..], v) > 0 && RowsQuantity(rows[1..], Pick(None, v, Active)) > t0.inventory[v].onHand
    {
      UntouchedQuantity(rows[1..], Pick(None, v, Active));
    }
  }

  lemma {:induction false} UntouchedQuantity(rows: seq<Row>, p: Pick)
    ensures Touches(rows, p.variantId) == 0 ==> RowsQuantity(rows, p) == 0
  {
    if rows != [] { UntouchedQuantity(rows[1..], p); }
  }

  lemma MarkedStep(op: RowOperation, before: seq<Reservation>, rows: seq<Row>, after: seq<Reservation>)
    requires rows != [] && rows[0].id < |before|
    requires Marked(MarkRow(before, rows[0].id, Target(op)), rows[1..], Target(op), after)
    ensures Marked(before, rows, Target(op), after)
  {
    forall id: nat | id < |before|
      ensures Lists(rows, id) <==> rows[0].id == id || Lists(rows[1..], id)
    {
      if i :| 0 <= i < |rows| && rows[i].id == id {
        if i > 0 { assert rows[1..][i - 1].id == id; }
      }
      if i :| 0 <= i < |rows[1..]| && rows[1..][i].id == id { assert rows[i + 1].id == id; }
    }
  }
}
