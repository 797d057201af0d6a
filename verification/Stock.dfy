/**
 The inventory tables and the operations of inventory-reservation.ts, on values.

 A reservation's row id is its position in the table: rows are never deleted.  The order in which a query
 returns rows is not specified by the database, so every operation takes the rows it works on as a list in
 any order, and the lemmas show that the order does not matter.
 */
module Stock {
  import opened Wrappers

  type VariantId = string
  type OrderId = string

  datatype ReservationStatus = Active | Consumed | Released | Expired

  datatype Reservation = Reservation(orderId: OrderId, variantId: VariantId, quantity: nat, status: ReservationStatus)

  /** A row as a query returned it: its id and the contents at that moment. */
  datatype Row = Row(id: nat, reservation: Reservation)

  datatype Inventory = Inventory(onHand: int, reserved: int, version: nat)

  datatype MovementKind = Reserve | Sale | Release | Adjustment

  /** The unique idempotency key of a movement. */
  datatype MovementKey =
    | CheckoutKey(orderId: OrderId, variantId: VariantId)
    | ConsumeKey(id: nat)
    | ReleaseKey(id: nat)
    | ExpiryKey(id: nat)
    | AdminKey(bulk: bool, variantId: VariantId, version: nat)
    | VendorKey(text: string)

  datatype Movement = Movement(variantId: VariantId, kind: MovementKind, quantity: int,
                               priorStatus: Option<ReservationStatus>, key: MovementKey)

  datatype Tables = Tables(inventory: map<VariantId, Inventory>, reservations: seq<Reservation>, log: seq<Movement>)

  datatype Problem =
    | ReservationChanged
    | InventoryInconsistent
    | DuplicateMovement
    | PackageInconsistent
    | InsufficientStock
    | InventoryNotFound
    | BelowReserved
    | VersionConflict

  predicate HasKey(log: seq<Movement>, key: MovementKey) {
    exists m :: m in log && m.key == key
  }

  // ----- one row at a time -----

  datatype RowOperation = Consume | GiveBack | Expire

  function MarkRow(rs: seq<Reservation>, id: nat, status: ReservationStatus): seq<Reservation>
    requires id < |rs|
  {
    rs[id := rs[id].(status := status)]
  }

  /** One pass of the loop in consumeOrderReservations. */
  function ConsumeRow(t: Tables, row: Row): Outcome<Tables, Problem> {
    var r := row.reservation;
    if r.status != Active && r.status != Consumed then Fail(ReservationChanged)
    else if r.variantId !in t.inventory then Fail(InventoryInconsistent)
    else
      var item := t.inventory[r.variantId];
      if item.onHand < r.quantity || item.reserved < r.quantity then Fail(InventoryInconsistent)
      else if HasKey(t.log, ConsumeKey(row.id)) then Fail(DuplicateMovement)
      else if row.id >= |t.reservations| || t.reservations[row.id].status != Active then Fail(ReservationChanged)
      else Ok(Tables(
                t.inventory[r.variantId := Inventory(item.onHand - r.quantity, item.reserved - r.quantity,
                                                     item.version + 1)],
                MarkRow(t.reservations, row.id, Consumed),
                t.log + [Movement(r.variantId, Sale, -(r.quantity as int), None, ConsumeKey(row.id))]))
  }

  /** One pass of the loop in releaseOrderReservations. */
  function ReleaseRow(t: Tables, row: Row): Outcome<Tables, Problem> {
    var r := row.reservation;
    if r.status != Active && r.status != Consumed then Fail(ReservationChanged)
    else if r.variantId !in t.inventory then Fail(InventoryInconsistent)
    else
      var item := t.inventory[r.variantId];
      if r.status == Active && item.reserved < r.quantity then Fail(InventoryInconsistent)
      else if HasKey(t.log, ReleaseKey(row.id)) then Fail(DuplicateMovement)
      else if row.id >= |t.reservations| || t.reservations[row.id].status != r.status then Fail(ReservationChanged)
      else Ok(Tables(
                t.inventory[r.variantId :=
                if r.status == Active
                then Inventory(item.onHand, item.reserved - r.quantity, item.version + 1)
                else Inventory(item.onHand + r.quantity, item.reserved, item.version + 1)],
                MarkRow(t.reservations, row.id, Released),
                t.log + [Movement(r.variantId, Release, r.quantity, Some(r.status), ReleaseKey(row.id))]))
  }

  /** One pass of the loop in expire, together with that row's share of the bulk status update after it. */
  function ExpireRow(t: Tables, row: Row): Outcome<Tables, Problem> {
    var r := row.reservation;
    if r.variantId !in t.inventory || t.inventory[r.variantId].reserved < r.quantity then Fail(InventoryInconsistent)
    else if HasKey(t.log, ExpiryKey(row.id)) then Fail(DuplicateMovement)
    else if row.id >= |t.reservations| then Fail(ReservationChanged)
    else
      var item := t.inventory[r.variantId];
      Ok(Tables(
           t.inventory[r.variantId := Inventory(item.onHand, item.reserved - r.quantity, item.version + 1)],
           MarkRow(t.reservations, row.id, Expired),
           t.log + [Movement(r.variantId, Release, r.quantity, None, ExpiryKey(row.id))]))
  }

  function ApplyRow(op: RowOperation, t: Tables, row: Row): Outcome<Tables, Problem> {
    match op
    case Consume => ConsumeRow(t, row)
    case GiveBack => ReleaseRow(t, row)
    case Expire => ExpireRow(t, row)
  }

  function ApplyAll(op: RowOperation, t: Tables, rows: seq<Row>): Outcome<Tables, Problem>
    decreases |rows|
  {
    if rows == [] then Ok(t)
    else
      match ApplyRow(op, t, rows[0])
      case Fail(e) => Fail(e)
      case Ok(t1) => ApplyAll(op, t1, rows[1..])
  }

  // ----- sums over the reservation table and over lists of rows -----

  /** Selects reservations of one variant in one status, of one order or of all. */
  datatype Pick = Pick(order: Option<OrderId>, variantId: VariantId, status: ReservationStatus)

  function Weight(p: Pick, r: Reservation): nat {
    if (p.order.None? || r.orderId == p.order.value) && r.variantId == p.variantId && r.status == p.status
    then r.quantity else 0
  }

  function Quantity(rs: seq<Reservation>, p: Pick): nat {
    if rs == [] then 0 else Quantity(rs[..|rs| - 1], p) + Weight(p, rs[|rs| - 1])
  }

  function RowsQuantity(rows: seq<Row>, p: Pick): nat {
    if rows == [] then 0 else Weight(p, rows[0].reservation) + RowsQuantity(rows[1..], p)
  }

  function Touches(rows: seq<Row>, v: VariantId): nat {
    if rows == [] then 0 else (if rows[0].reservation.variantId == v then 1 else 0) + Touches(rows[1..], v)
  }

  /** Units held by reservations of any order. */
  function Held(t: Tables, v: VariantId, status: ReservationStatus): nat {
    Quantity(t.reservations, Pick(None, v, status))
  }

  /** What one movement does to the units on hand. */
  function Effect(m: Movement): int {
    match m.kind
    case Reserve => 0
    case Sale => m.quantity
    case Adjustment => m.quantity
    case Release => if m.priorStatus == Some(Consumed) then m.quantity else 0
  }

  function LedgerEffect(log: seq<Movement>, v: VariantId): int {
    if log == [] then 0
    else LedgerEffect(log[..|log| - 1], v) + (if log[|log| - 1].variantId == v then Effect(log[|log| - 1]) else 0)
  }

  /** The units a variant must have started with, given its stock now and the log. */
  function OpeningStock(t: Tables, v: VariantId): int
    requires v in t.inventory
  {
    t.inventory[v].onHand - LedgerEffect(t.log, v)
  }

  // ----- invariants -----

  /** Each reservation's movements say exactly which statuses it has been through. */
  ghost predicate LogMirrorsStatus(t: Tables) {
    && (forall id: nat :: HasKey(t.log, ReleaseKey(id)) <==>
                          (id < |t.reservations| && t.reservations[id].status == Released))
    && (forall id: nat :: HasKey(t.log, ExpiryKey(id)) <==>
                          (id < |t.reservations| && t.reservations[id].status == Expired))
    && (forall id: nat :: HasKey(t.log, ConsumeKey(id)) ==>
                            id < |t.reservations|
                            && (t.reservations[id].status == Consumed || t.reservations[id].status == Released))
    && (forall id: nat :: id < |t.reservations| && t.reservations[id].status == Consumed ==>
                            HasKey(t.log, ConsumeKey(id)))
  }

  ghost predicate KeysUnique(log: seq<Movement>) {
    forall i, j :: 0 <= i < j < |log| ==> log[i].key != log[j].key
  }

  /** An administrator's movement is keyed by a version the row has left behind. */
  ghost predicate AdminKeysPast(t: Tables) {
    forall m :: m in t.log && m.key.AdminKey? ==>
                  m.key.variantId in t.inventory && m.key.version < t.inventory[m.key.variantId].version
  }

  ghost predicate ReservedMatches(t: Tables) {
    && (forall r :: r in t.reservations ==> r.variantId in t.inventory)
    && (forall v :: v in t.inventory ==> t.inventory[v].reserved == Held(t, v, Active))
  }

  ghost predicate Consistent(t: Tables) {
    ReservedMatches(t) && LogMirrorsStatus(t) && KeysUnique(t.log) && AdminKeysPast(t)
  }

  ghost predicate Bounded(t: Tables) {
    forall v :: v in t.inventory ==> 0 <= t.inventory[v].reserved <= t.inventory[v].onHand
  }

  // ----- lists of rows -----

  predicate Accepts(op: RowOperation, status: ReservationStatus) {
    status == Active || (op == GiveBack && status == Consumed)
  }

  predicate Current(t: Tables, row: Row) {
    row.id < |t.reservations| && t.reservations[row.id] == row.reservation
  }

  /** Distinct rows, read in this very state, in statuses the operation is written for. */
  ghost predicate Readable(op: RowOperation, t: Tables, rows: seq<Row>) {
    && (forall i :: 0 <= i < |rows| ==> Current(t, rows[i]) && Accepts(op, rows[i].reservation.status))
    && (forall i, j :: 0 <= i < j < |rows| ==> rows[i].id != rows[j].id)
  }

  /** The result, in some order, of querying an order's reservations in the statuses the operation is written for. */
  ghost predicate Enumerates(op: RowOperation, t: Tables, order: OrderId, rows: seq<Row>) {
    && Readable(op, t, rows)
    && (forall i :: 0 <= i < |rows| ==> rows[i].reservation.orderId == order)
    && (forall id: nat :: id < |t.reservations| && t.reservations[id].orderId == order
                          && Accepts(op, t.reservations[id].status) ==>
                            exists i :: 0 <= i < |rows| && rows[i].id == id)
  }

  // ----- lemmas about sums -----

  lemma {:induction false} QuantityUpdate(rs: seq<Reservation>, id: nat, r: Reservation, p: Pick)
    requires id < |rs|
    ensures Quantity(rs[id := r], p) == Quantity(rs, p) - Weight(p, rs[id]) + Weight(p, r)
  {
    var n := |rs| - 1;
    if id == n {
      assert rs[id := r][..n] == rs[..n];
    } else {
      assert rs[id := r][..n] == rs[..n][id := r];
      QuantityUpdate(rs[..n], id, r, p);
    }
  }

  lemma {:induction false} QuantityCovers(rs: seq<Reservation>, id: nat, p: Pick)
    requires id < |rs|
    ensures Weight(p, rs[id]) <= Quantity(rs, p)
  {
    if id < |rs| - 1 { QuantityCovers(rs[..|rs| - 1], id, p); }
  }

  lemma {:induction false} QuantityNone(rs: seq<Reservation>, p: Pick)
    requires forall i :: 0 <= i < |rs| ==> Weight(p, rs[i]) == 0
    ensures Quantity(rs, p) == 0
  {
    if rs != [] { QuantityNone(rs[..|rs| - 1], p); }
  }

  lemma QuantityAppend(rs: seq<Reservation>, r: Reservation, p: Pick)
    ensures Quantity(rs + [r], p) == Quantity(rs, p) + Weight(p, r)
  {
    assert (rs + [r])[..|rs|] == rs;
  }

  lemma EffectAppend(log: seq<Movement>, m: Movement, v: VariantId)
    ensures LedgerEffect(log + [m], v) == LedgerEffect(log, v) + (if m.variantId == v then Effect(m) else 0)
  {
    assert (log + [m])[..|log|] == log;
  }

  lemma HasKeyAppend(log: seq<Movement>, m: Movement, key: MovementKey)
    ensures HasKey(log + [m], key) <==> HasKey(log, key) || m.key == key
  {
    if HasKey(log, key) {
      var k :| k in log && k.key == key;
      assert k in log + [m];
    }
    assert m in log + [m];
  }

  /** Rows that enumerate an order's reservations carry exactly its quantities, in whatever order they come. */
  lemma {:induction false} EnumerationQuantity(op: RowOperation, t: Tables, order: OrderId, rows: seq<Row>, p: Pick)
    requires Enumerates(op, t, order, rows)
    requires p.order == Some(order) && Accepts(op, p.status)
    ensures RowsQuantity(rows, p) == Quantity(t.reservations, p)
    decreases |rows|
  {
    if rows == [] {
      QuantityNone(t.reservations, p);
    } else {
      var id := rows[0].id;
      var gone := t.reservations[id].(status := Expired);
      var t1 := t.(reservations := t.reservations[id := gone]);
      QuantityUpdate(t.reservations, id, gone, p);
      forall k: nat | k < |t1.reservations| && t1.reservations[k].orderId == order
                      && Accepts(op, t1.reservations[k].status)
        ensures exists i :: 0 <= i < |rows[1..]| && rows[1..][i].id == k
      {
        var i :| 0 <= i < |rows| && rows[i].id == k;
        assert rows[1..][i - 1].id == k;
      }
      EnumerationQuantity(op, t1, order, rows[1..], p);
    }
  }
}
