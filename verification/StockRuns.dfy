/**
 Runs of the stock tables: checkout reservations, the reservation loops, package releases and stock edits that
 are read in one step and written in a later one.  A thrown error rolls the tables back.
 */
module StockRuns {
  import opened Wrappers
  import opened Stock
  import opened StockProofs

  datatype Line = Line(variantId: VariantId, quantity: nat)

  // ----- checkout: one reserved line after the other -----

  function ReserveLine(t: Tables, order: OrderId, line: Line): Outcome<Tables, Problem> {
    var v, q := line.variantId, line.quantity;
    if v !in t.inventory || t.inventory[v].onHand - t.inventory[v].reserved < q then Fail(InsufficientStock)
    else if HasKey(t.log, CheckoutKey(order, v)) then Fail(DuplicateMovement)
    else
      var item := t.inventory[v];
      Ok(Tables(t.inventory[v := Inventory(item.onHand, item.reserved + q, item.version + 1)],
                t.reservations + [Reservation(order, v, q, Active)],
                t.log + [Movement(v, Reserve, q, None, CheckoutKey(order, v))]))
  }

  function ReserveAll(t: Tables, order: OrderId, lines: seq<Line>): Outcome<Tables, Problem>
    decreases |lines|
  {
    if lines == [] then Ok(t)
    else
      match ReserveLine(t, order, lines[0])
      case Fail(e) => Fail(e)
      case Ok(t1) => ReserveAll(t1, order, lines[1..])
  }

  // ----- package release -----

  function LinesQuantity(items: seq<Line>, v: VariantId): nat {
    if items == [] then 0
    else LinesQuantity(items[..|items| - 1], v)
         + (if items[|items| - 1].variantId == v then items[|items| - 1].quantity else 0)
  }

  function RowsTotal(rows: seq<Row>, v: VariantId): nat {
    if rows == [] then 0
    else (if rows[0].reservation.variantId == v then rows[0].reservation.quantity else 0) + RowsTotal(rows[1..], v)
  }

  predicate InPackage(items: seq<Line>, v: VariantId) {
    exists item :: item in items && item.variantId == v
  }

  function Selected(items: seq<Line>, rows: seq<Row>): seq<Row> {
    if rows == [] then []
    else (if InPackage(items, rows[0].reservation.variantId) then [rows[0]] else []) + Selected(items, rows[1..])
  }

  predicate PackageMatches(items: seq<Line>, selected: seq<Row>) {
    forall item :: item in items ==> RowsTotal(selected, item.variantId) == LinesQuantity(items, item.variantId)
  }

  function ReleasePackage(t: Tables, items: seq<Line>, rows: seq<Row>): Outcome<Tables, Problem> {
    if !PackageMatches(items, Selected(items, rows)) then Fail(PackageInconsistent)
    else ApplyAll(GiveBack, t, Selected(items, rows))
  }

  // ----- stock edits: read first, write later under a version check -----

  datatype Change = Change(variantId: VariantId, expectedVersion: nat, onHand: int)

  datatype Edit =
    | AdminEdit(bulk: bool, changes: seq<Change>, before: map<VariantId, Inventory>)
    | VendorEdit(change: Change, key: string, seen: Inventory)

  /** One pass of the loop in bulkUpdateInventory; updateInventory is the case of a single change. */
  function WriteChange(t: Tables, bulk: bool, seen: Inventory, c: Change): Outcome<Tables, Problem> {
    if c.onHand < seen.reserved then Fail(BelowReserved)
    else if c.variantId !in t.inventory || t.inventory[c.variantId].version != c.expectedVersion
    then Fail(VersionConflict)
    else
      var item := t.inventory[c.variantId];
      var t1 := t.(inventory := t.inventory[c.variantId := Inventory(c.onHand, item.reserved, item.version + 1)]);
      var quantity := c.onHand - seen.onHand;
      var key := AdminKey(bulk, c.variantId, c.expectedVersion);
      if quantity == 0 then Ok(t1)
      else if HasKey(t.log, key) then Fail(DuplicateMovement)
      else Ok(t1.(log := t.log + [Movement(c.variantId, Adjustment, quantity, None, key)]))
  }

  function WriteChanges(t: Tables, bulk: bool, before: map<VariantId, Inventory>,
                        changes: seq<Change>): Outcome<Tables, Problem>
    decreases |changes|
  {
    if changes == [] then Ok(t)
    else if changes[0].variantId !in before then Fail(InventoryNotFound)
    else
      match WriteChange(t, bulk, before[changes[0].variantId], changes[0])
      case Fail(e) => Fail(e)
      case Ok(t1) => WriteChanges(t1, bulk, before, changes[1..])
  }

  /** The transaction in adjustInventory: a known key changes nothing, and there is no check against `reserved`. */
  function WriteVendor(t: Tables, c: Change, key: string, seen: Inventory): Outcome<Tables, Problem> {
    if HasKey(t.log, VendorKey(key)) then Ok(t)
    else if c.variantId !in t.inventory || t.inventory[c.variantId].version != c.expectedVersion
    then Fail(VersionConflict)
    else
      var item := t.inventory[c.variantId];
      var t1 := t.(inventory := t.inventory[c.variantId := Inventory(c.onHand, item.reserved, item.version + 1)]);
      var quantity := c.onHand - seen.onHand;
      if quantity == 0 then Ok(t1)
      else Ok(t1.(log := t.log + [Movement(c.variantId, Adjustment, quantity, None, VendorKey(key))]))
  }

  function WriteEdit(t: Tables, e: Edit): Outcome<Tables, Problem> {
    match e
    case AdminEdit(bulk, changes, before) => WriteChanges(t, bulk, before, changes)
    case VendorEdit(c, key, seen) => WriteVendor(t, c, key, seen)
  }

  // ----- the state machine -----

  /** The tables, and the edits that have been read but may not have been written yet. */
  datatype World = World(tables: Tables, edits: seq<Edit>)

  datatype Event =
    | Checkout(order: OrderId, lines: seq<Line>)
    | ApplyRows(op: RowOperation, rows: seq<Row>)
    | ReleaseItems(items: seq<Line>, rows: seq<Row>)
    | AdminRead(bulk: bool, changes: seq<Change>)
    | VendorRead(change: Change, key: string)
    | Write(edit: nat)

  function Settle(t: Tables, r: Outcome<Tables, Problem>): Tables {
    if r.Ok? then r.value else t
  }

  function Next(w: World, e: Event): World {
    var t := w.tables;
    match e
    case Checkout(order, lines) => w.(tables := Settle(t, ReserveAll(t, order, lines)))
    case ApplyRows(op, rows) => w.(tables := Settle(t, ApplyAll(op, t, rows)))
    case ReleaseItems(items, rows) => w.(tables := Settle(t, ReleasePackage(t, items, rows)))
    case AdminRead(bulk, changes) =>
      if forall c :: c in changes ==> c.variantId in t.inventory
      then w.(edits := w.edits + [AdminEdit(bulk, changes, t.inventory)])
      else w
    case VendorRead(c, key) =>
      if c.variantId in t.inventory then w.(edits := w.edits + [VendorEdit(c, key, t.inventory[c.variantId])]) else w
    case Write(i) => if i < |w.edits| then w.(tables := Settle(t, WriteEdit(t, w.edits[i]))) else w
  }

  /** The caller already knew the version it expects when the row was read. */
  predicate Observed(t: Tables, c: Change) {
    c.variantId in t.inventory ==> c.expectedVersion <= t.inventory[c.variantId].version
  }

  /** Rows are read in the transaction that uses them, and expected versions come from an earlier read. */
  ghost predicate Legal(w: World, e: Event) {
    match e
    case Checkout(_, _) => true
    case ApplyRows(op, rows) => Readable(op, w.tables, rows)
    case ReleaseItems(_, rows) => Readable(GiveBack, w.tables, rows)
    case AdminRead(_, changes) => forall c :: c in changes ==> Observed(w.tables, c)
    case VendorRead(c, _) => Observed(w.tables, c)
    case Write(_) => true
  }

  function Run(w: World, es: seq<Event>): World
    decreases |es|
  {
    if es == [] then w else Run(Next(w, es[0]), es[1..])
  }

  ghost predicate LegalRun(w: World, es: seq<Event>)
    decreases |es|
  {
    es != [] ==> Legal(w, es[0]) && LegalRun(Next(w, es[0]), es[1..])
  }

  /** A vendor's edit is about to be written. */
  predicate VendorWrites(w: World, e: Event) {
    e.Write? && e.edit < |w.edits| && w.edits[e.edit].VendorEdit?
  }

  ghost predicate NoVendorWrites(w: World, es: seq<Event>)
    decreases |es|
  {
    es != [] ==> !VendorWrites(w, es[0]) && NoVendorWrites(Next(w, es[0]), es[1..])
  }

  // ----- invariants of the edits -----

  /** A row may differ from what was seen of it only under a later version. */
  ghost predicate SeenSound(t: Tables, c: Change, seen: Inventory) {
    && c.variantId in t.inventory
    && c.expectedVersion <= seen.version <= t.inventory[c.variantId].version
    && (seen.version == t.inventory[c.variantId].version ==> seen == t.inventory[c.variantId])
  }

  ghost predicate EditSound(t: Tables, e: Edit) {
    match e
    case AdminEdit(_, changes, before) =>
      forall c :: c in changes ==> c.variantId in before && SeenSound(t, c, before[c.variantId])
    case VendorEdit(c, _, seen) => SeenSound(t, c, seen)
  }

  ghost predicate Inv(w: World) {
    Consistent(w.tables) && forall e :: e in w.edits ==> EditSound(w.tables, e)
  }

  /** Every change of a stock row raises its version. */
  ghost predicate Later(t: Tables, t1: Tables) {
    && t1.inventory.Keys == t.inventory.Keys
    && forall v :: v in t.inventory ==>
                     && t.inventory[v].version <= t1.inventory[v].version
                     && (t.inventory[v].version == t1.inventory[v].version ==> t.inventory[v] == t1.inventory[v])
  }

  ghost predicate SameOpening(t: Tables, t1: Tables)
    requires t1.inventory.Keys == t.inventory.Keys
  {
    forall v :: v in t.inventory ==> OpeningStock(t1, v) == OpeningStock(t, v)
  }

  /** What every step promises about the tables. */
  ghost predicate GoodStep(t: Tables, t1: Tables) {
    Consistent(t1) && Later(t, t1) && SameOpening(t, t1)
  }
}
