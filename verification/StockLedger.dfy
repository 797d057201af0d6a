/**
 Each reservation's part of the movement log: its movements carry its variant and quantity, and their effects sum to
 what the reservation has taken from the shelf.
 */
module StockLedger {
  import opened Wrappers
  import opened Stock
  import opened StockProofs
  import opened StockRuns
  import opened StockRunProofs

  /** The reservation that a movement is keyed by. */
  function KeyId(key: MovementKey): Option<nat> {
    match key
    case ConsumeKey(id) => Some(id)
    case ReleaseKey(id) => Some(id)
    case ExpiryKey(id) => Some(id)
    case _ => None
  }

  function EffectOn(m: Movement, id: nat): int {
    if KeyId(m.key) == Some(id) then Effect(m) else 0
  }

  /** The summed effect of a reservation's movements. */
  function ReservationEffect(log: seq<Movement>, id: nat): int {
    if log == [] then 0 else ReservationEffect(log[..|log| - 1], id) + EffectOn(log[|log| - 1], id)
  }

  /** A movement keyed by a reservation sells or releases that reservation's units of its variant. */
  predicate Fits(m: Movement, rs: seq<Reservation>) {
    var id := KeyId(m.key);
    id.Some? ==>
      && id.value < |rs| && m.variantId == rs[id.value].variantId
      && m.kind == (if m.key.ConsumeKey? then Sale else Release)
      && m.quantity == (if m.key.ConsumeKey? then -(rs[id.value].quantity as int) else rs[id.value].quantity)
  }

  /** What a reservation has taken and not given back. */
  function Taken(rs: seq<Reservation>, id: nat): nat {
    if id < |rs| && rs[id].status == Consumed then rs[id].quantity else 0
  }

  ghost predicate Accounted(t: Tables) {
    && (forall i :: 0 <= i < |t.log| ==> Fits(t.log[i], t.reservations))
    && (forall id: nat :: ReservationEffect(t.log, id) == -(Taken(t.reservations, id) as int))
  }

  lemma ReservationEffectAppend(log: seq<Movement>, m: Movement, id: nat)
    ensures ReservationEffect(log + [m], id) == ReservationEffect(log, id) + EffectOn(m, id)
  {
    assert (log + [m])[..|log|] == log;
  }

  /** A reservation keeps its variant and quantity, and new ones come last. */
  ghost predicate Extends(rs: seq<Reservation>, rs': seq<Reservation>) {
    |rs| <= |rs'| && forall i :: 0 <= i < |rs| ==>
                                   rs'[i].variantId == rs[i].variantId && rs'[i].quantity == rs[i].quantity
  }

  /** One more movement, whose effect is the change in what its reservation has taken. */
  lemma OneMoreMovement(t: Tables, t1: Tables, m: Movement)
    requires Accounted(t) && t1.log == t.log + [m] && Extends(t.reservations, t1.reservations)
             && Fits(m, t1.reservations)
    requires forall id: nat :: Taken(t1.reservations, id) == Taken(t.reservations, id) - EffectOn(m, id)
    ensures Accounted(t1)
  {
    forall i | 0 <= i < |t1.log| ensures Fits(t1.log[i], t1.reservations) {
      if i < |t.log| { assert Fits(t.log[i], t.reservations); }
    }
    forall id: nat ensures ReservationEffect(t1.log, id) == -(Taken(t1.reservations, id) as int) {
      ReservationEffectAppend(t.log, m, id);
    }
  }

  lemma PostAccounted(op: RowOperation, t: Tables, row: Row)
    requires Accounted(t) && Current(t, row) && Accepts(op, row.reservation.status)
             && row.reservation.variantId in t.inventory
    ensures Accounted(Post(op, t, row))
  {
    OneMoreMovement(t, Post(op, t, row), MovementOf(op, row));
  }

  lemma {:induction false} ApplyAllAccounted(op: RowOperation, t: Tables, rows: seq<Row>)
    requires Consistent(t) && Accounted(t) && Readable(op, t, rows) && ApplyAll(op, t, rows).Ok?
    ensures Accounted(ApplyAll(op, t, rows).value)
    decreases |rows|
  {
    if rows != [] {
      assert Current(t, rows[0]);
      var t1 := FirstRow(op, t, rows);
      PostAccounted(op, t, rows[0]);
      ApplyAllAccounted(op, t1, rows[1..]);
    }
  }

  lemma {:induction false} ReserveAllAccounted(t: Tables, order: OrderId, lines: seq<Line>)
    requires Accounted(t) && ReserveAll(t, order, lines).Ok?
    ensures Accounted(ReserveAll(t, order, lines).value)
    decreases |lines|
  {
    if lines != [] {
      var t1 := ReserveLine(t, order, lines[0]).value;
      OneMoreMovement(t, t1, t1.log[|t.log|]);
      ReserveAllAccounted(t1, order, lines[1..]);
    }
  }

  lemma {:induction false} WriteChangesAccounted(t: Tables, bulk: bool, before: map<VariantId, Inventory>,
                                                 changes: seq<Change>)
    requires Accounted(t) && WriteChanges(t, bulk, before, changes).Ok?
    ensures Accounted(WriteChanges(t, bulk, before, changes).value)
    decreases |changes|
  {
    if changes != [] {
      var t1 := WriteChange(t, bulk, before[changes[0].variantId], changes[0]).value;
      if t1.log != t.log { OneMoreMovement(t, t1, t1.log[|t.log|]); }
      WriteChangesAccounted(t1, bulk, before, changes[1..]);
    }
  }

  lemma WriteVendorAccounted(t: Tables, c: Change, key: string, seen: Inventory)
    requires Accounted(t) && WriteVendor(t, c, key, seen).Ok?
    ensures Accounted(WriteVendor(t, c, key, seen).value)
  {
    var t1 := WriteVendor(t, c, key, seen).value;
    if t1.log != t.log { OneMoreMovement(t, t1, t1.log[|t.log|]); }
  }

  lemma StepAccounted(w: World, e: Event)
    requires Consistent(w.tables) && Accounted(w.tables) && Legal(w, e)
    ensures Accounted(Next(w, e).tables)
  {
    var t := w.tables;
    match e
    case Checkout(order, lines) =>
      if ReserveAll(t, order, lines).Ok? { ReserveAllAccounted(t, order, lines); }
    case ApplyRows(op, rows) =>
      if ApplyAll(op, t, rows).Ok? { ApplyAllAccounted(op, t, rows); }
    case ReleaseItems(items, rows) =>
      SelectedReadable(t, items, rows);
      if ApplyAll(GiveBack, t, Selected(items, rows)).Ok? { ApplyAllAccounted(GiveBack, t, Selected(items, rows)); }
    case AdminRead(_, _) =>
    case VendorRead(_, _) =>
    case Write(i) =>
      if i < |w.edits| && WriteEdit(t, w.edits[i]).Ok? {
        match w.edits[i]
        case AdminEdit(bulk, changes, before) => WriteChangesAccounted(t, bulk, before, changes);
        case VendorEdit(c, key, seen) => WriteVendorAccounted(t, c, key, seen);
      }
  }

  lemma {:induction false} RunAccounted(w: World, es: seq<Event>)
    requires Inv(w) && Accounted(w.tables) && LegalRun(w, es)
    ensures Accounted(Run(w, es).tables)
    decreases |es|
  {
    if es != [] {
      StepAccounted(w, es[0]);
      StepKeepsInv(w, es[0]);
      RunAccounted(Next(w, es[0]), es[1..]);
    }
  }

  /**
   Over every run, vendor edits included: the movements of a reservation are for its variant and quantity, and their
   effects sum to minus its quantity while it is consumed and to nothing otherwise.
   */
  lemma ReservationLedger(w: World, es: seq<Event>, id: nat)
    requires Opening(w) && LegalRun(w, es)
    ensures var t := Run(w, es).tables;
            && ReservationEffect(t.log, id)
               == (if id < |t.reservations| && t.reservations[id].status == Consumed
                   then -(t.reservations[id].quantity as int) else 0)
            && forall i :: 0 <= i < |t.log| && KeyId(t.log[i].key) == Some(id) ==>
                             && id < |t.reservations| && t.log[i].variantId == t.reservations[id].variantId
                             && t.log[i].quantity
                                == (if t.log[i].kind == Sale then -(t.reservations[id].quantity as int)
                                    else t.reservations[id].quantity)
  {
    OpeningInv(w);
    RunAccounted(w, es);
    var t := Run(w, es).tables;
    assert forall i :: 0 <= i < |t.log| ==> Fits(t.log[i], t.reservations);
  }

  predicate Returns(m: Movement, id: nat) {
    m.key == ReleaseKey(id) || m.key == ExpiryKey(id)
  }

  /**
   A reservation takes stock at most once and gives it back at most once, whichever operation does it, and each time
   it is its own quantity of its own variant.
   */
  lemma AtMostOnce(w: World, es: seq<Event>, id: nat, i: nat, j: nat)
    requires Opening(w) && LegalRun(w, es)
    requires i < |Run(w, es).tables.log| && j < |Run(w, es).tables.log|
    ensures var t := Run(w, es).tables;
            && (t.log[i].key == ConsumeKey(id) && t.log[j].key == ConsumeKey(id) ==> i == j)
            && (Returns(t.log[i], id) && Returns(t.log[j], id) ==> i == j)
            && (Returns(t.log[i], id) && t.log[j].key == ConsumeKey(id) ==>
                  id < |t.reservations| && t.reservations[id].status == Released && t.log[i].key == ReleaseKey(id))
            && (Returns(t.log[i], id) || t.log[i].key == ConsumeKey(id) ==>
                  id < |t.reservations| && Fits(t.log[i], t.reservations))
  {
    OpeningInv(w);
    RunKeepsInv(w, es);
    RunAccounted(w, es);
    var t := Run(w, es).tables;
    assert t.log[i] in t.log && t.log[j] in t.log;
    assert HasKey(t.log, t.log[i].key) && HasKey(t.log, t.log[j].key);
    assert Fits(t.log[i], t.reservations);
  }
}
