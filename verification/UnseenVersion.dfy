/**
 Stock edits written under a version that nobody had seen when the row was read: exactly when they can leave more units
 reserved than on hand.
 */
module UnseenVersion {
  import opened Wrappers
  import opened Stock
  import opened StockProofs
  import opened StockRuns
  import opened StockRunProofs

  // ----- two concrete runs -----

  const FULL := Tables(map["v" := Inventory(5, 0, 1)], [], [])
  const HELD := Tables(map["v" := Inventory(5, 3, 2)], [Reservation("order", "v", 3, Active)],
                       [Movement("v", Reserve, 3, None, CheckoutKey("order", "v"))])
  const GUESS := Change("v", 2, 0)

  lemma HoldThree()
    ensures ReserveAll(FULL, "order", [Line("v", 3)]) == Ok(HELD)
  {
    assert FULL.inventory["v" := Inventory(5, 3, 2)] == HELD.inventory;
    assert FULL.reservations + HELD.reservations == HELD.reservations;
    assert FULL.log + HELD.log == HELD.log;
    assert ReserveLine(FULL, "order", Line("v", 3)) == Ok(HELD);
    assert [Line("v", 3)][1..] == [];
  }

  lemma LowerToNone()
    ensures var r := WriteChanges(HELD, false, FULL.inventory, [GUESS]);
            r.Ok? && "v" in r.value.inventory && r.value.inventory["v"] == Inventory(0, 3, 3)
  {
    var r := WriteChange(HELD, false, Inventory(5, 0, 1), GUESS);
    assert r.Ok? && r.value.inventory["v"] == Inventory(0, 3, 3);
    assert WriteChanges(r.value, false, FULL.inventory, [GUESS][1..]) == r;
  }

  /**
   The version check alone is not enough: an administrator who names a version nobody has seen yet can lower the
   stock below what a checkout reserves between the read and the write.
   */
  lemma UnseenVersionBreaksBound()
    ensures var w := World(FULL, []);
            && Opening(w) && !Observed(FULL, GUESS)
            && !Bounded(Next(Next(Next(w, AdminRead(false, [GUESS])), Checkout("order", [Line("v", 3)])),
                             Write(0)).tables)
  {
    HoldThree();
    LowerToNone();
    var w1 := Next(World(FULL, []), AdminRead(false, [GUESS]));
    assert w1.edits == [AdminEdit(false, [GUESS], FULL.inventory)];
    var w2 := Next(w1, Checkout("order", [Line("v", 3)]));
    assert w2 == World(HELD, w1.edits);
    var w3 := Next(w2, Write(0));
    assert "v" in w3.tables.inventory && w3.tables.inventory["v"] == Inventory(0, 3, 3);
  }

  /** A vendor's edit under the current version, asking for less than is reserved, leaves more reserved than on hand. */
  lemma VendorEditBreaksBound()
    ensures var w := World(FULL, []);
            var held := Next(w, Checkout("order", [Line("v", 3)]));
            && Opening(w) && Observed(held.tables, GUESS)
            && !Bounded(Next(Next(held, VendorRead(GUESS, "key")), Write(0)).tables)
  {
    HoldThree();
    var held := Next(World(FULL, []), Checkout("order", [Line("v", 3)]));
    assert held.tables == HELD && held.edits == [];
    var read := Next(held, VendorRead(GUESS, "key"));
    assert read.edits == [VendorEdit(GUESS, "key", Inventory(5, 3, 2))];
    var written := Next(read, Write(0));
    assert "v" in written.tables.inventory && written.tables.inventory["v"] == Inventory(0, 3, 3);
  }

  // ----- an edit set aside -----

  /** The world with edit k replaced by one that writes nothing. */
  function Masked(w: World, k: nat): World
    requires k < |w.edits|
  {
    w.(edits := w.edits[k := AdminEdit(false, [], map[])])
  }

  lemma MaskedStep(w: World, k: nat, e: Event)
    requires k < |w.edits| && e != Write(k)
    ensures |Next(w, e).edits| >= |w.edits| && Next(Masked(w, k), e) == Masked(Next(w, e), k)
    ensures (Legal(Masked(w, k), e) <==> Legal(w, e)) && (VendorWrites(Masked(w, k), e) <==> VendorWrites(w, e))
  {
  }

  /** As long as edit k is not written it does not matter what it is. */
  lemma {:induction false} MaskedRun(w: World, k: nat, es: seq<Event>)
    requires k < |w.edits| && Write(k) !in es
    ensures LegalRun(Masked(w, k), es) <==> LegalRun(w, es)
    ensures NoVendorWrites(Masked(w, k), es) <==> NoVendorWrites(w, es)
    ensures |Run(w, es).edits| >= |w.edits| && Run(Masked(w, k), es) == Masked(Run(w, es), k)
    decreases |es|
  {
    if es != [] {
      assert es[0] in es;
      MaskedStep(w, k, es[0]);
      assert forall e :: e in es[1..] ==> e in es;
      MaskedRun(Next(w, es[0]), k, es[1..]);
    }
  }

  // ----- one change of a row -----

  /** A row that has changed once has no more reserved than was on hand before. */
  ghost predicate OneChange(t: Tables, t1: Tables) {
    forall v :: v in t.inventory && v in t1.inventory && t1.inventory[v].version == t.inventory[v].version + 1 ==>
                  t1.inventory[v].reserved <= t.inventory[v].onHand
  }

  lemma OneChangeThen(t: Tables, t1: Tables, t2: Tables)
    requires Later(t, t1) && Later(t1, t2) && OneChange(t, t1) && OneChange(t1, t2)
    ensures OneChange(t, t2)
  {
  }

  /** Nothing gets reserved. */
  ghost predicate NotMoreReserved(t: Tables, t1: Tables) {
    forall v :: v in t.inventory && v in t1.inventory ==> t1.inventory[v].reserved <= t.inventory[v].reserved
  }

  lemma ApplyAllReserves(op: RowOperation, t: Tables, rows: seq<Row>)
    requires Consistent(t) && Readable(op, t, rows) && ApplyAll(op, t, rows).Ok?
    ensures NotMoreReserved(t, ApplyAll(op, t, rows).value)
  {
    forall v | v in t.inventory && v in ApplyAll(op, t, rows).value.inventory
      ensures ApplyAll(op, t, rows).value.inventory[v].reserved <= t.inventory[v].reserved
    {
      ApplyAllStock(op, t, rows, v);
    }
  }

  lemma {:induction false} WriteChangesReserve(t: Tables, bulk: bool, before: map<VariantId, Inventory>,
                                               changes: seq<Change>)
    requires WriteChanges(t, bulk, before, changes).Ok?
    ensures NotMoreReserved(t, WriteChanges(t, bulk, before, changes).value)
    ensures WriteChanges(t, bulk, before, changes).value.inventory.Keys == t.inventory.Keys
    decreases |changes|
  {
    if changes != [] {
      WriteChangesReserve(WriteChange(t, bulk, before[changes[0].variantId], changes[0]).value, bulk, before,
                          changes[1..]);
    }
  }

  lemma {:induction false} ReserveAllOnce(t: Tables, order: OrderId, lines: seq<Line>)
    requires Consistent(t) && ReserveAll(t, order, lines).Ok?
    ensures OneChange(t, ReserveAll(t, order, lines).value)
    decreases |lines|
  {
    if lines != [] {
      var t1 := ReserveLine(t, order, lines[0]).value;
      ReserveLineGood(t, order, lines[0]);
      ReserveAllGood(t1, order, lines[1..]);
      ReserveAllOnce(t1, order, lines[1..]);
      OneChangeThen(t, t1, ReserveAll(t1, order, lines[1..]).value);
    }
  }

  lemma StepOnce(w: World, e: Event)
    requires Inv(w) && Bounded(w.tables) && Legal(w, e) && !VendorWrites(w, e)
    ensures OneChange(w.tables, Next(w, e).tables)
  {
    var t := w.tables;
    match e
    case Checkout(order, lines) =>
      if ReserveAll(t, order, lines).Ok? { ReserveAllOnce(t, order, lines); }
    case ApplyRows(op, rows) =>
      if ApplyAll(op, t, rows).Ok? { ApplyAllReserves(op, t, rows); }
    case ReleaseItems(items, rows) =>
      SelectedReadable(t, items, rows);
      if ApplyAll(GiveBack, t, Selected(items, rows)).Ok? { ApplyAllReserves(GiveBack, t, Selected(items, rows)); }
    case AdminRead(_, _) =>
    case VendorRead(_, _) =>
    case Write(i) =>
      if i < |w.edits| && WriteEdit(t, w.edits[i]).Ok? {
        WriteChangesReserve(t, w.edits[i].bulk, w.edits[i].before, w.edits[i].changes);
      }
  }

  lemma {:induction false} RunOnce(w: World, es: seq<Event>)
    requires Inv(w) && Bounded(w.tables) && LegalRun(w, es) && NoVendorWrites(w, es)
    ensures OneChange(w.tables, Run(w, es).tables)
    decreases |es|
  {
    if es != [] {
      StepOnce(w, es[0]);
      StepGood(w, es[0]);
      StepKeepsInv(w, es[0]);
      RunOnce(Next(w, es[0]), es[1..]);
      RunKeepsInv(Next(w, es[0]), es[1..]);
      OneChangeThen(w.tables, Next(w, es[0]).tables, Run(w, es).tables);
    }
  }

  // ----- runs that bring a row to a version -----

  lemma {:induction false} RunThen(w: World, es: seq<Event>, es': seq<Event>)
    requires LegalRun(w, es) && LegalRun(Run(w, es), es') && NoVendorWrites(w, es) && NoVendorWrites(Run(w, es), es')
    ensures LegalRun(w, es + es') && NoVendorWrites(w, es + es') && Run(w, es + es') == Run(Run(w, es), es')
    decreases |es|
  {
    if es == [] {
      assert es + es' == es';
    } else {
      assert (es + es')[0] == es[0] && (es + es')[1..] == es[1..] + es';
      RunThen(Next(w, es[0]), es[1..], es');
    }
  }

  /** A run that leads to a stock row, touches no other, and does not write edit k. */
  ghost predicate Leads(w: World, k: nat, es: seq<Event>, v: VariantId, item: Inventory) {
    && LegalRun(w, es) && NoVendorWrites(w, es) && Write(k) !in es
    && OnlyRow(w.tables, Run(w, es).tables, v, item)
  }

  /** The row is this, and every other is as it was. */
  ghost predicate OnlyRow(t: Tables, t1: Tables, v: VariantId, item: Inventory) {
    v in t1.inventory && t1.inventory == t.inventory[v := item]
  }

  lemma LeadsThen(w: World, k: nat, es: seq<Event>, v: VariantId, item: Inventory, es': seq<Event>, item': Inventory)
    requires Leads(w, k, es, v, item) && Leads(Run(w, es), k, es', v, item')
    ensures Leads(w, k, es + es', v, item')
  {
    RunThen(w, es, es');
    assert w.tables.inventory[v := item][v := item'] == w.tables.inventory[v := item'];
  }

  lemma TwoSteps(w: World, a: Event, b: Event)
    requires Legal(w, a) && Legal(Next(w, a), b) && !VendorWrites(w, a) && !VendorWrites(Next(w, a), b)
    ensures LegalRun(w, [a, b]) && NoVendorWrites(w, [a, b]) && Run(w, [a, b]) == Next(Next(w, a), b)
  {
    assert [a, b][1..] == [b] && [b][1..] == [];
    assert Run(Next(w, a), [b]) == Run(Next(Next(w, a), b), []);
  }

  /** An administrator's edit under the current version sets the stock and raises the version. */
  lemma RaiseOnce(w: World, k: nat, v: VariantId, x: int, to: Inventory) returns (es: seq<Event>)
    requires Inv(w) && k < |w.edits| && v in w.tables.inventory && x >= w.tables.inventory[v].reserved
    requires to == Inventory(x, w.tables.inventory[v].reserved, w.tables.inventory[v].version + 1)
    ensures Leads(w, k, es, v, to)
  {
    var item := w.tables.inventory[v];
    var c := Change(v, item.version, x);
    var read := AdminRead(false, [c]);
    assert c in [c];
    assert Next(w, read).edits == w.edits + [AdminEdit(false, [c], w.tables.inventory)];
    WriteSucceeds(w.tables, c, item);
    TwoSteps(w, read, Write(|w.edits|));
    es := [read, Write(|w.edits|)];
  }

  /** Written back under its current version, a row takes the new stock. */
  lemma WriteSucceeds(t: Tables, c: Change, item: Inventory)
    requires Consistent(t) && c.variantId in t.inventory && item == t.inventory[c.variantId]
    requires c.expectedVersion == item.version && c.onHand >= item.reserved
    ensures var r := WriteEdit(t, AdminEdit(false, [c], t.inventory));
            && r.Ok?
            && r.value.inventory == t.inventory[c.variantId := Inventory(c.onHand, item.reserved, item.version + 1)]
  {
    assert !HasKey(t.log, AdminKey(false, c.variantId, item.version));
    var r := WriteChange(t, false, item, c);
    assert r.Ok? && [c][1..] == [] && WriteChanges(t, false, t.inventory, [c]) == r;
  }

  /** And any number of them in turn. */
  lemma {:induction false} RaiseTimes(w: World, k: nat, v: VariantId, x: int, n: nat, to: Inventory)
    returns (es: seq<Event>)
    requires Inv(w) && k < |w.edits| && v in w.tables.inventory && x >= w.tables.inventory[v].reserved && n > 0
    requires to == Inventory(x, w.tables.inventory[v].reserved, w.tables.inventory[v].version + n)
    ensures Leads(w, k, es, v, to)
    decreases n
  {
    var item := w.tables.inventory[v];
    if n == 1 {
      es := RaiseOnce(w, k, v, x, to);
    } else {
      var next := Inventory(x, item.reserved, item.version + 1);
      var first := RaiseOnce(w, k, v, x, next);
      var mid := AfterLeads(w, k, first, v, next);
      var rest := RaiseTimes(mid, k, v, x, n - 1, to);
      LeadsThen(w, k, first, v, next, rest, to);
      es := first + rest;
    }
  }

  /** The world at the end of such a run. */
  lemma AfterLeads(w: World, k: nat, es: seq<Event>, v: VariantId, item: Inventory) returns (mid: World)
    requires Inv(w) && k < |w.edits| && Leads(w, k, es, v, item)
    ensures mid == Run(w, es) && Inv(mid) && k < |mid.edits| && v in mid.tables.inventory
            && mid.tables.inventory[v] == item
  {
    RunKeepsInv(w, es);
    MaskedRun(w, k, es);
    mid := Run(w, es);
  }

  /** An order that has never checked out. */
  lemma {:induction false} FreshOrder(log: seq<Movement>) returns (order: OrderId)
    ensures forall m :: m in log && m.key.CheckoutKey? ==> |m.key.orderId| < |order|
  {
    if log == [] {
      order := "";
    } else {
      var last := log[|log| - 1];
      order := FreshOrder(log[..|log| - 1]);
      if last.key.CheckoutKey? && |last.key.orderId| >= |order| { order := last.key.orderId + "0"; }
    }
  }

  /** A checkout of a fresh order reserves any number of available units. */
  lemma ReserveSome(w: World, k: nat, v: VariantId, q: nat, to: Inventory) returns (es: seq<Event>)
    requires v in w.tables.inventory && q <= w.tables.inventory[v].onHand - w.tables.inventory[v].reserved
    requires var item := w.tables.inventory[v]; to == Inventory(item.onHand, item.reserved + q, item.version + 1)
    ensures Leads(w, k, es, v, to)
  {
    var order := FreshOrder(w.tables.log);
    var line := Line(v, q);
    assert !HasKey(w.tables.log, CheckoutKey(order, v));
    assert [line][1..] == [];
    var e := Checkout(order, [line]);
    var t1 := ReserveLine(w.tables, order, line);
    assert t1.Ok? && ReserveAll(w.tables, order, [line]) == t1;
    es := [e];
    assert es[1..] == [] && Run(w, es) == Run(Next(w, e), []);
  }

  // ----- exactly when the bound breaks -----

  /** Writing edit k at the end of the run leaves more units reserved than on hand. */
  ghost predicate Breaks(w: World, k: nat, es: seq<Event>) {
    LegalRun(w, es) && NoVendorWrites(w, es) && Write(k) !in es && !Bounded(Next(Run(w, es), Write(k)).tables)
  }

  /** The change may be written after some run: it asks for at least what was reserved, under no older version. */
  predicate Writable(item: Inventory, c: Change) {
    item.version <= c.expectedVersion && item.reserved <= c.onHand
  }

  /**
   By then more may be reserved than the change asks for: everything on hand, or anything once the stock is raised.
   */
  predicate Overtaken(item: Inventory, c: Change) {
    item.version < c.expectedVersion && (c.expectedVersion == item.version + 1 ==> c.onHand < item.onHand)
  }

  /** Changes of different variants of the shop. */
  ghost predicate Changes(t: Tables, cs: seq<Change>) {
    && (forall i :: 0 <= i < |cs| ==> cs[i].variantId in t.inventory)
    && (forall i, j :: 0 <= i < j < |cs| ==> cs[i].variantId != cs[j].variantId)
  }

  /** The read of an edit, before it is written. */
  ghost predicate JustRead(w: World, bulk: bool, cs: seq<Change>, w1: World) {
    && Inv(w) && Bounded(w.tables) && Changes(w.tables, cs)
    && w1 == World(w.tables, w.edits + [AdminEdit(bulk, cs, w.tables.inventory)])
  }

  lemma ReadMasked(w: World, bulk: bool, cs: seq<Change>, w1: World)
    requires JustRead(w, bulk, cs, w1)
    ensures |w1.edits| == |w.edits| + 1 && Inv(Masked(w1, |w.edits|)) && Bounded(w1.tables)
  {
    forall d | d in Masked(w1, |w.edits|).edits ensures EditSound(w.tables, d) {
      assert d in w.edits || d == AdminEdit(false, [], map[]);
    }
  }

  /** What the write meets: rows that a legal run has led to. */
  lemma AtTheWrite(w: World, bulk: bool, cs: seq<Change>, w1: World, es: seq<Event>)
    requires JustRead(w, bulk, cs, w1) && LegalRun(w1, es) && NoVendorWrites(w1, es) && Write(|w.edits|) !in es
    ensures var k, end := |w.edits|, Run(w1, es);
            && k < |end.edits| && end.edits[k] == w1.edits[k] && Consistent(end.tables) && Bounded(end.tables)
            && Later(w.tables, end.tables) && OneChange(w.tables, end.tables)
  {
    var k := |w.edits|;
    ReadMasked(w, bulk, cs, w1);
    MaskedRun(w1, k, es);
    RunKeepsInv(Masked(w1, k), es);
    RunOnce(Masked(w1, k), es);
    EditStays(w1, k, es);
  }

  lemma {:induction false} EditStays(w: World, k: nat, es: seq<Event>)
    requires k < |w.edits|
    ensures k < |Run(w, es).edits| && Run(w, es).edits[k] == w.edits[k]
    decreases |es|
  {
    if es != [] { EditStays(Next(w, es[0]), k, es[1..]); }
  }

  // ----- what a write of several changes does -----

  /** A row after the write: the changed ones take the new stock and keep what is reserved. */
  function Written(t: Tables, cs: seq<Change>, v: VariantId): Inventory
    requires v in t.inventory
  {
    if cs == [] then t.inventory[v]
    else if cs[0].variantId == v then Inventory(cs[0].onHand, t.inventory[v].reserved, t.inventory[v].version + 1)
    else Written(t, cs[1..], v)
  }

  /** What an accepted write has met. */
  ghost predicate Met(t: Tables, before: map<VariantId, Inventory>, c: Change) {
    && c.variantId in t.inventory && c.variantId in before
    && t.inventory[c.variantId].version == c.expectedVersion && before[c.variantId].reserved <= c.onHand
  }

  lemma Rest(t: Tables, cs: seq<Change>)
    requires cs != [] && Changes(t, cs)
    ensures Changes(t, cs[1..]) && forall i :: 0 <= i < |cs[1..]| ==> cs[1..][i].variantId != cs[0].variantId
  {
  }

  /** An accepted write of changes of different variants has met each row under the version it names. */
  lemma {:induction false} WriteMeets(t: Tables, bulk: bool, before: map<VariantId, Inventory>, cs: seq<Change>)
    requires Changes(t, cs) && WriteChanges(t, bulk, before, cs).Ok?
    ensures WriteChanges(t, bulk, before, cs).value.inventory.Keys == t.inventory.Keys
    ensures forall v :: v in t.inventory ==> WriteChanges(t, bulk, before, cs).value.inventory[v] == Written(t, cs, v)
    ensures forall i :: 0 <= i < |cs| ==> Met(t, before, cs[i])
    decreases |cs|
  {
    if cs != [] {
      var t1 := WriteChange(t, bulk, before[cs[0].variantId], cs[0]).value;
      Rest(t, cs);
      assert Met(t, before, cs[0]);
      WriteMeets(t1, bulk, before, cs[1..]);
      forall v | v in t.inventory ensures Written(t, cs, v) == Written(t1, cs[1..], v) { WrittenRest(t, t1, cs, v); }
      forall i | 0 <= i < |cs| ensures Met(t, before, cs[i]) {
        if i > 0 { assert Met(t1, before, cs[1..][i - 1]); }
      }
    }
  }

  lemma WrittenRest(t: Tables, t1: Tables, cs: seq<Change>, v: VariantId)
    requires cs != [] && Changes(t, cs) && v in t.inventory
    requires var c := cs[0];
             t1.inventory == t.inventory[c.variantId := Inventory(c.onHand, t.inventory[c.variantId].reserved,
                                                                  t.inventory[c.variantId].version + 1)]
    ensures Written(t, cs, v) == Written(t1, cs[1..], v)
  {
    if cs[0].variantId == v {
      Rest(t, cs);
      WrittenElsewhere(t1, cs[1..], v);
    } else {
      SameWritten(t, t1, cs[1..], v);
    }
  }

  lemma {:induction false} WrittenElsewhere(t: Tables, cs: seq<Change>, v: VariantId)
    requires v in t.inventory && forall i :: 0 <= i < |cs| ==> cs[i].variantId != v
    ensures Written(t, cs, v) == t.inventory[v]
  {
    if cs != [] { WrittenElsewhere(t, cs[1..], v); }
  }

  lemma {:induction false} SameWritten(t: Tables, t1: Tables, cs: seq<Change>, v: VariantId)
    requires v in t.inventory && v in t1.inventory && t.inventory[v] == t1.inventory[v]
    ensures Written(t, cs, v) == Written(t1, cs, v)
  {
    if cs != [] { SameWritten(t, t1, cs[1..], v); }
  }

  lemma {:induction false} WrittenAt(t: Tables, cs: seq<Change>, i: nat)
    requires Changes(t, cs) && i < |cs|
    ensures var v := cs[i].variantId;
            Written(t, cs, v) == Inventory(cs[i].onHand, t.inventory[v].reserved, t.inventory[v].version + 1)
  {
    if i > 0 {
      assert cs[1..][i - 1] == cs[i];
      WrittenAt(t, cs[1..], i - 1);
    }
  }

  /** Where every row is met and every key is fresh, the write is accepted. */
  lemma {:induction false} WriteAccepted(t: Tables, bulk: bool, before: map<VariantId, Inventory>, cs: seq<Change>)
    requires Changes(t, cs) && (forall i :: 0 <= i < |cs| ==> Met(t, before, cs[i]))
    requires forall i :: 0 <= i < |cs| ==> !HasKey(t.log, AdminKey(bulk, cs[i].variantId, cs[i].expectedVersion))
    ensures WriteChanges(t, bulk, before, cs).Ok?
    decreases |cs|
  {
    if cs != [] {
      var c := cs[0];
      assert Met(t, before, c);
      var r := WriteChange(t, bulk, before[c.variantId], c);
      var t1 := r.value;
      Rest(t, cs);
      forall i | 0 <= i < |cs[1..]|
        ensures Met(t1, before, cs[1..][i])
        ensures !HasKey(t1.log, AdminKey(bulk, cs[1..][i].variantId, cs[1..][i].expectedVersion))
      {
        assert cs[1..][i] == cs[i + 1] && Met(t, before, cs[i + 1]);
      }
      WriteAccepted(t1, bulk, before, cs[1..]);
    }
  }

  // ----- what a break needs -----

  /** A write that breaks the bound: every change is writable, and one is overtaken. */
  lemma BreakNeeds(w: World, bulk: bool, cs: seq<Change>, w1: World, es: seq<Event>) returns (b: nat)
    requires JustRead(w, bulk, cs, w1) && Breaks(w1, |w.edits|, es)
    ensures forall i :: 0 <= i < |cs| ==> Writable(w.tables.inventory[cs[i].variantId], cs[i])
    ensures b < |cs| && Overtaken(w.tables.inventory[cs[b].variantId], cs[b])
  {
    AtTheWrite(w, bulk, cs, w1, es);
    assert WriteEdit(Run(w1, es).tables, w1.edits[|w.edits|])
        == WriteChanges(Run(w1, es).tables, bulk, w.tables.inventory, cs);
    b := BadWriteNeeds(w.tables, Run(w1, es).tables, bulk, cs);
  }

  lemma BadWriteNeeds(t0: Tables, t: Tables, bulk: bool, cs: seq<Change>) returns (b: nat)
    requires Bounded(t) && Later(t0, t) && OneChange(t0, t) && Changes(t0, cs)
    requires WriteChanges(t, bulk, t0.inventory, cs).Ok? && !Bounded(WriteChanges(t, bulk, t0.inventory, cs).value)
    ensures forall i :: 0 <= i < |cs| ==> Writable(t0.inventory[cs[i].variantId], cs[i])
    ensures b < |cs| && Overtaken(t0.inventory[cs[b].variantId], cs[b])
  {
    WriteMeets(t, bulk, t0.inventory, cs);
    var t1 := WriteChanges(t, bulk, t0.inventory, cs).value;
    var v :| v in t.inventory && !(0 <= t1.inventory[v].reserved <= t1.inventory[v].onHand);
    b := ChangeOf(t, cs, v);
    forall i | 0 <= i < |cs|
      ensures Writable(t0.inventory[cs[i].variantId], cs[i])
      ensures t.inventory[cs[i].variantId].reserved > cs[i].onHand ==> Overtaken(t0.inventory[cs[i].variantId], cs[i])
    {
      MetMeans(t0, t, cs[i]);
    }
  }

  /** A row met is writable, and overtaken if more was reserved than asked for. */
  lemma MetMeans(t0: Tables, t: Tables, c: Change)
    requires Later(t0, t) && OneChange(t0, t) && Met(t, t0.inventory, c)
    ensures Writable(t0.inventory[c.variantId], c)
    ensures t.inventory[c.variantId].reserved > c.onHand ==> Overtaken(t0.inventory[c.variantId], c)
  {
  }

  /** A row that is not as before was changed. */
  lemma ChangeOf(t: Tables, cs: seq<Change>, v: VariantId) returns (b: nat)
    requires v in t.inventory && Bounded(t) && Changes(t, cs)
    requires !(0 <= Written(t, cs, v).reserved <= Written(t, cs, v).onHand)
    ensures b < |cs| && cs[b].variantId == v && cs[b].onHand < t.inventory[v].reserved
  {
    if forall i :: 0 <= i < |cs| ==> cs[i].variantId != v { WrittenElsewhere(t, cs, v); }
    b :| 0 <= b < |cs| && cs[b].variantId == v;
    WrittenAt(t, cs, b);
  }

  // ----- a run that breaks -----

  /** A run that brings a row to the version a change names, with more reserved than it asks for if so wanted. */
  lemma Bring(w: World, k: nat, c: Change, over: bool) returns (es: seq<Event>, item: Inventory)
    requires Inv(w) && Bounded(w.tables) && k < |w.edits| && c.variantId in w.tables.inventory
    requires Writable(w.tables.inventory[c.variantId], c) && (over ==> Overtaken(w.tables.inventory[c.variantId], c))
    ensures Leads(w, k, es, c.variantId, item) && item.version == c.expectedVersion
            && (over ==> c.onHand < item.reserved)
  {
    var v, now := c.variantId, w.tables.inventory[c.variantId];
    var gap := c.expectedVersion - now.version;
    if over {
      es, item := Overtake(w, k, c);
    } else if gap == 0 {
      es, item := [], now;
    } else {
      item := Inventory(c.onHand, now.reserved, c.expectedVersion);
      es := RaiseTimes(w, k, v, c.onHand, gap, item);
    }
  }

  /** The next version: everything that is on hand gets reserved. A later one: the stock is raised first. */
  lemma Overtake(w: World, k: nat, c: Change) returns (es: seq<Event>, item: Inventory)
    requires Inv(w) && Bounded(w.tables) && k < |w.edits| && c.variantId in w.tables.inventory
    requires Writable(w.tables.inventory[c.variantId], c) && Overtaken(w.tables.inventory[c.variantId], c)
    ensures Leads(w, k, es, c.variantId, item) && item.version == c.expectedVersion && c.onHand < item.reserved
  {
    var v, now := c.variantId, w.tables.inventory[c.variantId];
    var gap := c.expectedVersion - now.version;
    if gap == 1 {
      item := Inventory(now.onHand, now.onHand, c.expectedVersion);
      es := ReserveSome(w, k, v, now.onHand - now.reserved, item);
    } else {
      item := Inventory(c.onHand + 1, c.onHand + 1, c.expectedVersion);
      es := RaiseAndReserve(w, k, v, c.onHand + 1, gap - 1, item);
    }
  }

  lemma RaiseAndReserve(w: World, k: nat, v: VariantId, x: int, n: nat, to: Inventory) returns (es: seq<Event>)
    requires Inv(w) && k < |w.edits| && v in w.tables.inventory && x >= w.tables.inventory[v].reserved && n > 0
    requires to == Inventory(x, x, w.tables.inventory[v].version + n + 1)
    ensures Leads(w, k, es, v, to)
  {
    var now := w.tables.inventory[v];
    var raised := Inventory(x, now.reserved, now.version + n);
    var first := RaiseTimes(w, k, v, x, n, raised);
    var mid := AfterLeads(w, k, first, v, raised);
    var rest := ReserveSome(mid, k, v, x - now.reserved, to);
    LeadsThen(w, k, first, v, raised, rest, to);
    es := first + rest;
  }

  /**
   The changed rows are at the versions named, that of change b with more reserved than it asks for; others as before.
   */
  ghost predicate Ready(t: Tables, t1: Tables, cs: seq<Change>, b: nat) {
    && t1.inventory.Keys == t.inventory.Keys
    && (forall i :: 0 <= i < |cs| ==> cs[i].variantId in t1.inventory
                                      && t1.inventory[cs[i].variantId].version == cs[i].expectedVersion
                                      && (i == b ==> cs[i].onHand < t1.inventory[cs[i].variantId].reserved))
    && (forall v :: v in t.inventory && (forall i :: 0 <= i < |cs| ==> cs[i].variantId != v) ==>
                      t1.inventory[v] == t.inventory[v])
  }

  lemma OneMoreReady(t: Tables, t1: Tables, t2: Tables, cs: seq<Change>, b: nat, item: Inventory)
    requires cs != [] && Changes(t, cs) && Ready(t, t1, cs[..|cs| - 1], b)
    requires t2.inventory == t1.inventory[cs[|cs| - 1].variantId := item]
             && item.version == cs[|cs| - 1].expectedVersion
    requires b == |cs| - 1 ==> cs[b].onHand < item.reserved
    ensures Ready(t, t2, cs, b)
  {
    var n := |cs| - 1;
    forall i | 0 <= i < |cs|
      ensures cs[i].variantId in t2.inventory && t2.inventory[cs[i].variantId].version == cs[i].expectedVersion
      ensures i == b ==> cs[i].onHand < t2.inventory[cs[i].variantId].reserved
    {
      if i < n { assert cs[..n][i] == cs[i] && cs[i].variantId != cs[n].variantId; }
    }
    forall v | v in t.inventory && (forall i :: 0 <= i < |cs| ==> cs[i].variantId != v)
      ensures t2.inventory[v] == t.inventory[v]
    {
      assert cs[n].variantId != v;
      assert forall i :: 0 <= i < n ==> cs[..n][i].variantId != v;
    }
  }

  /** The last row, once the others are ready. */
  lemma BringOne(w: World, k: nat, cs: seq<Change>, b: nat, es: seq<Event>) returns (rest: seq<Event>, item: Inventory)
    requires Inv(w) && Bounded(w.tables) && k < |w.edits| && cs != [] && Changes(w.tables, cs)
    requires LegalRun(w, es) && NoVendorWrites(w, es) && Write(k) !in es
    requires Ready(w.tables, Run(w, es).tables, cs[..|cs| - 1], b)
    requires var c := cs[|cs| - 1];
             Writable(w.tables.inventory[c.variantId], c)
             && (b == |cs| - 1 ==> Overtaken(w.tables.inventory[c.variantId], c))
    ensures Leads(Run(w, es), k, rest, cs[|cs| - 1].variantId, item) && item.version == cs[|cs| - 1].expectedVersion
    ensures b == |cs| - 1 ==> cs[b].onHand < item.reserved
  {
    RunKeepsInv(w, es);
    MaskedRun(w, k, es);
    assert Run(w, es).tables.inventory[cs[|cs| - 1].variantId] == w.tables.inventory[cs[|cs| - 1].variantId];
    rest, item := Bring(Run(w, es), k, cs[|cs| - 1], b == |cs| - 1);
  }

  /** The rows are brought to their versions one after the other. */
  lemma {:induction false} BringAll(w: World, k: nat, cs: seq<Change>, b: nat) returns (es: seq<Event>)
    requires Inv(w) && Bounded(w.tables) && k < |w.edits| && Changes(w.tables, cs)
    requires forall i :: 0 <= i < |cs| ==> Writable(w.tables.inventory[cs[i].variantId], cs[i])
    requires b < |cs| ==> Overtaken(w.tables.inventory[cs[b].variantId], cs[b])
    ensures LegalRun(w, es) && NoVendorWrites(w, es) && Write(k) !in es && Ready(w.tables, Run(w, es).tables, cs, b)
    decreases |cs|
  {
    if cs == [] {
      es := [];
    } else {
      var n := |cs| - 1;
      assert forall i :: 0 <= i < n ==> cs[..n][i] == cs[i];
      es := BringAll(w, k, cs[..n], b);
      var rest, item := BringOne(w, k, cs, b, es);
      OneMoreReady(w.tables, Run(w, es).tables, Run(Run(w, es), rest).tables, cs, b, item);
      RunThen(w, es, rest);
      es := es + rest;
    }
  }

  /** Once the rows are ready, the write is accepted and breaks the bound. */
  lemma ReadyWrite(t0: Tables, t: Tables, bulk: bool, cs: seq<Change>, b: nat)
    requires Consistent(t) && Changes(t0, cs) && b < |cs| && Ready(t0, t, cs, b)
    requires forall i :: 0 <= i < |cs| ==> Writable(t0.inventory[cs[i].variantId], cs[i])
    ensures var r := WriteChanges(t, bulk, t0.inventory, cs); r.Ok? && !Bounded(r.value)
  {
    forall i | 0 <= i < |cs|
      ensures Met(t, t0.inventory, cs[i]) && !HasKey(t.log, AdminKey(bulk, cs[i].variantId, cs[i].expectedVersion))
    {
      assert Writable(t0.inventory[cs[i].variantId], cs[i]);
    }
    WriteAccepted(t, bulk, t0.inventory, cs);
    WriteMeets(t, bulk, t0.inventory, cs);
    WrittenAt(t, cs, b);
  }

  /** A run that makes the rows ready makes the write break the bound. */
  lemma ReadyBreaks(w: World, bulk: bool, cs: seq<Change>, w1: World, es: seq<Event>, b: nat)
    requires JustRead(w, bulk, cs, w1) && LegalRun(w1, es) && NoVendorWrites(w1, es) && Write(|w.edits|) !in es
    requires b < |cs| && Ready(w.tables, Run(w1, es).tables, cs, b)
    requires forall i :: 0 <= i < |cs| ==> Writable(w.tables.inventory[cs[i].variantId], cs[i])
    ensures Breaks(w1, |w.edits|, es)
  {
    AtTheWrite(w, bulk, cs, w1, es);
    ReadyWrite(w.tables, Run(w1, es).tables, bulk, cs, b);
    WrittenNext(Run(w1, es), |w.edits|, bulk, cs, w.tables.inventory);
  }

  lemma WrittenNext(w: World, k: nat, bulk: bool, cs: seq<Change>, before: map<VariantId, Inventory>)
    requires k < |w.edits| && w.edits[k] == AdminEdit(bulk, cs, before) && WriteChanges(w.tables, bulk, before, cs).Ok?
    ensures Next(w, Write(k)).tables == WriteChanges(w.tables, bulk, before, cs).value
  {
  }

  lemma BreakingRun(w: World, bulk: bool, cs: seq<Change>, w1: World, b: nat) returns (es: seq<Event>)
    requires JustRead(w, bulk, cs, w1) && b < |cs| && Overtaken(w.tables.inventory[cs[b].variantId], cs[b])
    requires forall i :: 0 <= i < |cs| ==> Writable(w.tables.inventory[cs[i].variantId], cs[i])
    ensures Breaks(w1, |w.edits|, es)
  {
    ReadMasked(w, bulk, cs, w1);
    es := BringAll(Masked(w1, |w.edits|), |w.edits|, cs, b);
    MaskedRun(w1, |w.edits|, es);
    ReadyBreaks(w, bulk, cs, w1, es, b);
  }

  /**
   For every world and every edit, of one variant or of many: some run without vendor writes, ending in the write of the
   edit, breaks the bound exactly when every change asks for at least what was reserved when it was read, under the
   version read or a later one, and some change names a later version and, if it is the very next one, asks for less
   than was on hand.
   */
  lemma UnseenVersionBreaksExactly(w: World, bulk: bool, cs: seq<Change>)
    requires Inv(w) && Bounded(w.tables) && Changes(w.tables, cs)
    ensures var w1 := Next(w, AdminRead(bulk, cs));
            (exists es :: Breaks(w1, |w.edits|, es)) <==>
            && (forall i :: 0 <= i < |cs| ==> Writable(w.tables.inventory[cs[i].variantId], cs[i]))
            && (exists b :: 0 <= b < |cs| && Overtaken(w.tables.inventory[cs[b].variantId], cs[b]))
  {
    var w1 := Next(w, AdminRead(bulk, cs));
    assert JustRead(w, bulk, cs, w1);
    if (forall i :: 0 <= i < |cs| ==> Writable(w.tables.inventory[cs[i].variantId], cs[i]))
       && exists b :: 0 <= b < |cs| && Overtaken(w.tables.inventory[cs[b].variantId], cs[b])
    {
      var b :| 0 <= b < |cs| && Overtaken(w.tables.inventory[cs[b].variantId], cs[b]);
      var es := BreakingRun(w, bulk, cs, w1, b);
    }
    forall es | Breaks(w1, |w.edits|, es)
      ensures forall i :: 0 <= i < |cs| ==> Writable(w.tables.inventory[cs[i].variantId], cs[i])
      ensures exists b :: 0 <= b < |cs| && Overtaken(w.tables.inventory[cs[b].variantId], cs[b])
    {
      var b := BreakNeeds(w, bulk, cs, w1, es);
    }
  }
}
