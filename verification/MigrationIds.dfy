/**
 The ids of different legacy orders: their hashed texts are joined with colons, so one order's texts can run into
 another's. Exactly when that happens, for the texts and for accepted orders.
 */
module MigrationIds {
  import opened Wrappers
  import opened Migration
  import Money

  predicate Colonless(s: string) { ':' !in s }

  /** The second legacy id continues the first with the word between two colons, or ends in it. */
  predicate Continues(a: string, b: string, word: string) {
    a + ":" + word + ":" <= b || b == a + ":" + word
  }

  /** Orders with these legacy ids can have rows with equal keys. */
  predicate MayCollide(a: string, b: string) {
    || a == b
    || Continues(a, b, "vendor") || Continues(b, a, "vendor")
    || Continues(a, b, "item") || Continues(b, a, "item")
  }

  // ----- texts -----

  lemma SameText(a: string, x: string, b: string, y: string)
    ensures TargetId("orders", a, x) == TargetId("orders", b, y) <==> a + ":" + x == b + ":" + y
  {
    var prefix := "amiyo-go:" + "orders" + ":";
    var s, t := a + ":" + x, b + ":" + y;
    assert TargetId("orders", a, x) == prefix + s && TargetId("orders", b, y) == prefix + t;
    assert (prefix + s)[|prefix|..] == s && (prefix + t)[|prefix|..] == t;
  }

  /** Equal texts whose first parts differ in length: the longer first part continues the shorter. */
  lemma Splice(a: string, p: string, b: string, q: string, word: string)
    requires Colonless(word) && |a| < |b| && a + ":" + (word + ":" + p) == b + ":" + (word + ":" + q)
    ensures Continues(a, b, word)
  {
    var front := a + ":" + word + ":";
    var t := front + p;
    assert t == a + ":" + (word + ":" + p) == b + ":" + (word + ":" + q);
    assert t[..|b|] == b && t[|b|] == ':';
    if |front| <= |b| {
      assert t[..|front|] == front && b[..|front|] == front;
    } else {
      NoColonInWord(a, word, p, |b| - |a| - 1);
      assert t[..|a| + 1 + |word|] == a + ":" + word;
    }
  }

  lemma NoColonInWord(a: string, word: string, p: string, k: nat)
    requires Colonless(word)
    ensures k < |word| ==> (a + ":" + word + ":" + p)[|a| + 1 + k] != ':'
  {
    if k < |word| { assert word[k] in word; }
  }

  /** Conversely, any end of the longer text is an end of the shorter one. */
  lemma SpliceExists(a: string, b: string, word: string, q: string) returns (p: string)
    requires Continues(a, b, word)
    ensures a + ":" + (word + ":" + p) == b + ":" + (word + ":" + q)
    ensures |q| <= |p| && p[|p| - |q|..] == q
  {
    var front := a + ":" + word + ":";
    if front <= b {
      var rest := b[|front|..];
      p := rest + ":" + word + ":" + q;
      assert b == front + rest;
      assert front + p == b + ":" + (word + ":" + q);
      assert front + p == a + ":" + (word + ":" + p);
    } else {
      p := word + ":" + q;
      assert a + ":" + (word + ":" + p) == b + ":" + (word + ":" + q);
    }
  }

  lemma SameLength(a: string, x: string, b: string, y: string)
    requires |a| == |b| && a + ":" + x == b + ":" + y
    ensures a == b
  {
    assert (a + ":" + x)[..|a|] == a && (b + ":" + y)[..|a|] == b;
  }

  /** Which of two different legacy ids continues the other. */
  lemma EitherContinues(a: string, p: string, b: string, q: string, word: string)
    requires Colonless(word) && a != b && a + ":" + (word + ":" + p) == b + ":" + (word + ":" + q)
    ensures Continues(a, b, word) || Continues(b, a, word)
  {
    if |a| < |b| {
      Splice(a, p, b, q, word);
    } else if |b| < |a| {
      Splice(b, q, a, p, word);
    } else {
      SameLength(a, word + ":" + p, b, word + ":" + q);
    }
  }

  // ----- ids of vendor orders and items -----

  lemma VendorText(a: string, v: string, b: string, w: string)
    ensures VendorOrderId(a, v) == VendorOrderId(b, w) <==>
            a + ":" + ("vendor" + ":" + v) == b + ":" + ("vendor" + ":" + w)
  {
    SameText(a, "vendor:" + v, b, "vendor:" + w);
    assert "vendor:" + v == "vendor" + ":" + v && "vendor:" + w == "vendor" + ":" + w;
  }

  lemma ItemText(a: string, v: string, i: nat, b: string, w: string, j: nat)
    ensures var x, y := v + ":" + Money.ToDigits(i), w + ":" + Money.ToDigits(j);
            ItemId(a, v, i) == ItemId(b, w, j) <==> a + ":" + ("item" + ":" + x) == b + ":" + ("item" + ":" + y)
  {
    var x, y := "item:" + v + ":" + Money.ToDigits(i), "item:" + w + ":" + Money.ToDigits(j);
    SameText(a, x, b, y);
    assert x == "item" + ":" + (v + ":" + Money.ToDigits(i)) && y == "item" + ":" + (w + ":" + Money.ToDigits(j));
  }

  /**
   Two different orders have a vendor-order id in common, for some vendors, exactly when one id continues the other.
   */
  lemma VendorOrderIdsCollide(a: string, b: string)
    requires a != b
    ensures Continues(a, b, "vendor") || Continues(b, a, "vendor")
       <==> exists v, w :: VendorOrderId(a, v) == VendorOrderId(b, w)
  {
    if Continues(a, b, "vendor") || Continues(b, a, "vendor") {
      var v, w := CollidingVendors(a, b);
    }
    forall v, w | VendorOrderId(a, v) == VendorOrderId(b, w)
      ensures Continues(a, b, "vendor") || Continues(b, a, "vendor")
    {
      VendorText(a, v, b, w);
      EitherContinues(a, v, b, w, "vendor");
    }
  }

  /** The same for items. */
  lemma ItemIdsCollide(a: string, b: string)
    requires a != b
    ensures Continues(a, b, "item") || Continues(b, a, "item")
       <==> exists v, i, w, j :: ItemId(a, v, i) == ItemId(b, w, j)
  {
    if Continues(a, b, "item") || Continues(b, a, "item") {
      var v, w := CollidingItems(a, b, 0);
    }
    forall v, i, w, j | ItemId(a, v, i) == ItemId(b, w, j)
      ensures Continues(a, b, "item") || Continues(b, a, "item")
    {
      ItemText(a, v, i, b, w, j);
      EitherContinues(a, v + ":" + Money.ToDigits(i), b, w + ":" + Money.ToDigits(j), "item");
    }
  }

  // ----- vendors that make ids collide -----

  lemma {:induction false} StartNotBlank(s: string, k: nat)
    requires k < |s| && !Money.IsSpace(s[k])
    ensures var t := Money.TrimStart(s); |t| > 0 && exists m :: 0 <= m < |t| && t[m] == s[k]
  {
    if Money.IsSpace(s[0]) {
      assert s[1..][k - 1] == s[k];
      StartNotBlank(s[1..], k - 1);
    }
  }

  lemma {:induction false} EndNotBlank(s: string, k: nat)
    requires k < |s| && !Money.IsSpace(s[k])
    ensures Money.TrimEnd(s) != ""
  {
    if Money.IsSpace(s[|s| - 1]) { EndNotBlank(s[..|s| - 1], k); }
  }

  /** Text with a visible character is not blank. */
  lemma NotBlank(s: string, k: nat)
    requires k < |s| && !Money.IsSpace(s[k])
    ensures !Blank(s)
  {
    StartNotBlank(s, k);
    var t := Money.TrimStart(s);
    var m :| 0 <= m < |t| && t[m] == s[k];
    EndNotBlank(t, m);
  }

  lemma EndsVisible(p: string, q: string)
    requires q != "" && !Money.IsSpace(q[|q| - 1]) && |q| <= |p| && p[|p| - |q|..] == q
    ensures !Blank(p)
  {
    assert p[|p| - 1] == q[|q| - 1];
    NotBlank(p, |p| - 1);
  }

  lemma CollidingVendors(a: string, b: string) returns (v: string, w: string)
    requires Continues(a, b, "vendor") || Continues(b, a, "vendor")
    ensures VendorOrderId(a, v) == VendorOrderId(b, w) && !Blank(v) && !Blank(w)
  {
    v, w := "w", "w";
    if Continues(a, b, "vendor") {
      v := SpliceExists(a, b, "vendor", w);
    } else { w := SpliceExists(b, a, "vendor", v); }
    VendorText(a, v, b, w);
    EndsVisible(v, "w");
    EndsVisible(w, "w");
  }

  lemma CollidingItems(a: string, b: string, i: nat) returns (v: string, w: string)
    requires Continues(a, b, "item") || Continues(b, a, "item")
    ensures ItemId(a, v, i) == ItemId(b, w, i) && !Blank(v) && !Blank(w)
  {
    v, w := "w", "w";
    if Continues(a, b, "item") { v := SpliceExists(a, b, "item", w); } else { w := SpliceExists(b, a, "item", v); }
    var end := ":" + Money.ToDigits(i);
    assert a + ":" + ("item" + ":" + v) + end == b + ":" + ("item" + ":" + w) + end;
    assert a + ":" + ("item" + ":" + v) + end == a + ":" + ("item" + ":" + (v + ":" + Money.ToDigits(i)));
    assert b + ":" + ("item" + ":" + w) + end == b + ":" + ("item" + ":" + (w + ":" + Money.ToDigits(i)));
    ItemText(a, v, i, b, w, i);
    EndsVisible(v, "w");
    EndsVisible(w, "w");
  }

  // ----- an accepted order -----

  /** One line of one vendor. */
  function SimpleOrder(id: string, vendor: string): Order {
    Order(Some(id), true, Printed("1", true), Absent, Absent, Absent, Absent, Some("n"), None, "pending",
          [SimpleLine(vendor)])
  }

  function SimpleLine(vendor: string): Product {
    Product(Some(vendor), Some("p"), Printed("1", true), Some(1), Some("t"), Some("s"))
  }

  lemma SimpleAmounts()
    ensures Amount(Printed("1", true)).Some? && Amount(Printed("0", false)).Some?
  {
    Money.ParsersAgree("1", "");
    Money.ParsersAgree("0", "");
    assert Money.Written("1", "") == "1" && Money.Written("0", "") == "0";
  }

  lemma SimpleAccepted(id: string, vendor: string)
    requires !Blank(vendor)
    ensures MapOrder(SimpleOrder(id, vendor)).Ok?
    ensures Vendors(SimpleOrder(id, vendor).products) == [vendor]
  {
    var order := SimpleOrder(id, vendor);
    SimpleAmounts();
    NotBlank("p", 0);
    assert OwnRow(order).Ok?;
    assert LineSound(order.products[0]);
    AcceptedExactly(order);
    SimpleVendors(vendor);
  }

  lemma SimpleVendors(vendor: string)
    ensures Vendors([SimpleLine(vendor)]) == [vendor] && LinesOf([SimpleLine(vendor)], vendor) == [SimpleLine(vendor)]
  {
    var products := [SimpleLine(vendor)];
    assert seq(|products|, i requires 0 <= i < |products| => VendorOf(products[i])) == [vendor];
    assert [vendor][..0] == [] && products[..0] == [];
    assert Distinct([vendor]) == [vendor];
  }

  /** Its rows: the order, its one vendor order, and its one item. */
  lemma SimpleRows(id: string, vendor: string)
    requires !Blank(vendor)
    ensures MapOrder(SimpleOrder(id, vendor)).Ok?
    ensures var rows := MapOrder(SimpleOrder(id, vendor)).value;
            && |rows| == 3 && KeyOf(rows[0]) == ("orders", TargetId("orders", id, ""))
            && KeyOf(rows[1]) == ("vendor_orders", VendorOrderId(id, vendor))
            && KeyOf(rows[2]) == ("order_items", ItemId(id, vendor, 0))
  {
    var order := SimpleOrder(id, vendor);
    SimpleAccepted(id, vendor);
    SimpleVendors(vendor);
    AcceptedShape(order);
    OwnRowShape(order);
    PartsSplit(id, order, [vendor]);
    assert [vendor][..0] == [];
    ItemsShape(id, vendor, [SimpleLine(vendor)]);
  }

  // ----- accepted orders -----

  /** Two rows of the orders have the same table and id. */
  ghost predicate Collide(o: Order, p: Order) {
    && MapOrder(o).Ok? && MapOrder(p).Ok?
    && exists i, j :: 0 <= i < |MapOrder(o).value| && 0 <= j < |MapOrder(p).value|
                      && KeyOf(MapOrder(o).value[i]) == KeyOf(MapOrder(p).value[j])
  }

  /** A row of an accepted order has the order's own key or that of a place in it. */
  lemma RowPlace(order: Order, k: nat)
    requires MapOrder(order).Ok? && k < |MapOrder(order).value|
    ensures order.id.Some?
    ensures var row := MapOrder(order).value[k];
            || KeyOf(row) == ("orders", TargetId("orders", order.id.value, ""))
            || (row.table != "orders" && HasSlot(order.id.value, row))
  {
    var parts := AcceptedTail(order);
    if k > 0 { assert MapOrder(order).value[k] == parts[k - 1]; }
  }

  lemma CollidingSlots(a: string, s: Slot, b: string, t: Slot)
    requires SlotKey(a, s) == SlotKey(b, t)
    ensures MayCollide(a, b)
  {
    if a != b {
      if s.index.None? { VendorOrderIdsCollide(a, b); } else { ItemIdsCollide(a, b); }
    }
  }

  /** Rows with equal keys come from legacy ids that may collide. */
  lemma CollidingIds(o: Order, p: Order)
    requires Collide(o, p)
    ensures o.id.Some? && p.id.Some? && MayCollide(o.id.value, p.id.value)
  {
    var i, j :| 0 <= i < |MapOrder(o).value| && 0 <= j < |MapOrder(p).value|
                && KeyOf(MapOrder(o).value[i]) == KeyOf(MapOrder(p).value[j]);
    RowPlace(o, i);
    RowPlace(p, j);
    var x, y := MapOrder(o).value[i], MapOrder(p).value[j];
    if x.table == "orders" {
      SameText(o.id.value, "", p.id.value, "");
      SameEmpty(o.id.value, p.id.value);
    } else {
      var s :| KeyOf(x) == SlotKey(o.id.value, s);
      var t :| KeyOf(y) == SlotKey(p.id.value, t);
      CollidingSlots(o.id.value, s, p.id.value, t);
    }
  }

  lemma SameEmpty(a: string, b: string)
    requires a + ":" + "" == b + ":" + ""
    ensures a == b
  {
    assert |a + ":" + ""| == |a| + 1 && |b + ":" + ""| == |b| + 1;
    SameLength(a, "", b, "");
  }

  /** For all legacy ids that may collide there are accepted orders that do. */
  lemma CollidingOrders(a: string, b: string) returns (o: Order, p: Order)
    requires MayCollide(a, b)
    ensures o.id == Some(a) && p.id == Some(b) && Collide(o, p)
  {
    var v, w := "w", "w";
    var k := 0;
    NotBlank("w", 0);
    if a != b {
      if Continues(a, b, "vendor") || Continues(b, a, "vendor") {
        v, w := CollidingVendors(a, b);
        k := 1;
      } else {
        v, w := CollidingItems(a, b, 0);
        k := 2;
      }
    }
    o, p := SimpleOrder(a, v), SimpleOrder(b, w);
    SimpleRows(a, v);
    SimpleRows(b, w);
    assert KeyOf(MapOrder(o).value[k]) == KeyOf(MapOrder(p).value[k]);
  }

  /**
   Accepted orders with these legacy ids can have rows with the same table and id exactly when the ids are equal or one
   continues the other with ":vendor" or ":item".
   */
  lemma OrdersCollideExactly(a: string, b: string)
    ensures MayCollide(a, b) <==> exists o: Order, p: Order :: o.id == Some(a) && p.id == Some(b) && Collide(o, p)
  {
    if MayCollide(a, b) { var o, p := CollidingOrders(a, b); }
    forall o: Order, p: Order | o.id == Some(a) && p.id == Some(b) && Collide(o, p) ensures MayCollide(a, b) {
      CollidingIds(o, p);
    }
  }

  lemma SimpleOrdersCollide(a: string, v: string, b: string, w: string, o: Order, p: Order)
    requires o == SimpleOrder(a, v) && p == SimpleOrder(b, w) && !Blank(v) && !Blank(w)
    requires VendorOrderId(a, v) == VendorOrderId(b, w)
    ensures Collide(o, p)
  {
    SimpleRows(a, v);
    SimpleRows(b, w);
    assert KeyOf(MapOrder(o).value[1]) == KeyOf(MapOrder(p).value[1]);
  }

  /**
   Two accepted orders whose vendor orders have one id: "A" with vendor "v:vendor:w", and "A:vendor:v" with vendor "w".
   */
  lemma AcceptedOrdersCollide() returns (o: Order, p: Order)
    ensures o.id == Some("A") && p.id == Some("A:vendor:v") && Collide(o, p)
    ensures Vendors(o.products) == ["v:vendor:w"] && Vendors(p.products) == ["w"]
  {
    var a, v, b, w := "A", "v:vendor:w", "A:vendor:v", "w";
    NotBlank(v, 0);
    NotBlank(w, 0);
    assert a + ":" + ("vendor" + ":" + v) == b + ":" + ("vendor" + ":" + w);
    VendorText(a, v, b, w);
    o, p := SimpleOrder(a, v), SimpleOrder(b, w);
    SimpleVendors(v);
    SimpleVendors(w);
    SimpleOrdersCollide(a, v, b, w, o, p);
  }

  /** Different legacy ids without colons never collide. */
  lemma ColonlessApart(a: string, b: string)
    requires Colonless(a) && Colonless(b) && a != b
    ensures !MayCollide(a, b)
  {
    NeedsColon(a, b, "vendor");
    NeedsColon(b, a, "vendor");
    NeedsColon(a, b, "item");
    NeedsColon(b, a, "item");
  }

  lemma NeedsColon(a: string, b: string, word: string)
    ensures Continues(a, b, word) ==> !Colonless(b)
  {
    if Continues(a, b, word) { assert b[|a|] == ':'; }
  }
}
