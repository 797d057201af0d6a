/**
 What stands in the rows and in the report: each field of an accepted order's rows in terms of the document, and each
 figure of the report in terms of the documents.
 */
module MigrationContents {
  import opened Wrappers
  import opened Sequences
  import opened Migration
  import opened MigrationRunner
  import Money

  // ----- acceptance, field by field -----

  /** The field is missing or falsy, or can be read as an amount. */
  predicate ReadableOrFalsy(r: Raw) {
    r.Absent? || !r.truthy || Amount(r).Some?
  }

  lemma ZeroReads()
    ensures Money.DecimalToMinor("0").Some? && Money.DecimalToMinor("0").value == 0
  {
    var zero := Money.ToDigits(0);
    Money.ToDigitsValue(0);
    Money.ParsersAgree(zero, "");
    ZeroValue(zero);
  }

  lemma ZeroValue(zero: string)
    requires Money.AllDigits(zero) && Money.Value(zero) == 0
    ensures Money.Value(zero) * 100 + Money.Value(Money.PadEnd("", 2)) == 0
  {
    assert Money.PadEnd("", 2) == "00";
    assert "00"[..1] == "0" && "0"[..0] == "";
  }

  /** An optional amount: zero if it is missing or falsy, otherwise what is written. */
  predicate OptionalAmount(r: Raw, amount: int) {
    if r.Absent? || !r.truthy then amount == 0 else Amount(r).Some? && amount == Amount(r).value
  }

  lemma OrZeroReads(r: Raw)
    ensures Amount(OrZero(r)).Some? <==> ReadableOrFalsy(r)
    ensures Amount(OrZero(r)).Some? ==> OptionalAmount(r, Amount(OrZero(r)).value)
  {
    ZeroReads();
  }

  /** The order's own fields can be read. */
  predicate ReadableOrder(o: Order) {
    && o.id.Some? && o.dated && o.number.Some? && (o.user.Some? ==> o.user.value.Some?) && o.products != []
    && Amount(o.total).Some? && (o.subtotal.Absent? || Amount(o.subtotal).Some?)
    && ReadableOrFalsy(o.discount) && ReadableOrFalsy(o.delivery) && ReadableOrFalsy(o.tax)
  }

  /** The line's fields can be read, its ids are not blank, and it buys something. */
  predicate ReadableLine(p: Product) {
    && p.vendor.Some? && !Blank(p.vendor.value) && p.id.Some? && !Blank(p.id.value)
    && p.quantity.Some? && p.quantity.value > 0 && Amount(p.price).Some? && p.title.Some? && p.sku.Some?
  }

  lemma OwnRowReadable(o: Order)
    ensures OwnRow(o).Ok? <==> ReadableOrder(o) && forall i :: 0 <= i < |o.products| ==> o.products[i].vendor.Some?
  {
    OrZeroReads(o.discount);
    OrZeroReads(o.delivery);
    OrZeroReads(o.tax);
  }

  /** An order is accepted exactly when its own fields and those of every line can be read. */
  lemma AcceptedWhenReadable(o: Order)
    ensures MapOrder(o).Ok? <==> ReadableOrder(o) && forall i :: 0 <= i < |o.products| ==> ReadableLine(o.products[i])
  {
    AcceptedExactly(o);
    OwnRowReadable(o);
    forall i | 0 <= i < |o.products| && o.products[i].vendor.Some?
      ensures LineSound(o.products[i]) <==> ReadableLine(o.products[i])
    {
    }
    if ReadableOrder(o) && forall i :: 0 <= i < |o.products| ==> ReadableLine(o.products[i]) {
      assert forall i :: 0 <= i < |o.products| ==> o.products[i].vendor.Some?;
    }
  }

  // ----- why an order is rejected -----

  /** The problem is one that the line has. */
  predicate LineHas(p: Product, e: Problem) {
    || (e == "Missing legacy _id" && (p.vendor.None? || Blank(VendorOf(p)) || p.id.None? || Blank(p.id.value)))
    || (e == "Invalid product quantity" && (p.quantity.None? || p.quantity.value <= 0))
    || (e == "The quantity cannot be converted to a BigInt because it is not an integer" && p.quantity.None?)
    || (e == "Invalid product price" && Amount(p.price).None?)
    || (e == "Missing product title" && p.title.None?)
    || (e == "Missing sku" && p.sku.None?)
  }

  /** The problem is one that the order's own fields have. */
  predicate OrderHas(o: Order, e: Problem) {
    || (e == "Missing legacy _id" && (o.id.None? || (o.user.Some? && o.user.value.None?)))
    || (e == "Invalid timestamp" && !o.dated)
    || (e == "Invalid total" && Amount(o.total).None?)
    || (e == "Invalid subtotal" && !o.subtotal.Absent? && Amount(o.subtotal).None?)
    || (e == "Order has no products" && o.products == [])
    || (e == "Missing orderNumber" && o.number.None?)
    || (e == "Invalid discount" && !ReadableOrFalsy(o.discount))
    || (e == "Invalid deliveryFee" && !ReadableOrFalsy(o.delivery))
    || (e == "Invalid tax" && !ReadableOrFalsy(o.tax))
  }

  ghost predicate SomeLineHas(lines: seq<Product>, e: Problem) {
    exists p :: p in lines && LineHas(p, e)
  }

  lemma FoundIn(lines: seq<Product>, p: Product, e: Problem)
    requires p in lines && LineHas(p, e)
    ensures SomeLineHas(lines, e)
  {
  }

  lemma {:induction false} SubtotalReason(lines: seq<Product>)
    requires Subtotal(lines).Fail?
    ensures SomeLineHas(lines, Subtotal(lines).error)
  {
    var n := |lines| - 1;
    if Subtotal(lines[..n]).Fail? {
      SubtotalReason(lines[..n]);
      var p :| p in lines[..n] && LineHas(p, Subtotal(lines).error);
      FoundIn(lines, p, Subtotal(lines).error);
    } else {
      FoundIn(lines, lines[n], Subtotal(lines).error);
    }
  }

  lemma {:induction false} ItemsReason(source: string, vendor: string, lines: seq<Product>)
    requires Items(source, vendor, lines).Fail?
    ensures SomeLineHas(lines, Items(source, vendor, lines).error)
  {
    var n := |lines| - 1;
    if Items(source, vendor, lines[..n]).Fail? {
      ItemsReason(source, vendor, lines[..n]);
      var p :| p in lines[..n] && LineHas(p, Items(source, vendor, lines).error);
      FoundIn(lines, p, Items(source, vendor, lines).error);
    } else {
      FoundIn(lines, lines[n], LineProblem(lines[n]).value);
    }
  }

  lemma LinesReason(products: seq<Product>, vendor: string, e: Problem)
    requires SomeLineHas(LinesOf(products, vendor), e)
    ensures SomeLineHas(products, e)
  {
    var p :| p in LinesOf(products, vendor) && LineHas(p, e);
    LineOfVendor(products, vendor, p);
    FoundIn(products, p, e);
  }

  lemma VendorReason(source: string, o: Order, vendor: string)
    requires vendor in Vendors(o.products) && AddVendor(Ok([]), source, o, vendor).Fail?
    ensures SomeLineHas(o.products, AddVendor(Ok([]), source, o, vendor).error)
  {
    var lines := LinesOf(o.products, vendor);
    var e := AddVendor(Ok([]), source, o, vendor).error;
    if Subtotal(lines).Fail? {
      SubtotalReason(lines);
      LinesReason(o.products, vendor, e);
    } else if Blank(vendor) {
      var k := VendorsOfLines(o.products, vendor);
      FoundIn(o.products, o.products[k], e);
    } else {
      ItemsReason(source, vendor, lines);
      LinesReason(o.products, vendor, e);
    }
  }

  lemma {:induction false} PartsReason(source: string, o: Order, vendors: seq<string>)
    requires VendorParts(source, o, vendors).Fail? && forall v :: v in vendors ==> v in Vendors(o.products)
    ensures SomeLineHas(o.products, VendorParts(source, o, vendors).error)
  {
    var n := |vendors| - 1;
    var before := VendorParts(source, o, vendors[..n]);
    if before.Fail? {
      PartsReason(source, o, vendors[..n]);
    } else {
      assert AddVendor(before, source, o, vendors[n]).Fail? ==>
          AddVendor(Ok([]), source, o, vendors[n]) == AddVendor(before, source, o, vendors[n]);
      VendorReason(source, o, vendors[n]);
    }
  }

  lemma OwnReason(o: Order)
    requires OwnRow(o).Fail?
    ensures OrderHas(o, OwnRow(o).error)
            || (OwnRow(o).error == "Missing legacy _id"
                && exists i :: 0 <= i < |o.products| && o.products[i].vendor.None?)
  {
    OrZeroReads(o.discount);
    OrZeroReads(o.delivery);
    OrZeroReads(o.tax);
  }

  /** The reason given for a rejected order is a problem that the order or one of its lines has. */
  lemma ReasonIsTrue(o: Order)
    requires MapOrder(o).Fail?
    ensures OrderHas(o, MapOrder(o).error) || SomeLineHas(o.products, MapOrder(o).error)
  {
    if OwnRow(o).Ok? {
      PartsReason(o.id.value, o, Vendors(o.products));
    } else {
      OwnReason(o);
      if !OrderHas(o, OwnRow(o).error) {
        var i :| 0 <= i < |o.products| && o.products[i].vendor.None?;
        FoundIn(o.products, o.products[i], OwnRow(o).error);
      }
    }
  }

  // ----- the order row -----

  /** The amounts are those of the document, each in its own field. */
  predicate CarriesAmounts(o: Order, d: Data) {
    && d.OrderRow? && Amount(o.total).Some? && d.total == Amount(o.total).value
    && (o.subtotal.Absent? ==> d.subtotal == d.total)
    && (!o.subtotal.Absent? ==> Amount(o.subtotal).Some? && d.subtotal == Amount(o.subtotal).value)
    && OptionalAmount(o.discount, d.discount) && OptionalAmount(o.delivery, d.delivery)
    && OptionalAmount(o.tax, d.tax)
  }

  lemma OwnRowAmounts(o: Order)
    requires OwnRow(o).Ok?
    ensures CarriesAmounts(o, OwnRow(o).value.data)
  {
    OrZeroReads(o.discount);
    OrZeroReads(o.delivery);
    OrZeroReads(o.tax);
  }

  lemma FirstRowIsOwn(o: Order, own: Outcome<TargetRow, Problem>)
    requires MapOrder(o).Ok? && own == OwnRow(o)
    ensures own.Ok? && MapOrder(o).value != [] && MapOrder(o).value[0] == own.value
  {
  }

  lemma RowAfterFirst(o: Order, parts: Outcome<seq<TargetRow>, Problem>, k: nat)
    requires MapOrder(o).Ok? && o.id.Some? && parts == VendorParts(o.id.value, o, Vendors(o.products))
    ensures parts.Ok?
            && (k < |parts.value| ==> k + 1 < |MapOrder(o).value| && MapOrder(o).value[k + 1] == parts.value[k])
  {
  }

  /** The first row of an accepted order carries the document's amounts, each in its own field. */
  lemma OrderRowAmounts(o: Order)
    requires MapOrder(o).Ok?
    ensures MapOrder(o).value != [] && CarriesAmounts(o, MapOrder(o).value[0].data)
  {
    FirstRowIsOwn(o, OwnRow(o));
    OwnRowAmounts(o);
  }

  /** The row of the order itself: its ids, its number and its owner. */
  predicate IdentifiesOrder(o: Order, row: TargetRow) {
    && o.id.Some? && row.source == "orders" && row.table == "orders" && row.legacyId == o.id.value
    && row.targetId == TargetId("orders", o.id.value, "") && row.data.OrderRow?
    && o.number.Some? && row.data.number == o.number.value
    && (o.user.None? ==> row.data.user == None)
    && (o.user.Some? ==> o.user.value.Some? && row.data.user == Some(TargetId("users", o.user.value.value, "")))
  }

  lemma OwnRowIdentity(o: Order)
    requires OwnRow(o).Ok?
    ensures IdentifiesOrder(o, OwnRow(o).value)
  {
  }

  /** The first row of an accepted order is the row of the order itself. */
  lemma OrderRowIdentity(o: Order)
    requires MapOrder(o).Ok?
    ensures MapOrder(o).value != [] && IdentifiesOrder(o, MapOrder(o).value[0])
  {
    FirstRowIsOwn(o, OwnRow(o));
    OwnRowIdentity(o);
  }

  /** And no other row is in its table. */
  lemma OneOrderRow(o: Order, k: nat)
    requires MapOrder(o).Ok? && 0 < k < |MapOrder(o).value|
    ensures MapOrder(o).value[k].table != "orders"
  {
    var parts := AcceptedTail(o);
    assert KeyOf(parts[k - 1]).0 != "orders";
  }

  /** What each legacy status becomes. */
  lemma StatusBecomes(status: string)
    ensures OrderStatus(status) == "PROCESSING" <==> status in {"processing", "packed"}
    ensures OrderStatus(status) == "READY_TO_SHIP" <==> status == "ready_to_ship"
    ensures OrderStatus(status) == "SHIPPED" <==> status == "shipped"
    ensures OrderStatus(status) == "DELIVERED" <==> status == "delivered"
    ensures OrderStatus(status) == "CANCELLED" <==> status == "cancelled"
    ensures OrderStatus(status) == "RETURNED" <==> status == "returned"
    ensures OrderStatus(status) == "REFUNDED" <==> status == "refunded"
    ensures OrderStatus(status) == "PENDING_PAYMENT"
       <==> status !in {"processing", "packed", "ready_to_ship", "shipped", "delivered", "cancelled", "returned",
                        "refunded"}
  {
  }

  lemma OrderRowStatus(o: Order)
    requires MapOrder(o).Ok?
    ensures MapOrder(o).value[0].data.OrderRow? && MapOrder(o).value[0].data.status == OrderStatus(o.status)
  {
    AcceptedShape(o);
  }

  lemma VendorRowStatus(o: Order, source: string, rows: seq<TargetRow>, k: nat)
    requires VendorRowsNamed(o, source, rows) && k < |rows| && rows[k].data.VendorOrderRow?
    ensures rows[k].data.status == if OrderStatus(o.status) == "DELIVERED" then "DELIVERED" else "PLACED"
  {
    var v :| v in Vendors(o.products) && IsOrderOf(rows[k], source, v, o.status);
  }

  /** The order row and every vendor order are DELIVERED together, exactly for a legacy order that was delivered. */
  lemma DeliveredTogether(o: Order, k: nat)
    requires MapOrder(o).Ok? && k < |MapOrder(o).value|
    ensures var first := MapOrder(o).value[0].data;
            first.OrderRow? && first.status == OrderStatus(o.status)
            && (first.status == "DELIVERED" <==> o.status == "delivered")
    ensures var d := MapOrder(o).value[k].data;
            d.VendorOrderRow? ==> d.status == if o.status == "delivered" then "DELIVERED" else "PLACED"
  {
    OrderRowStatus(o);
    StatusBecomes(o.status);
    if MapOrder(o).value[k].data.VendorOrderRow? {
      RowsNamed(o);
      VendorRowStatus(o, o.id.value, MapOrder(o).value, k);
    }
  }

  // ----- vendor orders -----

  /** The row is the vendor's, with some subtotal. */
  predicate IsOrderOf(row: TargetRow, source: string, v: string, status: string) {
    row.data.VendorOrderRow? && row == VendorRow(source, v, status, row.data.subtotal)
  }

  lemma {:induction false} PartsVendorRowIs(source: string, o: Order, vendors: seq<string>,
                                            parts: Outcome<seq<TargetRow>, Problem>, k: nat, row: TargetRow)
    returns (v: string)
    requires parts == VendorParts(source, o, vendors) && parts.Ok?
    requires k < |parts.value| && parts.value[k] == row && row.data.VendorOrderRow?
    ensures v in vendors && IsOrderOf(row, source, v, o.status)
  {
    var n := |vendors| - 1;
    var lines := LinesOf(o.products, vendors[n]);
    PartsSplit(source, o, vendors);
    ItemsShape(source, vendors[n], lines);
    var before := VendorParts(source, o, vendors[..n]);
    if k < |before.value| {
      v := PartsVendorRowIs(source, o, vendors[..n], before, k, row);
      LastOrBefore(vendors, v);
    } else {
      v := vendors[n];
    }
  }

  /** Each vendor order among the rows is that of one of the order's vendors. */
  ghost predicate VendorRowsNamed(o: Order, source: string, rows: seq<TargetRow>) {
    forall k :: 0 <= k < |rows| && rows[k].data.VendorOrderRow? ==>
                  exists v :: v in Vendors(o.products) && IsOrderOf(rows[k], source, v, o.status)
  }

  lemma PartsNamed(source: string, o: Order, parts: Outcome<seq<TargetRow>, Problem>)
    requires parts == VendorParts(source, o, Vendors(o.products)) && parts.Ok?
    ensures VendorRowsNamed(o, source, parts.value)
  {
    forall k | 0 <= k < |parts.value| && parts.value[k].data.VendorOrderRow?
      ensures exists v :: v in Vendors(o.products) && IsOrderOf(parts.value[k], source, v, o.status)
    {
      var v := PartsVendorRowIs(source, o, Vendors(o.products), parts, k, parts.value[k]);
    }
  }

  lemma FirstNamed(o: Order, source: string, first: TargetRow, rows: seq<TargetRow>)
    requires !first.data.VendorOrderRow? && VendorRowsNamed(o, source, rows)
    ensures VendorRowsNamed(o, source, [first] + rows)
  {
  }

  lemma RowsNamed(o: Order)
    requires MapOrder(o).Ok?
    ensures o.id.Some? && VendorRowsNamed(o, o.id.value, MapOrder(o).value)
  {
    AcceptedShape(o);
    var parts := VendorParts(o.id.value, o, Vendors(o.products));
    PartsNamed(o.id.value, o, parts);
    FirstNamed(o, o.id.value, OwnRow(o).value, parts.value);
  }

  lemma NamedVendor(o: Order, source: string, rows: seq<TargetRow>, k: nat) returns (i: nat)
    requires VendorRowsNamed(o, source, rows) && k < |rows| && rows[k].data.VendorOrderRow?
    ensures i < |o.products| && NamesVendor(rows[k], source, VendorOf(o.products[i]))
  {
    var v :| v in Vendors(o.products) && IsOrderOf(rows[k], source, v, o.status);
    i := VendorsOfLines(o.products, v);
  }

  /** A vendor order names the order, and the vendor and shop of one of the lines. */
  lemma VendorRowNames(o: Order, k: nat) returns (i: nat)
    requires MapOrder(o).Ok? && k < |MapOrder(o).value| && MapOrder(o).value[k].data.VendorOrderRow?
    ensures o.id.Some? && i < |o.products| && o.products[i].vendor.Some?
    ensures NamesVendor(MapOrder(o).value[k], o.id.value, VendorOf(o.products[i]))
  {
    RowsNamed(o);
    i := NamedVendor(o, o.id.value, MapOrder(o).value, k);
    AcceptedLine(o, i);
  }

  predicate NamesVendor(row: TargetRow, order: string, vendor: string) {
    && row.table == "vendor_orders" && row.source == "orders" && row.legacyId == order
    && row.targetId == VendorOrderId(order, vendor)
    && row.data.VendorOrderRow? && row.data.order == TargetId("orders", order, "")
    && row.data.vendor == TargetId("vendors", Money.Trim(vendor), "")
    && row.data.shop == TargetId("vendors", vendor, "shop")
  }

  lemma {:induction false} PartsHaveVendor(source: string, o: Order, vendors: seq<string>, v: string) returns (k: nat)
    requires VendorParts(source, o, vendors).Ok? && v in vendors
    ensures k < |VendorParts(source, o, vendors).value|
    ensures VendorParts(source, o, vendors).value[k].data.VendorOrderRow?
            && VendorParts(source, o, vendors).value[k].targetId == VendorOrderId(source, v)
  {
    var n := |vendors| - 1;
    PartsSplit(source, o, vendors);
    LastOrBefore(vendors, v);
    if v == vendors[n] {
      k := |VendorParts(source, o, vendors[..n]).value|;
    } else {
      k := PartsHaveVendor(source, o, vendors[..n], v);
    }
  }

  // ----- items -----

  /** The item row says what the line says. */
  predicate TellsLine(d: Data, p: Product, order: string, vendorOrder: string)
    requires ReadableLine(p)
  {
    && d.OrderItemRow? && d.order == order && d.vendorOrder == vendorOrder
    && d.product == TargetId("products", Money.Trim(p.id.value), "")
    && d.variant == TargetId("products", p.id.value, "default-variant")
    && d.title == p.title.value && d.sku == p.sku.value && d.quantity == p.quantity.value
    && d.unitPrice == Amount(p.price).value && d.lineTotal == d.quantity * d.unitPrice
  }

  lemma LineTells(source: string, p: Product)
    requires ReadableLine(p)
    ensures TellsLine(LineData(source, p), p, TargetId("orders", source, ""), VendorOrderId(source, p.vendor.value))
  {
  }

  lemma {:induction false} DatasOfLines(source: string, products: seq<Product>, d: Data)
    ensures d in LineDatas(source, products) <==> exists i :: 0 <= i < |products| && d == LineData(source, products[i])
  {
    if products != [] {
      var n := |products| - 1;
      DatasOfLines(source, products[..n], d);
      assert LineDatas(source, products) == LineDatas(source, products[..n]) + [LineData(source, products[n])];
      assert forall i :: 0 <= i < n ==> products[..n][i] == products[i];
      assert (exists i :: 0 <= i < |products| && d == LineData(source, products[i]))
        <==> (exists i :: 0 <= i < n && d == LineData(source, products[i])) || d == LineData(source, products[n]);
    }
  }

  lemma {:induction false} DatasOfRows(rows: seq<TargetRow>, k: nat)
    requires k < |rows| && rows[k].data.OrderItemRow?
    ensures rows[k].data in ItemsAmong(rows)
  {
    var n := |rows| - 1;
    assert ItemsAmong(rows) == ItemsAmong(rows[..n]) + ItemData(rows[n]);
    if k < n { DatasOfRows(rows[..n], k); }
  }

  lemma ItemInLines(o: Order, k: nat) returns (i: nat)
    requires MapOrder(o).Ok? && k < |MapOrder(o).value| && MapOrder(o).value[k].data.OrderItemRow?
    ensures o.id.Some? && i < |o.products| && MapOrder(o).value[k].data == LineData(o.id.value, o.products[i])
  {
    AcceptedShape(o);
    var d, source := MapOrder(o).value[k].data, o.id.value;
    EachLineLandsOnce(o);
    DatasOfRows(MapOrder(o).value, k);
    assert d in multiset(ItemsAmong(MapOrder(o).value));
    assert d in LineDatas(source, o.products);
    DatasOfLines(source, o.products, d);
    i :| 0 <= i < |o.products| && d == LineData(source, o.products[i]);
  }

  lemma AcceptedLine(o: Order, i: nat)
    requires MapOrder(o).Ok? && i < |o.products|
    ensures o.id.Some? && ReadableLine(o.products[i])
  {
    AcceptedWhenReadable(o);
  }

  /** Every line of an accepted order has its vendor's order among the rows. */
  lemma LineHasVendorOrder(o: Order, i: nat) returns (parent: nat)
    requires MapOrder(o).Ok? && i < |o.products|
    ensures o.id.Some? && o.products[i].vendor.Some? && parent < |MapOrder(o).value|
    ensures MapOrder(o).value[parent].data.VendorOrderRow?
            && MapOrder(o).value[parent].targetId == VendorOrderId(o.id.value, o.products[i].vendor.value)
  {
    AcceptedLine(o, i);
    var vendor, vendors := o.products[i].vendor.value, Vendors(o.products);
    VendorListed(o.products, o.products[i]);
    RowAfterFirst(o, VendorParts(o.id.value, o, vendors), 0);
    var place := PartsHaveVendor(o.id.value, o, vendors, vendor);
    RowAfterFirst(o, VendorParts(o.id.value, o, vendors), place);
    parent := place + 1;
  }

  /**
   Every item row tells one of the lines, under the order's id and under the id of a vendor order among the rows: the
   one of the line's vendor.
   */
  lemma ItemsTellLines(o: Order, k: nat) returns (i: nat, parent: nat)
    requires MapOrder(o).Ok? && k < |MapOrder(o).value| && MapOrder(o).value[k].data.OrderItemRow?
    ensures o.id.Some? && i < |o.products| && ReadableLine(o.products[i]) && parent < |MapOrder(o).value|
    ensures MapOrder(o).value[parent].data.VendorOrderRow?
            && MapOrder(o).value[parent].targetId == VendorOrderId(o.id.value, o.products[i].vendor.value)
    ensures TellsLine(MapOrder(o).value[k].data, o.products[i], TargetId("orders", o.id.value, ""),
                      MapOrder(o).value[parent].targetId)
  {
    i := ItemInLines(o, k);
    AcceptedLine(o, i);
    LineTells(o.id.value, o.products[i]);
    parent := LineHasVendorOrder(o, i);
  }

  // ----- the figures of the report -----

  function Sum(amount: Document -> nat, documents: seq<Document>): nat {
    if documents == [] then 0
    else Sum(amount, documents[..|documents| - 1]) + amount(documents[|documents| - 1])
  }

  /** The total that an accepted order document states. */
  function StatedTotal(d: Document): nat {
    if d.body.OrderBody? && MapDocument(d).Ok? then Amount(d.body.order.total).UnwrapOr(0) else 0
  }

  /** The subtotal that an accepted order document states, which is its total if it states none. */
  function StatedSubtotal(d: Document): nat {
    if d.body.OrderBody? && MapDocument(d).Ok?
    then Amount(if d.body.order.subtotal.Absent? then d.body.order.total else d.body.order.subtotal).UnwrapOr(0) else 0
  }

  ghost predicate NoRowsIn(rows: seq<TargetRow>, table: string) {
    forall i :: 0 <= i < |rows| ==> rows[i].table != table
  }

  lemma {:induction false} NoRowsNoTotal(rows: seq<TargetRow>, table: string, field: string)
    requires NoRowsIn(rows, table)
    ensures Total(rows, table, field) == 0
  {
    if rows != [] { NoRowsNoTotal(rows[..|rows| - 1], table, field); }
  }

  /** The orders total of one accepted order is that of its first row. */
  lemma FirstRowTotal(o: Order, field: string)
    requires MapOrder(o).Ok?
    ensures Total(MapOrder(o).value, "orders", field) == Share(MapOrder(o).value[0], "orders", field)
  {
    var rows := MapOrder(o).value;
    var parts := AcceptedTail(o);
    forall k | 0 <= k < |parts| ensures parts[k].table != "orders" { assert KeyOf(parts[k]).0 != "orders"; }
    NoRowsNoTotal(parts, "orders", field);
    assert rows == [rows[0]] + parts;
    TotalAppend([rows[0]], parts, "orders", field);
    TotalOne(rows[0], "orders", field);
  }

  lemma OrderStates(d: Document)
    requires d.body.OtherBody? ==> NoRowsIn(RowsOf(d), "orders")
    ensures Total(RowsOf(d), "orders", "totalMinor") == StatedTotal(d)
    ensures Total(RowsOf(d), "orders", "subtotalMinor") == StatedSubtotal(d)
  {
    if d.body.OrderBody? && MapDocument(d).Ok? {
      FirstRowTotal(d.body.order, "totalMinor");
      FirstRowTotal(d.body.order, "subtotalMinor");
      OrderRowAmounts(d.body.order);
      OrderRowIdentity(d.body.order);
    } else if d.body.OtherBody? {
      NoRowsNoTotal(RowsOf(d), "orders", "totalMinor");
      NoRowsNoTotal(RowsOf(d), "orders", "subtotalMinor");
    }
  }

  /** Only the orders branch makes order rows. */
  ghost predicate OnlyOrdersMakeOrders(documents: seq<Document>) {
    forall i :: 0 <= i < |documents| && documents[i].body.OtherBody? ==> NoRowsIn(RowsOf(documents[i]), "orders")
  }

  lemma {:induction false} DocumentsState(documents: seq<Document>)
    requires OnlyOrdersMakeOrders(documents)
    ensures Total(FlatMap(RowsOf, documents), "orders", "totalMinor") == Sum(StatedTotal, documents)
    ensures Total(FlatMap(RowsOf, documents), "orders", "subtotalMinor") == Sum(StatedSubtotal, documents)
  {
    if documents != [] {
      var n := |documents| - 1;
      DocumentsState(documents[..n]);
      OrderStates(documents[n]);
      TotalAppend(FlatMap(RowsOf, documents[..n]), RowsOf(documents[n]), "orders", "totalMinor");
      TotalAppend(FlatMap(RowsOf, documents[..n]), RowsOf(documents[n]), "orders", "subtotalMinor");
    }
  }

  lemma ReportedIsTotal(leq: (string, string) -> bool, input: seq<Batch>, report: Report, table: string, field: string)
    requires TotalOrder(leq) && Reconciles(leq, input, report)
    ensures Reported(report.totals, table, field) == Total(FlatMap(RowsOf, FlatMap(DocumentsOf, input)), table, field)
  {
    RowOrderFacts(leq);
    SortResult(RowOrder(leq), AllRows(input));
    TotalPermutes(report.rows, AllRows(input), table, field);
    ReportedTotal(report.rows, report.totals, table, field);
    RowsFlatten(input);
  }

  /** The reported order totals and subtotals are the sums of what the accepted order documents state. */
  lemma OrdersReported(leq: (string, string) -> bool, input: seq<Batch>, report: Report)
    requires TotalOrder(leq) && Reconciles(leq, input, report) && OnlyOrdersMakeOrders(FlatMap(DocumentsOf, input))
    ensures var documents := FlatMap(DocumentsOf, input);
            && Reported(report.totals, "orders", "totalMinor") == Sum(StatedTotal, documents)
            && Reported(report.totals, "orders", "subtotalMinor") == Sum(StatedSubtotal, documents)
  {
    ReportedIsTotal(leq, input, report, "orders", "totalMinor");
    ReportedIsTotal(leq, input, report, "orders", "subtotalMinor");
    DocumentsState(FlatMap(DocumentsOf, input));
  }

  /** Of a payment row, the amount and the refunded amount are each totalled under their own name, and nothing else. */
  lemma PaymentShares(row: TargetRow, field: string)
    requires row.table == "payments" && row.data.PaymentRow?
    ensures Share(row, "payments", field)
         == if field == "amountMinor" then row.data.amount
            else if field == "refundedMinor" then row.data.refunded
            else 0
  {
  }

  /** The positions of the rows of a table. */
  ghost function Places(rows: seq<TargetRow>, table: string): set<nat> {
    set i: nat | i < |rows| && rows[i].table == table
  }

  lemma {:induction false} CountIsPlaces(rows: seq<TargetRow>, table: string)
    ensures Count(rows, table) == |Places(rows, table)|
  {
    if rows != [] {
      var n := |rows| - 1;
      CountIsPlaces(rows[..n], table);
      assert forall i: nat :: i < n ==> rows[..n][i] == rows[i];
      assert Places(rows, table) == Places(rows[..n], table) + if rows[n].table == table then {n} else {};
    }
  }

  ghost function RejectedPlaces(rejected: seq<RejectedRow>, collection: string): set<nat> {
    set i: nat | i < |rejected| && rejected[i].collection == collection
  }

  lemma {:induction false} RejectedCountIsPlaces(rejected: seq<RejectedRow>, collection: string)
    ensures RejectedCount(rejected, collection) == |RejectedPlaces(rejected, collection)|
  {
    if rejected != [] {
      var n := |rejected| - 1;
      RejectedCountIsPlaces(rejected[..n], collection);
      assert forall i: nat :: i < n ==> rejected[..n][i] == rejected[i];
      assert RejectedPlaces(rejected, collection)
          == RejectedPlaces(rejected[..n], collection) + if rejected[n].collection == collection then {n} else {};
    }
  }

  /**
   The report lists every row of the accepted documents once, by table and then by id, and counts the rows of each table
   and the rejections of each collection.
   */
  lemma ReportLists(leq: (string, string) -> bool, input: seq<Batch>, report: Report, table: string, i: nat, j: nat)
    requires TotalOrder(leq) && Reconciles(leq, input, report)
    ensures multiset(report.rows) == multiset(FlatMap(RowsOf, FlatMap(DocumentsOf, input)))
    ensures i < j < |report.rows| ==>
              var a, b := report.rows[i], report.rows[j];
              leq(a.table, b.table) && (a.table == b.table ==> leq(a.targetId, b.targetId))
    ensures i < |report.rows| ==>
              |report.idMap| == |report.rows| && report.idMap[i].targetId == report.rows[i].targetId
              && report.idMap[i].table == report.rows[i].table && report.idMap[i].legacyId == report.rows[i].legacyId
              && report.idMap[i].source == report.rows[i].source
    ensures (if table in report.targetCounts then report.targetCounts[table] else 0) == |Places(report.rows, table)|
    ensures (if table in report.rejectedCounts then report.rejectedCounts[table] else 0)
         == |RejectedPlaces(report.rejected, table)|
  {
    RowOrderFacts(leq);
    SortResult(RowOrder(leq), AllRows(input));
    RowsFlatten(input);
    CountIsPlaces(report.rows, table);
    RejectedCountIsPlaces(report.rejected, table);
    if i < j < |report.rows| { assert RowOrder(leq)(report.rows[i], report.rows[j]); }
  }
}
