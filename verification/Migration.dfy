/**
 The orders branch of the legacy migration: one legacy order becomes an order row, and per vendor a vendor-order row
 followed by that vendor's item rows. A problem in any part rejects the whole document.
 Text fields are given as their readers return them (None where the reader throws); amounts are given unread.
 */
module Migration {
  import opened Wrappers
  import opened Sequences
  import Money

  type Problem = string

  /** An unread amount: missing, a string or number as it prints, or something else. */
  datatype Raw = Absent | Printed(text: string, truthy: bool) | Other(truthy: bool)

  /** `quantity` is the integer that Number(quantity || 1) gives, if it is one. */
  datatype Product = Product(vendor: Option<string>, id: Option<string>, price: Raw, quantity: Option<int>,
                             title: Option<string>, sku: Option<string>)

  datatype Order = Order(id: Option<string>, dated: bool, total: Raw, subtotal: Raw, discount: Raw, delivery: Raw,
                         tax: Raw,
                         number: Option<string>, user: Option<Option<string>>, status: string, products: seq<Product>)

  datatype Data =
    | OrderRow(number: string, user: Option<string>, status: string, subtotal: int, discount: int, delivery: int,
               tax: int, total: int)
    | VendorOrderRow(order: string, vendor: string, shop: string, status: string, subtotal: int, total: int)
    | OrderItemRow(order: string, vendorOrder: string, product: string, variant: string, title: string, sku: string,
                   quantity: int, unitPrice: nat, lineTotal: int)
    | PaymentRow(order: string, amount: nat, refunded: nat)
    | OtherRow(content: string)

  datatype TargetRow = TargetRow(source: string, legacyId: string, table: string, targetId: string, data: Data)

  /** The text that is hashed into an id; the hash is taken to be injective. */
  function TargetId(collection: string, value: string, suffix: string): string {
    "amiyo-go:" + collection + ":" + value + ":" + suffix
  }

  function VendorOrderId(source: string, vendor: string): string { TargetId("orders", source, "vendor:" + vendor) }

  function ItemId(source: string, vendor: string, index: nat): string {
    TargetId("orders", source, "item:" + vendor + ":" + Money.ToDigits(index))
  }

  function OrderStatus(status: string): string {
    if status == "processing" || status == "packed" then "PROCESSING"
    else if status == "ready_to_ship" then "READY_TO_SHIP"
    else if status == "shipped" then "SHIPPED"
    else if status == "delivered" then "DELIVERED"
    else if status == "cancelled" then "CANCELLED"
    else if status == "returned" then "RETURNED"
    else if status == "refunded" then "REFUNDED"
    else "PENDING_PAYMENT"
  }

  function Amount(r: Raw): Option<nat> {
    if r.Printed? then Money.DecimalToMinor(r.text) else None
  }

  /** r || 0 */
  function OrZero(r: Raw): Raw {
    if r.Absent? || !r.truthy then Printed("0", false) else r
  }

  // ----- the mapping -----

  function VendorOf(p: Product): string { p.vendor.UnwrapOr("") }

  /** The distinct strings in order of first occurrence. */
  function Distinct(s: seq<string>): seq<string> {
    if s == [] then [] else
    var d := Distinct(s[..|s| - 1]);
    if s[|s| - 1] in d then d else d + [s[|s| - 1]]
  }

  function Vendors(products: seq<Product>): seq<string> {
    Distinct(seq(|products|, i requires 0 <= i < |products| => VendorOf(products[i])))
  }

  /** products.filter: the lines of one vendor, in document order. */
  function LinesOf(products: seq<Product>, vendor: string): seq<Product> {
    if products == [] then [] else
    var p := products[|products| - 1];
    LinesOf(products[..|products| - 1], vendor) + if VendorOf(p) == vendor then [p] else []
  }

  /** The vendor subtotal so far plus one line. */
  function AddLine(sum: Outcome<int, Problem>, p: Product): Outcome<int, Problem> {
    if sum.Fail? then sum
    else if Amount(p.price).None? then Fail("Invalid product price")
    else if p.quantity.None? then Fail("The quantity cannot be converted to a BigInt because it is not an integer")
    else Ok(sum.value + Amount(p.price).value * p.quantity.value)
  }

  function Subtotal(lines: seq<Product>): Outcome<int, Problem> {
    if lines == [] then Ok(0) else AddLine(Subtotal(lines[..|lines| - 1]), lines[|lines| - 1])
  }

  /** The contents of the item row of a line. */
  function LineData(source: string, p: Product): Data {
    var quantity := p.quantity.UnwrapOr(1);
    var price := Amount(p.price).UnwrapOr(0);
    OrderItemRow(TargetId("orders", source, ""), VendorOrderId(source, VendorOf(p)),
                 TargetId("products", Money.Trim(p.id.UnwrapOr("")), ""),
                 TargetId("products", p.id.UnwrapOr(""), "default-variant"), p.title.UnwrapOr(""), p.sku.UnwrapOr(""),
                 quantity, price, price * quantity)
  }

  /** A legacy id that is read a second time is trimmed, and must not be blank. */
  predicate Blank(id: string) { Money.Trim(id) == "" }

  /** What is wrong with a line, in the order the source finds it. */
  function LineProblem(p: Product): Option<Problem> {
    if p.id.None? then Some("Missing legacy _id")
    else if p.quantity.None? || p.quantity.value <= 0 then Some("Invalid product quantity")
    else if Amount(p.price).None? then Some("Invalid product price")
    else if Blank(p.id.value) then Some("Missing legacy _id")
    else if p.title.None? then Some("Missing product title")
    else if p.sku.None? then Some("Missing sku")
    else None
  }

  function ItemRow(source: string, vendor: string, index: nat, p: Product): TargetRow {
    TargetRow("orders", source, "order_items", ItemId(source, vendor, index), LineData(source, p))
  }

  function AddItem(rows: Outcome<seq<TargetRow>, Problem>, source: string, vendor: string, index: nat,
                   p: Product): Outcome<seq<TargetRow>, Problem> {
    if rows.Fail? then rows
    else if LineProblem(p).Some? then Fail(LineProblem(p).value)
    else Ok(rows.value
            + [ItemRow(source, vendor, index, p)])
  }

  function Items(source: string, vendor: string, lines: seq<Product>): Outcome<seq<TargetRow>, Problem> {
    if lines == [] then Ok([])
    else AddItem(Items(source, vendor, lines[..|lines| - 1]), source, vendor, |lines| - 1, lines[|lines| - 1])
  }

  function VendorRow(source: string, vendor: string, status: string, subtotal: int): TargetRow {
    TargetRow("orders", source, "vendor_orders", VendorOrderId(source, vendor),
              VendorOrderRow(TargetId("orders", source, ""), TargetId("vendors", Money.Trim(vendor), ""),
                             TargetId("vendors", vendor, "shop"),
                             if OrderStatus(status) == "DELIVERED" then "DELIVERED" else "PLACED", subtotal, subtotal))
  }

  /** Adds the rows of one vendor. */
  function AddVendor(rows: Outcome<seq<TargetRow>, Problem>, source: string, order: Order,
                     vendor: string): Outcome<seq<TargetRow>, Problem> {
    if rows.Fail? then rows else
    var lines := LinesOf(order.products, vendor);
    var subtotal := Subtotal(lines);
    var items := Items(source, vendor, lines);
    if subtotal.Fail? then Fail(subtotal.error)
    else if Blank(vendor) then Fail("Missing legacy _id")
    else if items.Fail? then items
    else Ok(rows.value + [VendorRow(source, vendor, order.status, subtotal.value)] + items.value)
  }

  function VendorParts(source: string, order: Order, vendors: seq<string>): Outcome<seq<TargetRow>, Problem> {
    if vendors == [] then Ok([])
    else AddVendor(VendorParts(source, order, vendors[..|vendors| - 1]), source, order, vendors[|vendors| - 1])
  }

  /** The order's own row, with the checks in the order the source makes them. */
  function OwnRow(order: Order): Outcome<TargetRow, Problem> {
    var subtotal := Amount(if order.subtotal.Absent? then order.total else order.subtotal);
    if order.id.None? then Fail("Missing legacy _id")
    else if !order.dated then Fail("Invalid timestamp")
    else if Amount(order.total).None? then Fail("Invalid total")
    else if subtotal.None? then Fail("Invalid subtotal")
    else if order.products == [] then Fail("Order has no products")
    else if exists i :: 0 <= i < |order.products| && order.products[i].vendor.None? then Fail("Missing legacy _id")
    else if order.number.None? then Fail("Missing orderNumber")
    else if order.user.Some? && order.user.value.None? then Fail("Missing legacy _id")
    else if Amount(OrZero(order.discount)).None? then Fail("Invalid discount")
    else if Amount(OrZero(order.delivery)).None? then Fail("Invalid deliveryFee")
    else if Amount(OrZero(order.tax)).None? then Fail("Invalid tax")
    else
      Ok(TargetRow("orders", order.id.value, "orders", TargetId("orders", order.id.value, ""),
                   OrderRow(order.number.value,
                            if order.user.Some? then Some(TargetId("users", order.user.value.value, "")) else None,
                            OrderStatus(order.status), subtotal.value, Amount(OrZero(order.discount)).value,
                            Amount(OrZero(order.delivery)).value, Amount(OrZero(order.tax)).value,
                            Amount(order.total).value)))
  }

  function MapOrder(order: Order): Outcome<seq<TargetRow>, Problem> {
    var own := OwnRow(order);
    if own.Fail? then Fail(own.error) else
    var parts := VendorParts(order.id.value, order, Vendors(order.products));
    if parts.Fail? then parts else Ok([own.value] + parts.value)
  }

  // ----- what an accepted order means -----

  /** The items among the rows. */
  function ItemsAmong(rows: seq<TargetRow>): seq<Data> { FlatMap(ItemData, rows) }

  function ItemData(r: TargetRow): seq<Data> { if r.data.OrderItemRow? then [r.data] else [] }

  function LineDatas(source: string, products: seq<Product>): seq<Data> { FlatMap(DataMaker(source), products) }

  function DataMaker(source: string): Product -> seq<Data> { p => [LineData(source, p)] }

  ghost predicate AllOf(products: seq<Product>, vendor: string) {
    forall i :: 0 <= i < |products| ==> VendorOf(products[i]) == vendor
  }

  function LineTotalOf(d: Data, vendorOrder: string): int {
    if d.OrderItemRow? && d.vendorOrder == vendorOrder then d.lineTotal else 0
  }

  /** Sum of the line totals of one vendor order. */
  function LineSum(rows: seq<TargetRow>, vendorOrder: string): int {
    if rows == [] then 0 else LineSum(rows[..|rows| - 1], vendorOrder) + LineTotalOf(rows[|rows| - 1].data, vendorOrder)
  }

  lemma {:induction false} LineSumAppend(a: seq<TargetRow>, b: seq<TargetRow>, vendorOrder: string)
    ensures LineSum(a + b, vendorOrder) == LineSum(a, vendorOrder) + LineSum(b, vendorOrder)
  {
    if b == [] {
      assert a + b == a;
    } else {
      assert (a + b)[..|a + b| - 1] == a + b[..|b| - 1];
      LineSumAppend(a, b[..|b| - 1], vendorOrder);
    }
  }

  // ----- one vendor -----

  lemma {:induction false} LinesOfVendor(products: seq<Product>, vendor: string)
    ensures AllOf(LinesOf(products, vendor), vendor)
    ensures forall p ::
              multiset(LinesOf(products, vendor))[p] == if VendorOf(p) == vendor then multiset(products)[p] else 0
  {
    if products != [] {
      LinesOfVendor(products[..|products| - 1], vendor);
      assert products == products[..|products| - 1] + [products[|products| - 1]];
    }
  }

  lemma ItemsSplit(source: string, vendor: string, lines: seq<Product>)
    requires lines != [] && Items(source, vendor, lines).Ok?
    ensures var n := |lines| - 1;
            && Items(source, vendor, lines[..n]).Ok? && LineProblem(lines[n]).None?
            && Items(source, vendor, lines).value
               == Items(source, vendor, lines[..n]).value + [ItemRow(source, vendor, n, lines[n])]
  {
  }

  ghost predicate RowsOfLines(source: string, vendor: string, lines: seq<Product>, rows: seq<TargetRow>) {
    |rows| == |lines| && forall i :: 0 <= i < |rows| ==>
                                       rows[i].table == "order_items" && rows[i].targetId == ItemId(source, vendor, i)
                                       && rows[i].data == LineData(source, lines[i]) && LineProblem(lines[i]).None?
  }

  /** The item rows of one vendor are its lines in order, with consecutive indices. */
  lemma {:induction false} ItemsShape(source: string, vendor: string, lines: seq<Product>)
    requires Items(source, vendor, lines).Ok?
    ensures RowsOfLines(source, vendor, lines, Items(source, vendor, lines).value)
  {
    if lines != [] {
      ItemsSplit(source, vendor, lines);
      ItemsShape(source, vendor, lines[..|lines| - 1]);
      OneMoreRow(source, vendor, lines, Items(source, vendor, lines[..|lines| - 1]).value);
    }
  }

  lemma OneMoreRow(source: string, vendor: string, lines: seq<Product>, rows: seq<TargetRow>)
    requires lines != [] && RowsOfLines(source, vendor, lines[..|lines| - 1], rows)
             && LineProblem(lines[|lines| - 1]).None?
    ensures var n := |lines| - 1;
            RowsOfLines(source, vendor, lines,
                        rows + [ItemRow(source, vendor, n, lines[n])])
  {
  }

  lemma {:induction false} ItemsContents(source: string, vendor: string, lines: seq<Product>)
    requires Items(source, vendor, lines).Ok?
    ensures ItemsAmong(Items(source, vendor, lines).value) == LineDatas(source, lines)
  {
    if lines != [] {
      var n := |lines| - 1;
      ItemsSplit(source, vendor, lines);
      ItemsContents(source, vendor, lines[..n]);
      var rows := Items(source, vendor, lines).value;
      assert rows[..|rows| - 1] == Items(source, vendor, lines[..n]).value;
    }
  }

  /** The vendor subtotal is the sum of the line totals under the vendor order. */
  lemma {:induction false} SubtotalIsLineSum(source: string, vendor: string, lines: seq<Product>)
    requires Items(source, vendor, lines).Ok? && AllOf(lines, vendor)
    ensures Subtotal(lines).Ok?
            && Subtotal(lines).value == LineSum(Items(source, vendor, lines).value, VendorOrderId(source, vendor))
  {
    if lines != [] {
      var n := |lines| - 1;
      ItemsSplit(source, vendor, lines);
      SubtotalIsLineSum(source, vendor, lines[..n]);
      assert VendorOf(lines[n]) == vendor;
      var rows := Items(source, vendor, lines).value;
      assert rows[..|rows| - 1] == Items(source, vendor, lines[..n]).value;
    }
  }

  lemma SourcePrefix(source: string, suffix: string, suffix': string)
    ensures TargetId("orders", source, suffix) == TargetId("orders", source, suffix') ==> suffix == suffix'
  {
    var prefix := "amiyo-go:" + "orders" + ":" + source + ":";
    assert TargetId("orders", source, suffix) == prefix + suffix
           && TargetId("orders", source, suffix') == prefix + suffix';
    assert (prefix + suffix)[|prefix|..] == suffix && (prefix + suffix')[|prefix|..] == suffix';
  }

  lemma VendorIdsDiffer(source: string, v: string, w: string)
    ensures VendorOrderId(source, v) == VendorOrderId(source, w) ==> v == w
  {
    SourcePrefix(source, "vendor:" + v, "vendor:" + w);
    assert ("vendor:" + v)[7..] == v && ("vendor:" + w)[7..] == w;
  }

  /** The rows of another vendor add nothing to a vendor order. */
  lemma {:induction false} OtherLinesAddNothing(source: string, vendor: string, lines: seq<Product>, other: string)
    requires Items(source, vendor, lines).Ok? && AllOf(lines, vendor) && other != vendor
    ensures LineSum(Items(source, vendor, lines).value, VendorOrderId(source, other)) == 0
  {
    if lines != [] {
      var n := |lines| - 1;
      ItemsSplit(source, vendor, lines);
      OtherLinesAddNothing(source, vendor, lines[..n], other);
      VendorIdsDiffer(source, vendor, other);
      assert VendorOf(lines[n]) == vendor;
      var rows := Items(source, vendor, lines).value;
      assert rows[..|rows| - 1] == Items(source, vendor, lines[..n]).value;
    }
  }

  // ----- all vendors -----

  ghost predicate NoRepeats<T>(s: seq<T>) {
    forall i, j :: 0 <= i < j < |s| ==> s[i] != s[j]
  }

  lemma {:induction false} DistinctResult(s: seq<string>)
    ensures NoRepeats(Distinct(s)) && forall x :: x in Distinct(s) <==> x in s
  {
    if s != [] {
      DistinctResult(s[..|s| - 1]);
      assert s == s[..|s| - 1] + [s[|s| - 1]];
    }
  }

  /** The lines of the vendors, vendor by vendor. */
  function Gathered(products: seq<Product>, vendors: seq<string>): seq<Product> {
    FlatMap(LineFinder(products), vendors)
  }

  function LineFinder(products: seq<Product>): string -> seq<Product> { v => LinesOf(products, v) }

  lemma {:induction false} GatheredCount(products: seq<Product>, vendors: seq<string>, p: Product)
    requires NoRepeats(vendors)
    ensures multiset(Gathered(products, vendors))[p] == if VendorOf(p) in vendors then multiset(products)[p] else 0
  {
    if vendors != [] {
      var n := |vendors| - 1;
      GatheredCount(products, vendors[..n], p);
      LinesOfVendor(products, vendors[n]);
      assert vendors == vendors[..n] + [vendors[n]];
      assert vendors[n] !in vendors[..n];
    }
  }

  /** Grouping by vendor neither loses nor repeats a line. */
  lemma GatheredPermutes(products: seq<Product>)
    ensures multiset(Gathered(products, Vendors(products))) == multiset(products)
  {
    var names := seq(|products|, i requires 0 <= i < |products| => VendorOf(products[i]));
    DistinctResult(names);
    forall p ensures multiset(Gathered(products, Vendors(products)))[p] == multiset(products)[p] {
      GatheredCount(products, Vendors(products), p);
      if p in products {
        var i :| 0 <= i < |products| && products[i] == p;
        assert names[i] == VendorOf(p);
      }
    }
  }

  /** The rows of a vendor follow those of the vendors before it. */
  lemma PartsSplit(source: string, order: Order, vendors: seq<string>)
    requires vendors != [] && VendorParts(source, order, vendors).Ok?
    ensures var n := |vendors| - 1;
            var lines := LinesOf(order.products, vendors[n]);
            && VendorParts(source, order, vendors[..n]).Ok? && Items(source, vendors[n], lines).Ok?
            && Subtotal(lines).Ok?
            && VendorParts(source, order, vendors).value
               == VendorParts(source, order, vendors[..n]).value
                  + [VendorRow(source, vendors[n], order.status, Subtotal(lines).value)]
                  + Items(source, vendors[n], lines).value
  {
  }

  lemma {:induction false} PartsItems(source: string, order: Order, vendors: seq<string>)
    requires VendorParts(source, order, vendors).Ok?
    ensures ItemsAmong(VendorParts(source, order, vendors).value)
         == LineDatas(source, Gathered(order.products, vendors))
  {
    if vendors != [] {
      var n := |vendors| - 1;
      var lines := LinesOf(order.products, vendors[n]);
      PartsSplit(source, order, vendors);
      PartsItems(source, order, vendors[..n]);
      ItemsContents(source, vendors[n], lines);
      var before, items := VendorParts(source, order, vendors[..n]).value, Items(source, vendors[n], lines).value;
      var row := VendorRow(source, vendors[n], order.status, Subtotal(lines).value);
      FlatMapAppend(ItemData, before + [row], items);
      FlatMapAppend(ItemData, before, [row]);
      FlatMapOne(ItemData, row);
      FlatMapAppend(DataMaker(source), Gathered(order.products, vendors[..n]), lines);
    }
  }

  lemma OwnRowShape(order: Order)
    requires OwnRow(order).Ok?
    ensures OwnRow(order).value.data.OrderRow? && OwnRow(order).value.table == "orders"
    ensures order.id.Some? && OwnRow(order).value.targetId == TargetId("orders", order.id.value, "")
  {
  }

  lemma AcceptedShape(order: Order)
    requires MapOrder(order).Ok?
    ensures OwnRow(order).Ok? && OwnRow(order).value.data.OrderRow? && order.id.Some?
    ensures VendorParts(order.id.value, order, Vendors(order.products)).Ok?
    ensures MapOrder(order).value
         == [OwnRow(order).value] + VendorParts(order.id.value, order, Vendors(order.products)).value
  {
    OwnRowShape(order);
  }

  /** Every line of an accepted order lands in exactly one item row, under the vendor order of its vendor. */
  lemma EachLineLandsOnce(order: Order)
    requires MapOrder(order).Ok?
    ensures multiset(ItemsAmong(MapOrder(order).value)) == multiset(LineDatas(order.id.value, order.products))
  {
    AcceptedShape(order);
    var source, vendors := order.id.value, Vendors(order.products);
    var own, parts := OwnRow(order).value, VendorParts(source, order, vendors).value;
    FlatMapAppend(ItemData, [own], parts);
    FlatMapOne(ItemData, own);
    PartsItems(source, order, vendors);
    GatheredPermutes(order.products);
    FlatMapPermutes(DataMaker(source), Gathered(order.products, vendors), order.products);
  }

  // ----- when an order is accepted -----

  ghost predicate GoodLines(lines: seq<Product>) { forall i :: 0 <= i < |lines| ==> LineProblem(lines[i]).None? }

  /** Items reject exactly the lists with a bad line; and what items accept, the subtotal accepts. */
  lemma {:induction false} ItemsAccept(source: string, vendor: string, lines: seq<Product>)
    ensures Items(source, vendor, lines).Ok? <==> GoodLines(lines)
    ensures GoodLines(lines) ==> Subtotal(lines).Ok?
  {
    if lines != [] {
      var n := |lines| - 1;
      ItemsAccept(source, vendor, lines[..n]);
      assert GoodLines(lines) <==> GoodLines(lines[..n]) && LineProblem(lines[n]).None? by {
        assert lines == lines[..n] + [lines[n]];
      }
    }
  }

  ghost predicate GoodVendor(products: seq<Product>, vendor: string) {
    !Blank(vendor) && GoodLines(LinesOf(products, vendor))
  }

  ghost predicate GoodVendors(products: seq<Product>, vendors: seq<string>) {
    forall i :: 0 <= i < |vendors| ==> GoodVendor(products, vendors[i])
  }

  lemma {:induction false} PartsAccept(source: string, order: Order, vendors: seq<string>)
    ensures VendorParts(source, order, vendors).Ok? <==> GoodVendors(order.products, vendors)
  {
    if vendors != [] {
      var n := |vendors| - 1;
      PartsAccept(source, order, vendors[..n]);
      ItemsAccept(source, vendors[n], LinesOf(order.products, vendors[n]));
      assert GoodVendors(order.products, vendors)
        <==> GoodVendors(order.products, vendors[..n]) && GoodVendor(order.products, vendors[n]) by {
        assert vendors == vendors[..n] + [vendors[n]];
      }
    }
  }

  lemma LineOfVendor(products: seq<Product>, vendor: string, p: Product)
    ensures p in LinesOf(products, vendor) <==> p in products && VendorOf(p) == vendor
  {
    LinesOfVendor(products, vendor);
    assert p in LinesOf(products, vendor) <==> multiset(LinesOf(products, vendor))[p] > 0;
    assert p in products <==> multiset(products)[p] > 0;
  }

  lemma VendorListed(products: seq<Product>, p: Product)
    requires p in products
    ensures VendorOf(p) in Vendors(products)
  {
    var names := seq(|products|, i requires 0 <= i < |products| => VendorOf(products[i]));
    DistinctResult(names);
    var i :| 0 <= i < |products| && products[i] == p;
    assert names[i] == VendorOf(p);
  }

  /** A line with a readable vendor and nothing wrong. */
  predicate LineSound(p: Product) { !Blank(VendorOf(p)) && LineProblem(p).None? }

  lemma VendorsOfLines(products: seq<Product>, vendor: string) returns (k: nat)
    requires vendor in Vendors(products)
    ensures k < |products| && VendorOf(products[k]) == vendor
  {
    var names := seq(|products|, i requires 0 <= i < |products| => VendorOf(products[i]));
    DistinctResult(names);
    k :| 0 <= k < |names| && names[k] == vendor;
  }

  lemma GoodVendorsSound(products: seq<Product>, k: nat)
    requires GoodVendors(products, Vendors(products)) && k < |products|
    ensures LineSound(products[k])
  {
    VendorListed(products, products[k]);
    var i :| 0 <= i < |Vendors(products)| && Vendors(products)[i] == VendorOf(products[k]);
    assert GoodVendor(products, Vendors(products)[i]);
    LineOfVendor(products, VendorOf(products[k]), products[k]);
    assert products[k] in LinesOf(products, Vendors(products)[i]);
  }

  lemma SoundLinesGood(products: seq<Product>, i: nat)
    requires (forall k :: 0 <= k < |products| ==> LineSound(products[k])) && i < |Vendors(products)|
    ensures GoodVendor(products, Vendors(products)[i])
  {
    var vendor := Vendors(products)[i];
    var k := VendorsOfLines(products, vendor);
    assert LineSound(products[k]);
    forall m | 0 <= m < |LinesOf(products, vendor)| ensures LineProblem(LinesOf(products, vendor)[m]).None? {
      LineOfVendor(products, vendor, LinesOf(products, vendor)[m]);
    }
  }

  /** An order is accepted exactly when its own fields are sound and every one of its lines is. */
  lemma AcceptedExactly(order: Order)
    ensures MapOrder(order).Ok? <==> OwnRow(order).Ok? && forall i :: 0 <= i < |order.products| ==>
                                                                        LineSound(order.products[i])
  {
    var products := order.products;
    if OwnRow(order).Ok? {
      PartsAccept(order.id.UnwrapOr(""), order, Vendors(products));
      if GoodVendors(products, Vendors(products)) {
        forall i | 0 <= i < |products| ensures LineSound(products[i]) { GoodVendorsSound(products, i); }
      }
      if forall i :: 0 <= i < |products| ==> LineSound(products[i]) {
        forall i | 0 <= i < |Vendors(products)| ensures GoodVendor(products, Vendors(products)[i]) {
          SoundLinesGood(products, i);
        }
      }
    }
  }

  // ----- subtotals -----

  lemma PartsSumSplit(source: string, order: Order, vendors: seq<string>, id: string)
    requires vendors != [] && VendorParts(source, order, vendors).Ok?
    ensures var n := |vendors| - 1;
            var lines := LinesOf(order.products, vendors[n]);
            && VendorParts(source, order, vendors[..n]).Ok? && Items(source, vendors[n], lines).Ok?
            && LineSum(VendorParts(source, order, vendors).value, id)
               == LineSum(VendorParts(source, order, vendors[..n]).value, id)
                  + LineSum(Items(source, vendors[n], lines).value, id)
  {
    PartsSplit(source, order, vendors);
    var n := |vendors| - 1;
    var lines := LinesOf(order.products, vendors[n]);
    var before, row :=
      VendorParts(source, order, vendors[..n]).value,
      VendorRow(source, vendors[n], order.status, Subtotal(lines).value);
    LineSumAppend(before + [row], Items(source, vendors[n], lines).value, id);
    LineSumAppend(before, [row], id);
    LineSumOne(row, id);
  }

  /** In the rows of some vendors, each vendor's line totals sum to its subtotal, and other vendors have none. */
  lemma {:induction false} PartsSums(source: string, order: Order, vendors: seq<string>, vendor: string)
    requires VendorParts(source, order, vendors).Ok? && NoRepeats(vendors)
    ensures var lines := LinesOf(order.products, vendor);
            var sum := LineSum(VendorParts(source, order, vendors).value, VendorOrderId(source, vendor));
            if vendor in vendors then Subtotal(lines).Ok? && Subtotal(lines).value == sum else sum == 0
  {
    if vendors != [] {
      var n := |vendors| - 1;
      var lines := LinesOf(order.products, vendors[n]);
      PartsSumSplit(source, order, vendors, VendorOrderId(source, vendor));
      PartsSums(source, order, vendors[..n], vendor);
      LinesOfVendor(order.products, vendors[n]);
      LastOrBefore(vendors, vendor);
      if vendor == vendors[n] {
        SubtotalIsLineSum(source, vendor, lines);
      } else {
        OtherLinesAddNothing(source, vendors[n], lines, vendor);
      }
    }
  }

  lemma LastOrBefore<T>(s: seq<T>, x: T)
    requires s != []
    ensures x in s <==> x in s[..|s| - 1] || x == s[|s| - 1]
  {
    assert s == s[..|s| - 1] + [s[|s| - 1]];
  }

  lemma LineSumOne(row: TargetRow, id: string)
    ensures LineSum([row], id) == LineTotalOf(row.data, id)
  {
    assert [row][..0] == [];
  }

  ghost predicate IsVendorRow(source: string, order: Order, vendor: string, row: TargetRow) {
    && row.data.VendorOrderRow? && row.targetId == VendorOrderId(source, vendor) && row.data.subtotal == row.data.total
    && Subtotal(LinesOf(order.products, vendor)).Ok?
    && Subtotal(LinesOf(order.products, vendor)).value == row.data.subtotal
  }

  /** Every vendor row is that of one of the vendors, with the subtotal of its lines. */
  lemma {:induction false} PartsVendorRows(source: string, order: Order, vendors: seq<string>, k: nat)
    returns (v: string)
    requires VendorParts(source, order, vendors).Ok? && k < |VendorParts(source, order, vendors).value|
    ensures var row := VendorParts(source, order, vendors).value[k];
            row.data.VendorOrderRow? ==> v in vendors && IsVendorRow(source, order, v, row)
  {
    var n := |vendors| - 1;
    var lines := LinesOf(order.products, vendors[n]);
    PartsSplit(source, order, vendors);
    ItemsShape(source, vendors[n], lines);
    var before := VendorParts(source, order, vendors[..n]).value;
    if k < |before| {
      v := PartsVendorRows(source, order, vendors[..n], k);
      LastOrBefore(vendors, v);
    } else {
      v := vendors[n];
    }
  }

  lemma PartsSubtotals(source: string, order: Order, k: nat)
    requires VendorParts(source, order, Vendors(order.products)).Ok?
    requires k < |VendorParts(source, order, Vendors(order.products)).value|
    ensures var parts := VendorParts(source, order, Vendors(order.products)).value;
            parts[k].data.VendorOrderRow? ==>
              parts[k].data.subtotal == parts[k].data.total == LineSum(parts, parts[k].targetId)
  {
    var vendors := Vendors(order.products);
    VendorsDistinct(order.products);
    if VendorParts(source, order, vendors).value[k].data.VendorOrderRow? {
      var v := PartsVendorRows(source, order, vendors, k);
      PartsSums(source, order, vendors, v);
    }
  }

  /** The subtotal of every vendor order of an accepted order is the sum of the line totals of its items. */
  lemma SubtotalsMatchLines(order: Order, k: nat)
    requires MapOrder(order).Ok? && k < |MapOrder(order).value| && MapOrder(order).value[k].data.VendorOrderRow?
    ensures var rows := MapOrder(order).value; rows[k].data.subtotal == rows[k].data.total
                                            == LineSum(rows, rows[k].targetId)
  {
    AcceptedShape(order);
    var rows := MapOrder(order).value;
    PartsSubtotals(order.id.value, order, k - 1);
    assert rows[1..] == VendorParts(order.id.value, order, Vendors(order.products)).value;
    LineSumTail(rows, rows[k].targetId);
  }

  lemma LineSumTail(rows: seq<TargetRow>, id: string)
    requires rows != [] && !rows[0].data.OrderItemRow?
    ensures LineSum(rows, id) == LineSum(rows[1..], id)
  {
    assert rows == [rows[0]] + rows[1..];
    LineSumAppend([rows[0]], rows[1..], id);
    LineSumOne(rows[0], id);
  }

  lemma VendorsDistinct(products: seq<Product>)
    ensures NoRepeats(Vendors(products))
  {
    DistinctResult(seq(|products|, i requires 0 <= i < |products| => VendorOf(products[i])));
  }

  // ----- money fields -----

  /** The field as the reconciliation reads it: a string of digits. */
  function Field(d: Data, field: string): Option<nat> {
    var amount := match d
      case OrderRow(_, _, _, subtotal, _, _, _, total) =>
        if field == "subtotalMinor" then Some(subtotal) else if field == "totalMinor" then Some(total) else None
      case VendorOrderRow(_, _, _, _, subtotal, total) =>
        if field == "subtotalMinor" then Some(subtotal) else if field == "totalMinor" then Some(total) else None
      case OrderItemRow(_, _, _, _, _, _, _, _, lineTotal) =>
        if field == "lineTotalMinor" then Some(lineTotal) else None
      case PaymentRow(_, amount, refunded) =>
        if field == "amountMinor" then Some(amount) else if field == "refundedMinor" then Some(refunded) else None
      case OtherRow(_) => None;
    if amount.Some? && amount.value >= 0 then Some(amount.value) else None
  }

  /** What one row adds to a total. */
  function Share(row: TargetRow, table: string, field: string): nat {
    if row.table == table then Field(row.data, field).UnwrapOr(0) else 0
  }

  function Total(rows: seq<TargetRow>, table: string, field: string): nat {
    if rows == [] then 0 else Total(rows[..|rows| - 1], table, field) + Share(rows[|rows| - 1], table, field)
  }

  lemma {:induction false} TotalAppend(a: seq<TargetRow>, b: seq<TargetRow>, table: string, field: string)
    ensures Total(a + b, table, field) == Total(a, table, field) + Total(b, table, field)
  {
    if b == [] {
      assert a + b == a;
    } else {
      assert (a + b)[..|a + b| - 1] == a + b[..|b| - 1];
      TotalAppend(a, b[..|b| - 1], table, field);
    }
  }

  lemma TotalOne(row: TargetRow, table: string, field: string)
    ensures Total([row], table, field) == Share(row, table, field)
  {
    assert [row][..0] == [];
  }

  function SubtotalTotal(rows: seq<TargetRow>): nat { Total(rows, "vendor_orders", "subtotalMinor") }
  function LineTotal(rows: seq<TargetRow>): nat { Total(rows, "order_items", "lineTotalMinor") }

  /** The line totals of one vendor's items sum to its subtotal. */
  lemma {:induction false} ItemsTotal(source: string, vendor: string, lines: seq<Product>)
    requires Items(source, vendor, lines).Ok?
    ensures Subtotal(lines).Ok? && Subtotal(lines).value == LineTotal(Items(source, vendor, lines).value)
    ensures SubtotalTotal(Items(source, vendor, lines).value) == 0
  {
    if lines != [] {
      var n := |lines| - 1;
      ItemsSplit(source, vendor, lines);
      ItemsTotal(source, vendor, lines[..n]);
      var row := ItemRow(source, vendor, n, lines[n]);
      TotalAppend(Items(source, vendor, lines[..n]).value, [row], "order_items", "lineTotalMinor");
      TotalAppend(Items(source, vendor, lines[..n]).value, [row], "vendor_orders", "subtotalMinor");
      ItemShare(source, vendor, n, lines[n]);
    }
  }

  lemma ItemShare(source: string, vendor: string, index: nat, p: Product)
    requires LineProblem(p).None?
    ensures var row := ItemRow(source, vendor, index, p);
            LineTotal([row]) == Amount(p.price).value * p.quantity.value && SubtotalTotal([row]) == 0
  {
    var row := ItemRow(source, vendor, index, p);
    TotalOne(row, "order_items", "lineTotalMinor");
    TotalOne(row, "vendor_orders", "subtotalMinor");
    assert row.data.lineTotal >= 0 && Field(row.data, "lineTotalMinor") == Some(row.data.lineTotal);
  }

  lemma VendorShare(source: string, vendor: string, status: string, subtotal: nat)
    ensures SubtotalTotal([VendorRow(source, vendor, status, subtotal)]) == subtotal
            && LineTotal([VendorRow(source, vendor, status, subtotal)]) == 0
  {
    var row := VendorRow(source, vendor, status, subtotal);
    TotalOne(row, "order_items", "lineTotalMinor");
    TotalOne(row, "vendor_orders", "subtotalMinor");
    assert Field(row.data, "subtotalMinor") == Some(subtotal);
  }

  lemma {:induction false} PartsBalance(source: string, order: Order, vendors: seq<string>)
    requires VendorParts(source, order, vendors).Ok?
    ensures SubtotalTotal(VendorParts(source, order, vendors).value)
         == LineTotal(VendorParts(source, order, vendors).value)
  {
    if vendors != [] {
      var n := |vendors| - 1;
      var lines := LinesOf(order.products, vendors[n]);
      PartsSplit(source, order, vendors);
      PartsBalance(source, order, vendors[..n]);
      ItemsTotal(source, vendors[n], lines);
      VendorShare(source, vendors[n], order.status, Subtotal(lines).value);
      AppendBalance(VendorParts(source, order, vendors[..n]).value,
                    VendorRow(source, vendors[n], order.status, Subtotal(lines).value),
                    Items(source, vendors[n], lines).value);
    }
  }

  lemma AppendBalance(before: seq<TargetRow>, row: TargetRow, items: seq<TargetRow>)
    ensures SubtotalTotal(before + [row] + items) == SubtotalTotal(before) + SubtotalTotal([row]) + SubtotalTotal(items)
    ensures LineTotal(before + [row] + items) == LineTotal(before) + LineTotal([row]) + LineTotal(items)
  {
    TotalAppend(before + [row], items, "vendor_orders", "subtotalMinor");
    TotalAppend(before, [row], "vendor_orders", "subtotalMinor");
    TotalAppend(before + [row], items, "order_items", "lineTotalMinor");
    TotalAppend(before, [row], "order_items", "lineTotalMinor");
  }

  /** In an accepted order the vendor subtotals sum to the line totals. */
  lemma SubtotalsSumToLines(order: Order)
    requires MapOrder(order).Ok?
    ensures SubtotalTotal(MapOrder(order).value) == LineTotal(MapOrder(order).value)
  {
    AcceptedShape(order);
    var own, parts := OwnRow(order).value, VendorParts(order.id.value, order, Vendors(order.products)).value;
    PartsBalance(order.id.value, order, Vendors(order.products));
    OwnBalance(order, parts);
    assert [own] + parts == MapOrder(order).value;
  }

  /** The order's own row adds to neither total. */
  lemma OwnBalance(order: Order, parts: seq<TargetRow>)
    requires OwnRow(order).Ok?
    ensures SubtotalTotal([OwnRow(order).value] + parts) == SubtotalTotal(parts)
    ensures LineTotal([OwnRow(order).value] + parts) == LineTotal(parts)
  {
    var own := OwnRow(order).value;
    OwnRowShape(order);
    TotalOne(own, "vendor_orders", "subtotalMinor");
    TotalOne(own, "order_items", "lineTotalMinor");
    TotalAppend([own], parts, "vendor_orders", "subtotalMinor");
    TotalAppend([own], parts, "order_items", "lineTotalMinor");
  }

  // ----- target ids -----

  type Key = (string, string)

  function KeyOf(row: TargetRow): Key { (row.table, row.targetId) }

  /** The place of a row in an order: a vendor order, or the item with an index under it. */
  datatype Slot = Slot(vendor: string, index: Option<nat>)

  function SlotKey(source: string, slot: Slot): Key {
    if slot.index.None? then ("vendor_orders", VendorOrderId(source, slot.vendor))
    else ("order_items", ItemId(source, slot.vendor, slot.index.value))
  }

  /**
   The index of an item id is what follows its last colon, so no two items share an id even when vendor ids contain
   colons.
   */
  lemma ItemIdsDiffer(source: string, v: string, i: nat, w: string, j: nat)
    requires ItemId(source, v, i) == ItemId(source, w, j)
    ensures v == w && i == j
  {
    var a, b := Money.ToDigits(i), Money.ToDigits(j);
    var x, y := "item:" + v + ":" + a, "item:" + w + ":" + b;
    SourcePrefix(source, x, y);
    Money.ToDigitsValue(i);
    Money.ToDigitsValue(j);
    LastColon(v, a, w, b);
  }

  lemma LastColon(v: string, a: string, w: string, b: string)
    requires "item:" + v + ":" + a == "item:" + w + ":" + b && Money.AllDigits(a) && Money.AllDigits(b)
    ensures v == w && a == b
  {
    var x, m, n := "item:" + v + ":" + a, 5 + |v|, 5 + |w|;
    NoColonAfter("item:" + v, a, n);
    NoColonAfter("item:" + w, b, m);
    assert x[m] == ':' && x[n] == ':' && m == n;
    assert x[5..m] == v && x[5..m] == w && x[m + 1..] == a && x[m + 1..] == b;
  }

  lemma NoColonAfter(front: string, digits: string, k: nat)
    requires Money.AllDigits(digits)
    ensures |front| < k < |front + ":" + digits| ==> (front + ":" + digits)[k] != ':'
  {
    if |front| < k < |front + ":" + digits| {
      assert Money.IsDigit(digits[k - |front| - 1]);
    }
  }

  lemma SlotKeysDiffer(source: string, s: Slot, t: Slot)
    requires SlotKey(source, s) == SlotKey(source, t)
    ensures s == t
  {
    if s.index.None? {
      VendorIdsDiffer(source, s.vendor, t.vendor);
    } else {
      ItemIdsDiffer(source, s.vendor, s.index.value, t.vendor, t.index.value);
    }
  }

  /** The rows from position `from` on are the last vendor's. */
  ghost predicate Last(source: string, order: Order, vendors: seq<string>, from: nat) {
    && vendors != [] && VendorParts(source, order, vendors).Ok?
    && VendorParts(source, order, vendors[..|vendors| - 1]).Ok?
    && var rows, before :=
         VendorParts(source, order, vendors).value, VendorParts(source, order, vendors[..|vendors| - 1]).value;
    |before| == from <= |rows| && rows[..from] == before
  }

  function SlotAt(vendor: string, offset: nat): Slot { Slot(vendor, if offset == 0 then None else Some(offset - 1)) }

  lemma LastSlots(source: string, order: Order, vendors: seq<string>) returns (from: nat)
    requires vendors != [] && VendorParts(source, order, vendors).Ok?
    ensures Last(source, order, vendors, from)
    ensures Slotted(source, vendors[|vendors| - 1], VendorParts(source, order, vendors).value, from)
  {
    var n := |vendors| - 1;
    var lines := LinesOf(order.products, vendors[n]);
    PartsSplit(source, order, vendors);
    ItemsShape(source, vendors[n], lines);
    var before := VendorParts(source, order, vendors[..n]).value;
    from := |before|;
    PartSlots(source, vendors[n], order.status, Subtotal(lines).value, lines, before,
              Items(source, vendors[n], lines).value);
  }

  /** The keys from position `from` on are those of a vendor order and its items. */
  ghost predicate Slotted(source: string, vendor: string, rows: seq<TargetRow>, from: nat) {
    forall k :: from <= k < |rows| ==> KeyOf(rows[k]) == SlotKey(source, SlotAt(vendor, k - from))
  }

  lemma PartSlots(source: string, vendor: string, status: string, subtotal: int, lines: seq<Product>,
                  before: seq<TargetRow>, items: seq<TargetRow>)
    requires RowsOfLines(source, vendor, lines, items)
    ensures Slotted(source, vendor, before + [VendorRow(source, vendor, status, subtotal)] + items, |before|)
  {
  }

  lemma {:induction false} PartsSlots(source: string, order: Order, vendors: seq<string>, k: nat) returns (slot: Slot)
    requires VendorParts(source, order, vendors).Ok? && k < |VendorParts(source, order, vendors).value|
    ensures slot.vendor in vendors && KeyOf(VendorParts(source, order, vendors).value[k]) == SlotKey(source, slot)
  {
    var from := LastSlots(source, order, vendors);
    if k < from {
      slot := PartsSlots(source, order, vendors[..|vendors| - 1], k);
      LastOrBefore(vendors, slot.vendor);
    } else {
      slot := SlotAt(vendors[|vendors| - 1], k - from);
    }
  }

  lemma {:induction false} PartsKeysDiffer(source: string, order: Order, vendors: seq<string>, i: nat, j: nat)
    requires VendorParts(source, order, vendors).Ok? && NoRepeats(vendors)
             && i < j < |VendorParts(source, order, vendors).value|
    ensures KeyOf(VendorParts(source, order, vendors).value[i]) != KeyOf(VendorParts(source, order, vendors).value[j])
  {
    var n := |vendors| - 1;
    var from := LastSlots(source, order, vendors);
    if j < from {
      PartsKeysDiffer(source, order, vendors[..n], i, j);
    } else if i < from {
      var s := PartsSlots(source, order, vendors[..n], i);
      SlotKeysApart(source, s, SlotAt(vendors[n], j - from));
    } else {
      SlotKeysApart(source, SlotAt(vendors[n], i - from), SlotAt(vendors[n], j - from));
    }
  }

  lemma SlotKeysApart(source: string, s: Slot, t: Slot)
    ensures s != t ==> SlotKey(source, s) != SlotKey(source, t)
  {
    if SlotKey(source, s) == SlotKey(source, t) { SlotKeysDiffer(source, s, t); }
  }

  /** No two rows of an accepted order have the same table and id. */
  lemma RowKeysDiffer(order: Order, i: nat, j: nat)
    requires MapOrder(order).Ok? && i < j < |MapOrder(order).value|
    ensures KeyOf(MapOrder(order).value[i]) != KeyOf(MapOrder(order).value[j])
  {
    var parts := AcceptedTail(order);
    assert parts == MapOrder(order).value[1..];
    if i == 0 {
      assert KeyOf(parts[j - 1]).0 != "orders";
    } else {
      assert KeyOf(parts[i - 1]) != KeyOf(parts[j - 1]);
    }
  }

  /** The row has the key of a place in the order. */
  ghost predicate HasSlot(source: string, row: TargetRow) {
    exists slot :: KeyOf(row) == SlotKey(source, slot)
  }

  lemma AcceptedTail(order: Order) returns (parts: seq<TargetRow>)
    requires MapOrder(order).Ok?
    ensures order.id.Some? && MapOrder(order).value != [] && parts == MapOrder(order).value[1..]
    ensures KeyOf(MapOrder(order).value[0]) == ("orders", TargetId("orders", order.id.value, ""))
    ensures forall k :: 0 <= k < |parts| ==> KeyOf(parts[k]).0 != "orders" && HasSlot(order.id.value, parts[k])
    ensures forall i, j :: 0 <= i < j < |parts| ==> KeyOf(parts[i]) != KeyOf(parts[j])
  {
    AcceptedShape(order);
    VendorsDistinct(order.products);
    parts := VendorParts(order.id.value, order, Vendors(order.products)).value;
    forall k | 0 <= k < |parts| ensures KeyOf(parts[k]).0 != "orders" && HasSlot(order.id.value, parts[k]) {
      var slot := PartsSlots(order.id.value, order, Vendors(order.products), k);
    }
    forall i, j | 0 <= i < j < |parts| ensures KeyOf(parts[i]) != KeyOf(parts[j]) {
      PartsKeysDiffer(order.id.value, order, Vendors(order.products), i, j);
    }
    OwnRowShape(order);
  }
}
