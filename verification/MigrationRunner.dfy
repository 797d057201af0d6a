/** The migration run: documents are mapped or rejected, the rows are sorted, counted and totalled. */
module MigrationRunner {
  import opened Wrappers
  import opened Sequences
  import opened Migration
  import MigrationIds

  /** An order, or a document of another collection with the rows its branch gives. */
  datatype Body = OrderBody(order: Order) | OtherBody(rows: Outcome<seq<TargetRow>, Problem>)

  /** `rawId` is _id when it is a string. */
  datatype Document = Document(rawId: Option<string>, body: Body)
  datatype Batch = Batch(collection: string, documents: seq<Document>)
  datatype RejectedRow = RejectedRow(collection: string, legacyId: Option<string>, detail: Problem)

  type MoneyKey = (string, string)

  datatype IdMapRow = IdMapRow(source: string, legacyId: string, table: string, targetId: string)

  datatype Report = Report(rows: seq<TargetRow>, idMap: seq<IdMapRow>, rejected: seq<RejectedRow>,
                           sourceCounts: map<string, nat>, targetCounts: map<string, nat>,
                           rejectedCounts: map<string, nat>,
                           totals: map<MoneyKey, nat>, accepted: nat, rejectedTotal: nat)

  // ----- the orders branch, step by step -----

  lemma {:induction false} ItemsFailStays(source: string, vendor: string, lines: seq<Product>, k: nat)
    requires k <= |lines| && Items(source, vendor, lines[..k]).Fail?
    ensures Items(source, vendor, lines) == Items(source, vendor, lines[..k])
    decreases |lines| - k
  {
    if k == |lines| {
      assert lines[..k] == lines;
    } else {
      assert lines[..k + 1][..k] == lines[..k];
      ItemsFailStays(source, vendor, lines, k + 1);
    }
  }

  lemma {:induction false} PartsFailStays(source: string, order: Order, vendors: seq<string>, k: nat)
    requires k <= |vendors| && VendorParts(source, order, vendors[..k]).Fail?
    ensures VendorParts(source, order, vendors) == VendorParts(source, order, vendors[..k])
    decreases |vendors| - k
  {
    if k == |vendors| {
      assert vendors[..k] == vendors;
    } else {
      assert vendors[..k + 1][..k] == vendors[..k];
      PartsFailStays(source, order, vendors, k + 1);
    }
  }

  /** Pushes the item rows of one vendor, or gives the problem of the first bad line. */
  method PushItems(rows: seq<TargetRow>, source: string, vendor: string, lines: seq<Product>)
    returns (r: Outcome<seq<TargetRow>, Problem>)
    ensures r == if Items(source, vendor, lines).Fail? then Items(source, vendor, lines)
                 else Ok(rows + Items(source, vendor, lines).value)
  {
    var out := rows;
    var index := 0;
    while index < |lines|
      invariant 0 <= index <= |lines|
      invariant Items(source, vendor, lines[..index]).Ok? && out == rows + Items(source, vendor, lines[..index]).value
    {
      var p := lines[index];
      assert lines[..index + 1][..index] == lines[..index];
      var problem := LineProblem(p);
      if problem.Some? {
        ItemsFailStays(source, vendor, lines, index + 1);
        return Fail(problem.value);
      }
      out := out + [ItemRow(source, vendor, index, p)];
      index := index + 1;
    }
    assert lines[..index] == lines;
    return Ok(out);
  }

  /** One vendor's turn of the loop. */
  method PushVendor(rows: seq<TargetRow>, source: string, order: Order, vendor: string)
    returns (r: Outcome<seq<TargetRow>, Problem>)
    ensures r == AddVendor(Ok(rows), source, order, vendor)
  {
    var lines := LinesOf(order.products, vendor);
    var subtotal := Subtotal(lines);
    if subtotal.Fail? { return Fail(subtotal.error); }
    if Blank(vendor) { return Fail("Missing legacy _id"); }
    r := PushItems(rows + [VendorRow(source, vendor, order.status, subtotal.value)], source, vendor, lines);
  }

  method MapOrderDocument(order: Order) returns (r: Outcome<seq<TargetRow>, Problem>)
    ensures r == MapOrder(order)
  {
    var own := OwnRow(order);
    if own.Fail? { return Fail(own.error); }
    var source, vendors := order.id.value, Vendors(order.products);
    var parts: seq<TargetRow> := [];
    var k := 0;
    while k < |vendors|
      invariant 0 <= k <= |vendors| && VendorParts(source, order, vendors[..k]) == Ok(parts)
    {
      assert vendors[..k + 1][..k] == vendors[..k];
      var pushed := PushVendor(parts, source, order, vendors[k]);
      if pushed.Fail? {
        PartsFailStays(source, order, vendors, k + 1);
        return pushed;
      }
      parts := pushed.value;
      k := k + 1;
    }
    assert vendors[..k] == vendors;
    return Ok([own.value] + parts);
  }

  // ----- what the run computes -----

  function MapDocument(d: Document): Outcome<seq<TargetRow>, Problem> {
    if d.body.OrderBody? then MapOrder(d.body.order) else d.body.rows
  }

  function RowsOf(d: Document): seq<TargetRow> {
    if MapDocument(d).Ok? then MapDocument(d).value else []
  }

  function RejectionOf(collection: string): Document -> seq<RejectedRow> {
    d => if MapDocument(d).Ok? then [] else [RejectedRow(collection, d.rawId, MapDocument(d).error)]
  }

  function BatchRows(b: Batch): seq<TargetRow> { FlatMap(RowsOf, b.documents) }
  function BatchRejections(b: Batch): seq<RejectedRow> { FlatMap(RejectionOf(b.collection), b.documents) }
  function AllRows(input: seq<Batch>): seq<TargetRow> { FlatMap(BatchRows, input) }
  function AllRejections(input: seq<Batch>): seq<RejectedRow> { FlatMap(BatchRejections, input) }

  /** By table, then by id; `leq` is the comparison of strings. */
  function RowOrder(leq: (string, string) -> bool): (TargetRow, TargetRow) -> bool {
    (a: TargetRow, b: TargetRow) => if a.table != b.table then leq(a.table, b.table) else leq(a.targetId, b.targetId)
  }

  function Count(rows: seq<TargetRow>, table: string): nat {
    if rows == [] then 0 else Count(rows[..|rows| - 1], table) + if rows[|rows| - 1].table == table then 1 else 0
  }

  function RejectedCount(rejected: seq<RejectedRow>, collection: string): nat {
    if rejected == [] then 0
    else
      var last := rejected[|rejected| - 1];
      RejectedCount(rejected[..|rejected| - 1], collection) + if last.collection == collection then 1 else 0
  }

  ghost predicate HasField(rows: seq<TargetRow>, table: string, field: string) {
    exists i :: 0 <= i < |rows| && rows[i].table == table && Field(rows[i].data, field).Some?
  }

  /** The map holds exactly the keys with a positive count, each with its count. */
  ghost predicate Counts(counts: map<string, nat>, count: string -> nat) {
    forall key :: (key in counts <==> count(key) > 0) && (key in counts ==> counts[key] == count(key))
  }

  ghost predicate Totals(totals: map<MoneyKey, nat>, rows: seq<TargetRow>) {
    forall key: MoneyKey :: (key in totals <==> HasField(rows, key.0, key.1))
                            && (key in totals ==> totals[key] == Total(rows, key.0, key.1))
  }

  ghost predicate SourceCounts(counts: map<string, nat>, input: seq<Batch>) {
    && (forall i :: 0 <= i < |input| ==>
                      input[i].collection in counts && counts[input[i].collection] == |input[i].documents|)
    && (forall key :: key in counts ==> exists i :: 0 <= i < |input| && input[i].collection == key)
  }

  function IdMapOf(row: TargetRow): IdMapRow { IdMapRow(row.source, row.legacyId, row.table, row.targetId) }

  function IdMap(rows: seq<TargetRow>): seq<IdMapRow> {
    seq(|rows|, i requires 0 <= i < |rows| => IdMapOf(rows[i]))
  }

  /** The report is that of the input. */
  ghost predicate Reconciles(leq: (string, string) -> bool, input: seq<Batch>, report: Report) {
    && report.rows == Sort(RowOrder(leq), AllRows(input))
    && report.idMap == IdMap(report.rows)
    && report.rejected == AllRejections(input)
    && report.accepted == |report.rows| && report.rejectedTotal == |report.rejected|
    && SourceCounts(report.sourceCounts, input)
    && Counts(report.targetCounts, table => Count(report.rows, table))
    && Counts(report.rejectedCounts, collection => RejectedCount(report.rejected, collection))
    && Totals(report.totals, report.rows)
  }

  /** The collections of the input have different names. */
  ghost predicate Collections(input: seq<Batch>) {
    forall i, j :: 0 <= i < j < |input| ==> input[i].collection != input[j].collection
  }

  // ----- the loops of the run -----

  method MapAny(d: Document) returns (r: Outcome<seq<TargetRow>, Problem>)
    ensures r == MapDocument(d)
  {
    if d.body.OrderBody? { r := MapOrderDocument(d.body.order); } else { r := d.body.rows; }
  }

  /** A document's rows are pushed, or its rejection. */
  method AddDocument(collection: string, d: Document, rows: seq<TargetRow>, rejected: seq<RejectedRow>)
    returns (rows': seq<TargetRow>, rejected': seq<RejectedRow>)
    ensures rows' == rows + RowsOf(d) && rejected' == rejected + RejectionOf(collection)(d)
  {
    rows', rejected' := rows, rejected;
    var mapped := MapAny(d);
    if mapped.Ok? {
      rows' := rows + mapped.value;
    } else {
      rejected' := rejected + [RejectedRow(collection, d.rawId, mapped.error)];
    }
  }

  /** The loop over one collection. */
  method MapBatch(b: Batch, rows: seq<TargetRow>, rejected: seq<RejectedRow>)
    returns (rows': seq<TargetRow>, rejected': seq<RejectedRow>)
    ensures rows' == rows + BatchRows(b) && rejected' == rejected + BatchRejections(b)
  {
    rows', rejected' := rows, rejected;
    var k := 0;
    while k < |b.documents|
      invariant 0 <= k <= |b.documents|
      invariant rows' == rows + FlatMap(RowsOf, b.documents[..k])
      invariant rejected' == rejected + FlatMap(RejectionOf(b.collection), b.documents[..k])
    {
      var d := b.documents[k];
      FlatMapNext(RowsOf, b.documents, k);
      FlatMapNext(RejectionOf(b.collection), b.documents, k);
      rows', rejected' := AddDocument(b.collection, d, rows', rejected');
      k := k + 1;
    }
    assert b.documents[..k] == b.documents;
  }

  method MapAll(input: seq<Batch>) returns (rows: seq<TargetRow>, rejected: seq<RejectedRow>)
    ensures rows == AllRows(input) && rejected == AllRejections(input)
  {
    rows, rejected := [], [];
    var k := 0;
    while k < |input|
      invariant 0 <= k <= |input| && rows == AllRows(input[..k]) && rejected == AllRejections(input[..k])
    {
      assert input[..k + 1][..k] == input[..k];
      rows, rejected := MapBatch(input[k], rows, rejected);
      k := k + 1;
    }
    assert input[..k] == input;
  }

  method CountTables(rows: seq<TargetRow>) returns (counts: map<string, nat>)
    ensures Counts(counts, table => Count(rows, table))
  {
    counts := map[];
    var k := 0;
    while k < |rows|
      invariant 0 <= k <= |rows| && Counts(counts, table => Count(rows[..k], table))
    {
      assert rows[..k + 1][..k] == rows[..k];
      var table := rows[k].table;
      counts := counts[table := (if table in counts then counts[table] else 0) + 1];
      k := k + 1;
    }
    assert rows[..k] == rows;
  }

  method CountRejections(rejected: seq<RejectedRow>) returns (counts: map<string, nat>)
    ensures Counts(counts, collection => RejectedCount(rejected, collection))
  {
    counts := map[];
    var k := 0;
    while k < |rejected|
      invariant 0 <= k <= |rejected| && Counts(counts, collection => RejectedCount(rejected[..k], collection))
    {
      assert rejected[..k + 1][..k] == rejected[..k];
      var collection := rejected[k].collection;
      counts := counts[collection := (if collection in counts then counts[collection] else 0) + 1];
      k := k + 1;
    }
    assert rejected[..k] == rejected;
  }

  const FIELDS := ["subtotalMinor", "totalMinor", "amountMinor", "refundedMinor", "lineTotalMinor"]

  /** The totals after one more row. */
  ghost predicate Added(before: map<MoneyKey, nat>, row: TargetRow, fields: seq<string>, totals: map<MoneyKey, nat>) {
    forall key: MoneyKey ::
      var adds := row.table == key.0 && key.1 in fields && Field(row.data, key.1).Some?;
      && (key in totals <==> key in before || adds)
      && (key in totals ==>
            totals[key] == (if key in before then before[key] else 0)
            + (if adds then Field(row.data, key.1).value else 0))
  }

  method AddAmounts(before: map<MoneyKey, nat>, row: TargetRow) returns (totals: map<MoneyKey, nat>)
    ensures Added(before, row, FIELDS, totals)
  {
    totals := before;
    var k := 0;
    while k < |FIELDS|
      invariant 0 <= k <= |FIELDS| && Added(before, row, FIELDS[..k], totals)
    {
      var key: MoneyKey := (row.table, FIELDS[k]);
      var amount := Field(row.data, FIELDS[k]);
      NewField(k);
      if amount.Some? { totals := totals[key := (if key in totals then totals[key] else 0) + amount.value]; }
      k := k + 1;
    }
    assert FIELDS[..k] == FIELDS;
  }

  lemma NewField(k: nat)
    requires k < |FIELDS|
    ensures FIELDS[k] !in FIELDS[..k] && FIELDS[..k + 1] == FIELDS[..k] + [FIELDS[k]]
  {
  }

  method SumAmounts(rows: seq<TargetRow>) returns (totals: map<MoneyKey, nat>)
    ensures Totals(totals, rows)
  {
    totals := map[];
    var k := 0;
    while k < |rows|
      invariant 0 <= k <= |rows| && Totals(totals, rows[..k])
    {
      totals := AddRow(totals, rows, k);
      k := k + 1;
    }
    assert rows[..k] == rows;
  }

  /** The inner loop, for the row at k. */
  method AddRow(before: map<MoneyKey, nat>, rows: seq<TargetRow>, k: nat) returns (totals: map<MoneyKey, nat>)
    requires k < |rows| && Totals(before, rows[..k])
    ensures Totals(totals, rows[..k + 1])
  {
    totals := AddAmounts(before, rows[k]);
    TotalsStep(before, rows, k, totals);
  }

  lemma TotalsStep(before: map<MoneyKey, nat>, rows: seq<TargetRow>, k: nat, totals: map<MoneyKey, nat>)
    requires k < |rows| && Totals(before, rows[..k]) && Added(before, rows[k], FIELDS, totals)
    ensures Totals(totals, rows[..k + 1])
  {
    assert rows[..k + 1][..k] == rows[..k];
    forall key: MoneyKey
      ensures key in totals <==> HasField(rows[..k + 1], key.0, key.1)
      ensures key in totals ==> totals[key] == Total(rows[..k + 1], key.0, key.1)
    {
      FieldStep(rows, k, key);
      if key !in before { NoFieldNoTotal(rows[..k], key.0, key.1); }
    }
  }

  lemma FieldStep(rows: seq<TargetRow>, k: nat, key: MoneyKey)
    requires k < |rows|
    ensures HasField(rows[..k + 1], key.0, key.1)
       <==> HasField(rows[..k], key.0, key.1) || (rows[k].table == key.0 && Field(rows[k].data, key.1).Some?)
    ensures Field(rows[k].data, key.1).Some? ==> key.1 in FIELDS
  {
    if HasField(rows[..k], key.0, key.1) {
      var i :| 0 <= i < k && rows[..k][i].table == key.0 && Field(rows[..k][i].data, key.1).Some?;
      assert rows[..k + 1][i] == rows[i];
    }
    if rows[k].table == key.0 && Field(rows[k].data, key.1).Some? {
      assert rows[..k + 1][k] == rows[k];
    }
    assert FIELDS[0] == "subtotalMinor" && FIELDS[1] == "totalMinor" && FIELDS[2] == "amountMinor"
           && FIELDS[3] == "refundedMinor"
           && FIELDS[4] == "lineTotalMinor";
  }

  lemma {:induction false} NoFieldNoTotal(rows: seq<TargetRow>, table: string, field: string)
    requires !HasField(rows, table, field)
    ensures Total(rows, table, field) == 0
  {
    if rows != [] {
      var n := |rows| - 1;
      assert !(rows[n].table == table && Field(rows[n].data, field).Some?);
      assert forall i :: 0 <= i < n ==> rows[..n][i] == rows[i];
      NoFieldNoTotal(rows[..n], table, field);
    }
  }

  method CountSources(input: seq<Batch>) returns (counts: map<string, nat>)
    requires Collections(input)
    ensures SourceCounts(counts, input)
  {
    counts := map[];
    var k := 0;
    while k < |input|
      invariant 0 <= k <= |input|
      invariant forall i :: 0 <= i < k ==>
                              input[i].collection in counts && counts[input[i].collection] == |input[i].documents|
      invariant forall key :: key in counts ==> exists i :: 0 <= i < k && input[i].collection == key
    {
      counts := counts[input[k].collection := |input[k].documents|];
      k := k + 1;
    }
  }

  /** runMigration without the digest. */
  method RunMigration(leq: (string, string) -> bool, input: seq<Batch>) returns (report: Report)
    requires Collections(input)
    ensures Reconciles(leq, input, report)
  {
    var rows, rejected := MapAll(input);
    rows := Sort(RowOrder(leq), rows);
    var sourceCounts := CountSources(input);
    var targetCounts := CountTables(rows);
    var rejectedCounts := CountRejections(rejected);
    var totals := SumAmounts(rows);
    report :=
      Report(rows, IdMap(rows), rejected, sourceCounts, targetCounts, rejectedCounts, totals, |rows|, |rejected|);
  }

  // ----- rejected documents -----

  function Accepted(documents: seq<Document>): seq<Document> {
    if documents == [] then [] else
    var d := documents[|documents| - 1];
    Accepted(documents[..|documents| - 1]) + if MapDocument(d).Ok? then [d] else []
  }

  /** A rejected document contributes no row; it contributes one rejection, and an accepted one none. */
  lemma {:induction false} RejectedContributeNothing(collection: string, documents: seq<Document>)
    ensures FlatMap(RowsOf, documents) == FlatMap(RowsOf, Accepted(documents))
    ensures |FlatMap(RejectionOf(collection), documents)| + |Accepted(documents)| == |documents|
  {
    if documents != [] {
      var n := |documents| - 1;
      RejectedContributeNothing(collection, documents[..n]);
      if MapDocument(documents[n]).Ok? {
        FlatMapAppend(RowsOf, Accepted(documents[..n]), [documents[n]]);
        FlatMapOne(RowsOf, documents[n]);
      } else {
        assert RowsOf(documents[n]) == [];
        assert FlatMap(RowsOf, documents) == FlatMap(RowsOf, documents[..n]);
        assert Accepted(documents) == Accepted(documents[..n]);
      }
    }
  }

  // ----- document order -----

  /** The same collections, each with its documents in some order. */
  ghost predicate Reordered(a: seq<Batch>, b: seq<Batch>) {
    && |a| == |b|
    && (forall i :: 0 <= i < |a| ==> a[i].collection == b[i].collection)
    && (forall i :: 0 <= i < |a| ==> multiset(a[i].documents) == multiset(b[i].documents))
  }

  lemma {:induction false} ReorderedRows(a: seq<Batch>, b: seq<Batch>)
    requires Reordered(a, b)
    ensures multiset(AllRows(a)) == multiset(AllRows(b)) && multiset(AllRejections(a)) == multiset(AllRejections(b))
  {
    if a != [] {
      var n := |a| - 1;
      ReorderedRows(a[..n], b[..n]);
      FlatMapPermutes(RowsOf, a[n].documents, b[n].documents);
      FlatMapPermutes(RejectionOf(a[n].collection), a[n].documents, b[n].documents);
    }
  }

  /** No two rows have the same table and id. */
  ghost predicate KeysDistinct(rows: seq<TargetRow>) {
    forall i, j :: 0 <= i < j < |rows| ==> KeyOf(rows[i]) != KeyOf(rows[j])
  }

  lemma RowOrderFacts(leq: (string, string) -> bool)
    requires TotalOrder(leq)
    ensures TotalPreorder(RowOrder(leq))
    ensures forall a, b :: RowOrder(leq)(a, b) && RowOrder(leq)(b, a) ==> KeyOf(a) == KeyOf(b)
  {
    forall a: TargetRow, b: TargetRow ensures RowOrder(leq)(a, b) || RowOrder(leq)(b, a) {
      assert leq(a.table, b.table) || leq(b.table, a.table);
      assert leq(a.targetId, b.targetId) || leq(b.targetId, a.targetId);
    }
    forall a: TargetRow, b: TargetRow, c: TargetRow | RowOrder(leq)(a, b) && RowOrder(leq)(b, c)
      ensures RowOrder(leq)(a, c) {
      assert leq(a.table, b.table) || a.table == b.table;
      assert leq(b.table, c.table) || b.table == c.table;
    }
  }

  lemma KeysSeparate(leq: (string, string) -> bool, rows: seq<TargetRow>)
    requires TotalOrder(leq) && KeysDistinct(rows)
    ensures Separates(RowOrder(leq), rows)
  {
    RowOrderFacts(leq);
    forall a, b | a in multiset(rows) && b in multiset(rows) && RowOrder(leq)(a, b) && RowOrder(leq)(b, a)
      ensures a == b {
      var i :| 0 <= i < |rows| && rows[i] == a;
      var j :| 0 <= j < |rows| && rows[j] == b;
    }
  }

  lemma CountsUnique(count: string -> nat, a: map<string, nat>, b: map<string, nat>)
    requires Counts(a, count) && Counts(b, count)
    ensures a == b
  {
  }

  lemma TotalsUnique(rows: seq<TargetRow>, a: map<MoneyKey, nat>, b: map<MoneyKey, nat>)
    requires Totals(a, rows) && Totals(b, rows)
    ensures a == b
  {
    forall key: MoneyKey ensures (key in a <==> key in b) && (key in a ==> a[key] == b[key]) { var (_, _) := key; }
  }

  /**
   With distinct target ids the rows, their counts and their totals do not depend on the order of the documents, and the
   rejections only in their order.
   */
  lemma OrderIndependent(leq: (string, string) -> bool, a: seq<Batch>, b: seq<Batch>, x: Report, y: Report)
    requires TotalOrder(leq) && Reordered(a, b) && KeysDistinct(AllRows(a)) && Reconciles(leq, a, x)
             && Reconciles(leq, b, y)
    ensures x.rows == y.rows && x.idMap == y.idMap && x.targetCounts == y.targetCounts && x.totals == y.totals
    ensures multiset(x.rejected) == multiset(y.rejected)
  {
    ReorderedRows(a, b);
    RowOrderFacts(leq);
    KeysSeparate(leq, AllRows(a));
    SortIgnoresOrder(RowOrder(leq), AllRows(a), AllRows(b));
    CountsUnique(table => Count(x.rows, table), x.targetCounts, y.targetCounts);
    TotalsUnique(x.rows, x.totals, y.totals);
  }

  /** With no rejections the whole report is independent of the order of the documents. */
  lemma NothingRejectedSameReport(leq: (string, string) -> bool, a: seq<Batch>, b: seq<Batch>, x: Report, y: Report)
    requires TotalOrder(leq) && Collections(a) && Reordered(a, b) && KeysDistinct(AllRows(a)) && Reconciles(leq, a, x)
             && Reconciles(leq, b, y)
    requires x.rejected == []
    ensures x == y
  {
    OrderIndependent(leq, a, b, x, y);
    assert |multiset(y.rejected)| == |y.rejected|;
    CountsUnique(collection => RejectedCount(x.rejected, collection), x.rejectedCounts, y.rejectedCounts);
    SourceCountsUnique(a, b, x.sourceCounts, y.sourceCounts);
  }

  lemma SourceCountsUnique(a: seq<Batch>, b: seq<Batch>, x: map<string, nat>, y: map<string, nat>)
    requires Reordered(a, b) && SourceCounts(x, a) && SourceCounts(y, b)
    ensures x == y
  {
    forall i | 0 <= i < |a| ensures |a[i].documents| == |b[i].documents| { SameLength(a[i].documents, b[i].documents); }
    forall key ensures (key in x <==> key in y) && (key in x ==> x[key] == y[key]) {
      if key in x { var i :| 0 <= i < |a| && a[i].collection == key; assert b[i].collection == key; }
      if key in y { var i :| 0 <= i < |b| && b[i].collection == key; assert a[i].collection == key; }
    }
  }

  // ----- when the keys are distinct -----

  /** No row of one list shares its key with a row of the other. */
  ghost predicate KeysApart(a: seq<TargetRow>, b: seq<TargetRow>) {
    forall i, j :: 0 <= i < |a| && 0 <= j < |b| ==> KeyOf(a[i]) != KeyOf(b[j])
  }

  /** Each document's keys are distinct, and no two documents share one. */
  ghost predicate DocumentsApart(documents: seq<Document>) {
    && (forall i :: 0 <= i < |documents| ==> KeysDistinct(RowsOf(documents[i])))
    && (forall i, j :: 0 <= i < j < |documents| ==> KeysApart(RowsOf(documents[i]), RowsOf(documents[j])))
  }

  lemma {:induction false} FrontApart(documents: seq<Document>, rows: seq<TargetRow>)
    requires forall i :: 0 <= i < |documents| ==> KeysApart(RowsOf(documents[i]), rows)
    ensures KeysApart(FlatMap(RowsOf, documents), rows)
  {
    if documents != [] {
      var n := |documents| - 1;
      FrontApart(documents[..n], rows);
      assert KeysApart(RowsOf(documents[n]), rows);
      ApartAppend(FlatMap(RowsOf, documents[..n]), RowsOf(documents[n]), rows);
    }
  }

  lemma ApartAppend(a: seq<TargetRow>, b: seq<TargetRow>, rows: seq<TargetRow>)
    requires KeysApart(a, rows) && KeysApart(b, rows)
    ensures KeysApart(a + b, rows)
  {
  }

  lemma DistinctAppend(a: seq<TargetRow>, b: seq<TargetRow>)
    requires KeysDistinct(a) && KeysDistinct(b) && KeysApart(a, b)
    ensures KeysDistinct(a + b)
  {
  }

  lemma {:induction false} ApartDistinct(documents: seq<Document>)
    requires DocumentsApart(documents)
    ensures KeysDistinct(FlatMap(RowsOf, documents))
  {
    if documents != [] {
      var n := |documents| - 1;
      ApartDistinct(documents[..n]);
      FrontApart(documents[..n], RowsOf(documents[n]));
      DistinctAppend(FlatMap(RowsOf, documents[..n]), RowsOf(documents[n]));
    }
  }

  function DocumentsOf(b: Batch): seq<Document> { b.documents }

  lemma {:induction false} RowsFlatten(input: seq<Batch>)
    ensures AllRows(input) == FlatMap(RowsOf, FlatMap(DocumentsOf, input))
  {
    if input != [] {
      var n := |input| - 1;
      RowsFlatten(input[..n]);
      FlatMapAppend(RowsOf, FlatMap(DocumentsOf, input[..n]), input[n].documents);
    }
  }

  /** If both documents are orders, no text of one runs into a text of the other. */
  predicate SeparateOrders(d: Document, e: Document) {
    d.body.OrderBody? && e.body.OrderBody? && d.body.order.id.Some? && e.body.order.id.Some? ==>
      !MigrationIds.MayCollide(d.body.order.id.value, e.body.order.id.value)
  }

  /** Documents of other collections make no order rows, and their keys are distinct and apart. */
  ghost predicate OthersApart(documents: seq<Document>) {
    && (forall i :: 0 <= i < |documents| && documents[i].body.OtherBody? ==>
                      KeysDistinct(RowsOf(documents[i])) && NoRowsOfOrders(RowsOf(documents[i])))
    && (forall i, j :: 0 <= i < j < |documents| && documents[i].body.OtherBody? && documents[j].body.OtherBody? ==>
                         KeysApart(RowsOf(documents[i]), RowsOf(documents[j])))
  }

  ghost predicate NoRowsOfOrders(rows: seq<TargetRow>) {
    forall i :: 0 <= i < |rows| ==> rows[i].table !in {"orders", "vendor_orders", "order_items"}
  }

  lemma OrdersApart(d: Document, e: Document)
    requires d.body.OrderBody? && e.body.OrderBody? && SeparateOrders(d, e)
    ensures KeysApart(RowsOf(d), RowsOf(e))
  {
    forall i, j | 0 <= i < |RowsOf(d)| && 0 <= j < |RowsOf(e)| ensures KeyOf(RowsOf(d)[i]) != KeyOf(RowsOf(e)[j]) {
      if KeyOf(RowsOf(d)[i]) == KeyOf(RowsOf(e)[j]) { MigrationIds.CollidingIds(d.body.order, e.body.order); }
    }
  }

  lemma OrderRowsDistinct(d: Document)
    requires d.body.OrderBody?
    ensures KeysDistinct(RowsOf(d))
  {
    forall i, j | 0 <= i < j < |RowsOf(d)| ensures KeyOf(RowsOf(d)[i]) != KeyOf(RowsOf(d)[j]) {
      RowKeysDiffer(d.body.order, i, j);
    }
  }

  lemma OrderApartFromOther(d: Document, e: Document)
    requires d.body.OrderBody? && e.body.OtherBody? && NoRowsOfOrders(RowsOf(e))
    ensures KeysApart(RowsOf(d), RowsOf(e)) && KeysApart(RowsOf(e), RowsOf(d))
  {
    forall i | 0 <= i < |RowsOf(d)| ensures RowsOf(d)[i].table in {"orders", "vendor_orders", "order_items"} {
      MigrationIds.RowPlace(d.body.order, i);
    }
  }

  /** Legacy ids that do not run into each other are enough for distinct target ids, whatever the vendor ids are. */
  lemma LegacyIdsGiveDistinctKeys(input: seq<Batch>)
    requires var documents := FlatMap(DocumentsOf, input);
             && OthersApart(documents)
             && (forall i, j :: 0 <= i < j < |documents| ==> SeparateOrders(documents[i], documents[j]))
    ensures KeysDistinct(AllRows(input))
  {
    var documents := FlatMap(DocumentsOf, input);
    forall i | 0 <= i < |documents| ensures KeysDistinct(RowsOf(documents[i])) {
      if documents[i].body.OrderBody? { OrderRowsDistinct(documents[i]); }
    }
    forall i, j | 0 <= i < j < |documents| ensures KeysApart(RowsOf(documents[i]), RowsOf(documents[j])) {
      var d, e := documents[i], documents[j];
      if d.body.OrderBody? && e.body.OrderBody? {
        OrdersApart(d, e);
      } else if d.body.OrderBody? {
        OrderApartFromOther(d, e);
      } else if e.body.OrderBody? {
        OrderApartFromOther(e, d);
      }
    }
    ApartDistinct(documents);
    RowsFlatten(input);
  }

  // ----- the money balances -----

  lemma TotalWithout(rows: seq<TargetRow>, front: seq<TargetRow>, row: TargetRow, back: seq<TargetRow>, table: string,
                     field: string)
    requires rows == front + [row] + back
    ensures Total(rows, table, field) == Total(front + back, table, field) + Share(row, table, field)
  {
    TotalAppend(front + [row], back, table, field);
    TotalAppend(front, [row], table, field);
    TotalOne(row, table, field);
    TotalAppend(front, back, table, field);
  }

  lemma {:induction false} TotalPermutes(s: seq<TargetRow>, t: seq<TargetRow>, table: string, field: string)
    requires multiset(s) == multiset(t)
    ensures Total(s, table, field) == Total(t, table, field)
  {
    if s == [] {
      SameLength(s, t);
    } else {
      var front, back := TakeLast(s, t);
      TotalPermutes(s[..|s| - 1], front + back, table, field);
      TotalWithout(t, front, s[|s| - 1], back, table, field);
    }
  }

  ghost predicate NoOrderRows(rows: seq<TargetRow>) {
    forall i :: 0 <= i < |rows| ==> rows[i].table != "vendor_orders" && rows[i].table != "order_items"
  }

  /** Only the orders branch makes vendor orders and items. */
  ghost predicate OnlyOrdersMakeOrderRows(documents: seq<Document>) {
    forall i :: 0 <= i < |documents| && documents[i].body.OtherBody? ==> NoOrderRows(RowsOf(documents[i]))
  }

  lemma {:induction false} NoOrderRowsBalance(rows: seq<TargetRow>)
    requires NoOrderRows(rows)
    ensures SubtotalTotal(rows) == LineTotal(rows) == 0
  {
    if rows != [] { NoOrderRowsBalance(rows[..|rows| - 1]); }
  }

  /** The vendor subtotals sum to the line totals. */
  predicate Balanced(rows: seq<TargetRow>) { SubtotalTotal(rows) == LineTotal(rows) }

  lemma BalancedAppend(a: seq<TargetRow>, b: seq<TargetRow>)
    requires Balanced(a) && Balanced(b)
    ensures Balanced(a + b)
  {
    TotalAppend(a, b, "vendor_orders", "subtotalMinor");
    TotalAppend(a, b, "order_items", "lineTotalMinor");
  }

  lemma {:induction false} DocumentsBalance(documents: seq<Document>)
    requires OnlyOrdersMakeOrderRows(documents)
    ensures Balanced(FlatMap(RowsOf, documents))
  {
    if documents != [] {
      var n := |documents| - 1;
      DocumentsBalance(documents[..n]);
      var d := documents[n];
      if d.body.OrderBody? && MapOrder(d.body.order).Ok? { SubtotalsSumToLines(d.body.order); }
      if d.body.OtherBody? { NoOrderRowsBalance(RowsOf(d)); }
      BalancedAppend(FlatMap(RowsOf, documents[..n]), RowsOf(d));
    }
  }

  lemma {:induction false} RowsBalance(input: seq<Batch>)
    requires forall i :: 0 <= i < |input| ==> OnlyOrdersMakeOrderRows(input[i].documents)
    ensures Balanced(AllRows(input))
  {
    if input != [] {
      var n := |input| - 1;
      RowsBalance(input[..n]);
      DocumentsBalance(input[n].documents);
      BalancedAppend(AllRows(input[..n]), BatchRows(input[n]));
    }
  }

  function Reported(totals: map<MoneyKey, nat>, table: string, field: string): nat {
    if (table, field) in totals then totals[(table, field)] else 0
  }

  lemma ReportedTotal(rows: seq<TargetRow>, totals: map<MoneyKey, nat>, table: string, field: string)
    requires Totals(totals, rows)
    ensures Reported(totals, table, field) == Total(rows, table, field)
  {
    var key: MoneyKey := (table, field);
    assert key in totals <==> HasField(rows, key.0, key.1);
    if key !in totals { NoFieldNoTotal(rows, table, field); }
  }

  /** In every migration report the vendor-order subtotals equal the line totals, whatever was rejected. */
  lemma ReportBalances(leq: (string, string) -> bool, input: seq<Batch>, report: Report)
    requires TotalOrder(leq) && Reconciles(leq, input, report)
    requires forall i :: 0 <= i < |input| ==> OnlyOrdersMakeOrderRows(input[i].documents)
    ensures Reported(report.totals, "vendor_orders", "subtotalMinor")
         == Reported(report.totals, "order_items", "lineTotalMinor")
  {
    RowOrderFacts(leq);
    SortResult(RowOrder(leq), AllRows(input));
    TotalPermutes(report.rows, AllRows(input), "vendor_orders", "subtotalMinor");
    TotalPermutes(report.rows, AllRows(input), "order_items", "lineTotalMinor");
    RowsBalance(input);
    ReportedTotal(report.rows, report.totals, "vendor_orders", "subtotalMinor");
    ReportedTotal(report.rows, report.totals, "order_items", "lineTotalMinor");
  }
}
