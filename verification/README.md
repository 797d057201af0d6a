# Verified models of the marketplace back end

This project models the parts of the marketplace whose correctness spans several functions, and proves what they
promise: how stock, orders and payments move together, how the cache and the delivery outbox behave under every
interleaving, what the hand-written algorithms compute, and how money and legacy orders are split and summed. Dafny
checks all of it with `dafny verify dfyconfig.toml`. Nothing of the original program is executed.

## How the files fit together

- **Stock.** `Stock` holds the tables (stock rows, reservations, movement log) and the three row operations: consume,
  release, expire. `StockProofs` follows one operation over a list of rows. `StockRuns` adds checkout, package release
  and the read-then-write stock edits as a state machine, and `StockRunProofs` proves its laws over whole runs.
  `StockLedger` accounts for each reservation's movements, `StockWrites` says exactly when a checkout or an edit is
  accepted and all it writes, and `UnseenVersion` when an edit under a guessed version does harm.
- **Orders and payments.** `OrderLifecycle` has the status tables and the derived parent status. `Payments` adds
  provider events, expiry of the payment window and manual review; every transaction is one atomic step, and a throw
  leaves the old state. `PaymentProofs` and `PaymentRuns` prove the protocol over runs, `PaymentEffects` says what each
  decisive transaction does to the stock, `PaymentOutcomes` exactly when each is refused and all that an accepted one
  writes, and `PaymentRaces` follows a capture that can never be recorded. `Database` has the same operations as methods
  on a mutable store, with the source's loops, each proved equal to its function.
- **Catalogue.** `EditDistance`, `FuzzyScore`, `ProductCsv`, `ProductCsvText` (which text stands for which table),
  `CategoryTree`, `CatalogPaging`.
- **Concurrency helpers.** `TtlCache` and `DeliveryOutbox` are state machines over the steps between two awaits;
  `TtlCacheStore` and `DeliveryRelay` are the objects that carry out those steps, `TtlCacheTimes` and `DeliveryTimes` say
  what each step leaves behind and for how long, `TtlCacheRaces` has concrete runs, and `DeliveryProgress` says what
  relays can still bring about.
- **Money and migration.** `Money`, `MoneyForms`, `BigInts`, `Loyalty`, `Promotions`, `Migration`, `MigrationIds`,
  `MigrationRunner`, `MigrationContents` (every field and figure in terms of the documents), with sorting and flattening
  in `Sequences`.

## Where the code does less than one would expect

Each of these is a theorem over all inputs, with the exact condition where it says exactly; lemmas with concrete inputs
or runs show that the failing cases occur:

- A stock edit is checked against the rows it read and written under their versions. An administrator's edit, of one
  variant or of many, can leave more units reserved than on hand exactly when every change asks for at least what was
  reserved, under the version it read or a later one, and some change names a later version and, if it is the very next
  one, asks for less than was on hand (`UnseenVersionBreaksExactly`, `UnseenVersionBreaksBound`). A vendor's edit never
  checks `reserved` and keeps the bound exactly when it asks for at least that much (`WriteVendorGood`,
  `VendorEditBreaksBound`).
- A capture that arrives after the order was cancelled is recorded exactly when its reference is new
  (`LateCaptureRecorded`). If a verification record already carries the reference, the capture is refused every time it
  is retried (`LateCaptureStaysRefused`, `LateCaptureLost`).
- Rejecting or cancelling one package can move the derived order status backwards or skip several edges (`DropStep`;
  `DropGoesBack`, `DropSkipsEdges`). The stored status then stays one step ahead of the derived one
  (`ParentStaysInStep`).
- Printing and parsing CSV is the identity exactly on non-empty tables of non-empty rows (`RoundTrip`; `ParsePrinted`
  gives what comes back otherwise).
- The amount parser of the mobile form accepts a trailing dot, which the migration's rejects, and the gateway's rejects
  surrounding space, which the other two remove (`ParsersDiffer`). The editable form of a negative amount does not parse
  back (`EditableRoundTrip`).
- A prefix delete does not cancel a running refresh: a deleted key can come back by itself, and a newer entry can be
  overwritten by an older value, exactly when a refresh of the key is running (`DeletedKeyReturns`, `ReplacedExactly`;
  `RefreshingHappens`, `OlderRefreshOverwrites`).
- A processed event can become pending again exactly when some relay still holds it (`ReopenedExactlyWhenHeld`). Within
  the leases that cannot happen (`ProcessedIsFinal`). A held event can come to be held by a second relay, without time
  passing, exactly when its lease is over (`SharedExactlyWhenOverdue`), and then the late holder's failure undoes the
  other's work (`LateHolderUndoes`).
- An unprocessed event can become processed, while its job record remains, exactly when there is a relay, its payload can
  be parsed, and its job is not completed or some relay is already past asking about it (`ProcessableExactly`). So an
  event whose job has completed can be stuck (`CompletedJobBlocks`, `BlockedHappens`, `RetryingIsStuck`) until the record
  is removed (`ReadableIsProcessable`).
- Reversing refunds one at a time takes back up to one point more per further refund than reversing them at once; refunds
  of the full amount come out exact if and only if each share is a whole number of points (`SeparateReversalsExact`,
  `SeparateReversalsOvershoot`). The loyalty ledger avoids this by working from the total refunded
  (`LedgerReversesOnce`).
- Two accepted legacy orders can have rows with the same table and id exactly when their legacy ids are equal or one
  continues the other with ":vendor" or ":item" (`OrdersCollideExactly`, `AcceptedOrdersCollide`). Ids that do not, such
  as different ids without colons (`ColonlessApart`), are enough for distinct ids everywhere
  (`LegacyIdsGiveDistinctKeys`).

## Assumptions

- A transaction is atomic: the order row is locked first, and a throw rolls back. Unique constraints hold (movement
  keys, webhook ids, transaction ids, verification references).
- An order has one payment. Rows used by a transaction were read in it. An edit's expected version was observed before
  its row was read, except in `UnseenVersion`.
- The payment window may close at any time while the order has active reservations; its deadline is not modelled.
- Relays share one clock. A database or queue operation either takes effect or throws without effect; a crash may follow
  any operation. The queue ignores an `add` whose job id it has and retries only failed jobs.
- Search strings are already normalized. Ids and table names are compared by a total order. The hash of the migration
  is injective in the text that is hashed.
- The stale window given to the cache is not negative.

## Model

| member | source | states |
|---|---|---|
| StockRunProofs.StockLaw | apps/api/src/modules/commerce/inventory-reservation.ts:14-52 | after every interleaving of checkouts, consumption, order and package releases, expiry and stock edits, `reserved` is the sum of the active reservations and `onHand` is the opening stock plus the signed effect of the log; without vendor edits `0 <= reserved <= onHand` |
| StockRunProofs.RunKeepsInv | apps/api/src/modules/commerce/inventory-reservation.ts:14-52 | from any consistent state, every legal run stays consistent, keeps the opening stock and raises the version with every change of a row; the reserved bound is kept while no vendor edit is written |
| StockRunProofs.StepGood | apps/api/src/modules/admin/admin.service.ts:390-399 | each single step keeps the tables consistent and the ledger exact, and all steps but a vendor's write keep the reserved bound |
| StockRunProofs.GuardsNeverFire | apps/api/src/modules/commerce/inventory-reservation.ts:14-40 | in every reachable state without vendor edits, consuming, releasing or expiring rows read in that state cannot be refused, so the inconsistency guards are dead |
| StockRunProofs.ConsumeExactly | apps/api/src/modules/commerce/inventory-reservation.ts:14-25 | vendor edits included, an order's reservations can be consumed exactly when each variant has its units on hand |
| StockLedger.AtMostOnce | apps/api/src/modules/commerce/inventory-reservation.ts:20-38 | a reservation takes stock at most once and gives it back at most once, by release or by expiry but not both; each such movement is for its own variant and quantity, and stock that was taken can only come back by a release |
| StockLedger.ReservationLedger | apps/api/src/modules/commerce/inventory-reservation.ts:20-38 | over every run, vendor edits included, the effects of a reservation's movements sum to minus its quantity while it is consumed and to nothing otherwise |
| StockRunProofs.PackageReleaseExact | apps/api/src/modules/commerce/inventory-reservation.ts:42-52 | a package release returns exactly the package's quantity of each variant, to the shelf or to the unreserved units |
| StockRunProofs.WriteChangeGood | apps/api/src/modules/admin/admin.service.ts:390-399 | an administrator's write succeeds exactly when it is not below the reserved units seen and the version still matches; then the row written is the row read, and the bound is kept |
| StockRunProofs.WriteVendorGood | apps/api/src/modules/catalog/catalog.service.ts:509-525 | a vendor's write logs its difference once, and keeps the reserved bound exactly when it asks for at least the reserved units |
| StockWrites.VendorWritesExactly | apps/api/src/modules/catalog/catalog.service.ts:509-525 | a vendor's write is accepted exactly when its key is known, and then changes nothing, or the version named is current; then it sets its own row from what it was and logs the difference under its key |
| StockWrites.WritesExactly | apps/api/src/modules/admin/admin.service.ts:390-399 | a bulk edit is accepted exactly when every change covers the reserved units seen, every version is current and no variant comes twice; it then sets each row once and logs one adjustment for each row whose units change |
| StockWrites.ReservesExactly | apps/api/src/modules/commerce/commerce.service.ts:237 | lines are reserved exactly when each variant has the units to spare, was not reserved for the order before, and comes once |
| StockWrites.ReservesUnits | apps/api/src/modules/commerce/commerce.service.ts:305-306 | an accepted checkout holds each line's quantity back once and leaves units on hand and other variants alone |
| StockWrites.ReservesLines | apps/api/src/modules/commerce/commerce.service.ts:305-306 | it adds one active reservation and one movement for each line, in order |
| StockWrites.QueryAnswers | apps/api/src/modules/commerce/inventory-reservation.ts:15 | in every state the query for an order's rows has an answer |
| UnseenVersion.UnseenVersionBreaksExactly | apps/api/src/modules/admin/admin.service.ts:390-399 | for every consistent and bounded world and every edit of different variants: some run that ends in writing it breaks the bound exactly when every change asks for at least what was reserved under no older version than it read, and some change names a later version and, if the very next one, asks for less than was on hand |
| UnseenVersion.WriteMeets | apps/api/src/modules/admin/admin.service.ts:397 | an accepted write of several changes met every row under the version named, gives each the new stock, keeps what is reserved, and leaves the other rows alone |
| UnseenVersion.UnseenVersionBreaksBound | apps/api/src/modules/admin/admin.service.ts:390-394 | a concrete run in which a guessed version lets an edit fall below the reserved units |
| UnseenVersion.VendorEditBreaksBound | apps/api/src/modules/catalog/catalog.service.ts:509-525 | a concrete run in which a vendor's edit under the current version falls below the reserved units |
| StockProofs.ApplyAllSucceeds | apps/api/src/modules/commerce/inventory-reservation.ts:16-23 | on a consistent database a whole list of rows is refused exactly when a sale asks for more than is on hand |
| StockProofs.ApplyAllStock | apps/api/src/modules/commerce/inventory-reservation.ts:16-38 | what a whole list of rows does to one stock row: its active units leave `reserved`, sold units leave and returned units enter `onHand`, and the version counts the rows |
| StockProofs.ApplyAllMarks | apps/api/src/modules/commerce/inventory-reservation.ts:21-37 | exactly the listed reservations change status, all others stay |
| StockProofs.ApplyAllLogs | apps/api/src/modules/commerce/inventory-reservation.ts:20-38 | one movement per row is logged, in order, and nothing is removed from the log |
| Stock.EnumerationQuantity | apps/api/src/modules/commerce/inventory-reservation.ts:15 | however a query orders an order's reservations, the quantities it lists are those in the table |
| PaymentRuns.Lockstep | apps/api/src/modules/commerce/payment-webhook.service.ts:21-53 | from an empty shop, under any order of provider events, expiries, reviews and stock edits, for every order: pending, all its reservations are active; confirmed, it is paid and all are consumed; cancelled, all are released or expired and no package is left; and a captured payment has a confirmed order or a reconciliation record |
| PaymentRuns.RunBounded | apps/api/src/modules/commerce/payment-webhook.service.ts:21-53 | from an empty shop, in every run without a vendor's write, the invariants and the reserved bound hold |
| PaymentRuns.RunSafe | apps/api/src/modules/commerce/payment-webhook.service.ts:21-53 | the invariant behind the lockstep is kept by every run from any state that satisfies it |
| PaymentRuns.DecidedOnce | apps/worker/src/inventory/reservation-expiry.scheduler.ts:28-46 | an order leaves PENDING_PAYMENT at most once, and once it is decided and paid nothing changes it |
| PaymentRuns.ReplayChangesNothing | apps/api/src/modules/commerce/payment-webhook.service.ts:24 | an event id that was accepted once changes nothing later, whatever happened in between and whatever the replay says |
| PaymentEffects.CaptureSells | apps/api/src/modules/commerce/payment-webhook.service.ts:28-36 | from a reachable state with the bound, an acceptable capture for a pending order always confirms it, sells exactly the units it holds, and touches no other order; the missing-hold branch is dead |
| PaymentEffects.CaptureSucceeds | apps/api/src/modules/commerce/payment-webhook.service.ts:28-36 | end to end: from an empty shop, after any run without a vendor's write, a fitting capture for a pending order succeeds, sells exactly its hold and confirms it |
| PaymentEffects.FailureFrees | apps/api/src/modules/commerce/payment-webhook.service.ts:42-47 | a provider failure or cancellation for a pending order always cancels it and its packages and frees exactly the units it holds |
| PaymentOutcomes.WrongAmountRefused | apps/api/src/modules/commerce/payment-webhook.service.ts:28 | in every state, a new event whose amount is not the payment's is refused and changes nothing |
| PaymentOutcomes.WebhookAcceptedExactly | apps/api/src/modules/commerce/payment-webhook.service.ts:24-41 | from a reachable state with the bound, an event is accepted exactly when it was seen before, or its payment exists, the amount is right, and the payment is captured already or no other order has the transaction and no record the late reference; a refused one changes nothing |
| PaymentOutcomes.PendingDecided | apps/api/src/modules/commerce/payment-webhook.service.ts:31-46 | all that an accepted new event writes for a pending order: the payment's status and transaction, the order's status and packages, the stock of its hold, the event id, and nothing else |
| PaymentOutcomes.CancelledRecorded | apps/api/src/modules/commerce/payment-webhook.service.ts:31-41 | all that an accepted new event writes for a cancelled order: the payment, and for a capture one new reconciliation record under the event's transaction |
| PaymentOutcomes.CapturedStays | apps/api/src/modules/commerce/payment-webhook.service.ts:30 | an accepted new event for a captured payment only marks the event as seen |
| PaymentOutcomes.MissingHoldRecorded | apps/api/src/modules/commerce/payment-webhook.service.ts:34-38 | a capture for a pending order that holds nothing leaves it pending and adds one reconciliation record, refused exactly when the reference is taken |
| PaymentOutcomes.NoSharedTransaction | apps/api/src/modules/commerce/payment-webhook.service.ts:31 | from an empty shop, no run gives two orders the same provider transaction |
| PaymentOutcomes.PlacedExactly | apps/api/src/modules/commerce/commerce.service.ts:303-306 | an order is placed exactly under unused ids and with lines that can all be reserved; it waits for the amount asked, and nothing else changes |
| PaymentEffects.ReviewDecides | apps/api/src/modules/admin/admin.service.ts:421 | rejecting changes the record alone; approving succeeds exactly while the order is pending and then does what a capture does |
| PaymentOutcomes.ReviewAcceptedExactly | apps/api/src/modules/admin/admin.service.ts:421 | from a reachable state with the bound, a review is accepted exactly when its record exists and is pending and, to approve, the order still waits for its payment; a refused one changes nothing |
| PaymentOutcomes.ApprovalWrites | apps/api/src/modules/admin/admin.service.ts:421 | all that an approval writes: the record, the captured payment, the confirmed order, and nothing of other orders |
| PaymentEffects.HoldSettles | apps/api/src/modules/commerce/inventory-reservation.ts:14-40 | for every variant, the row operations of an order move exactly the quantity that the order holds of it |
| PaymentRuns.LateCaptureRecorded | apps/api/src/modules/commerce/payment-webhook.service.ts:40-41 | a capture after cancellation is accepted exactly when its reference is new, and then leaves a reconciliation record and the stock untouched |
| PaymentRaces.LateCaptureStaysRefused | apps/api/src/modules/commerce/payment-webhook.service.ts:40-41 | if the reference is taken, after any run the capture is refused and changes nothing, unless its event id has been seen or the payment was captured under another reference |
| PaymentRaces.LateCaptureLost | apps/api/src/modules/commerce/payment-webhook.service.ts:40-41 | a run from an empty shop, by a submitted reference and a closed window, after which the fitting capture is refused |
| PaymentRuns.ExpiryReturnsHold | apps/worker/src/inventory/reservation-expiry.scheduler.ts:28-46 | expiry of a pending order cannot fail, makes exactly its reserved units available again, leaves `onHand` alone and times the payment out |
| PaymentOutcomes.WindowExactly | apps/worker/src/inventory/reservation-expiry.scheduler.ts:28-46 | closing the window leaves every order alone that is not pending; for a pending one it always succeeds, frees exactly the hold, cancels the order and its packages, times the payment out, and writes nothing else |
| PaymentOutcomes.WindowSpares | apps/worker/src/inventory/reservation-expiry.scheduler.ts:39-46 | in any state: delivered and cancelled packages stay, the others are cancelled, and exactly an open payment times out |
| PaymentRuns.RunRefinesStock | apps/api/src/modules/commerce/payment-webhook.service.ts:21-53 | every run of the payment protocol is a legal run of the stock tables, without vendor writes if it has none, so the laws of stock hold along it |
| PaymentProofs.ProcessSafe | apps/api/src/modules/commerce/payment-webhook.service.ts:21-53 | a provider event keeps orders, payments and reservations in lockstep, whatever it says |
| PaymentProofs.ExpireSafe | apps/worker/src/inventory/reservation-expiry.scheduler.ts:28-46 | expiry of the payment window keeps the lockstep |
| PaymentProofs.ReviewSafe | apps/api/src/modules/admin/admin.service.ts:421 | manual approval and rejection keep the lockstep |
| PaymentProofs.OrderMoves | apps/api/src/modules/commerce/payment-webhook.service.ts:43-44 | all reservations of the order move to the target status and those of other orders stay |
| Database.Store.ConsumeOrderReservations | apps/api/src/modules/commerce/inventory-reservation.ts:14-25 | the loop over the found rows gives the tables of the row operation applied to all of them, the count, or the first problem |
| Database.Store.ReleaseOrderReservations | apps/api/src/modules/commerce/inventory-reservation.ts:27-40 | the same for releases, from active and from consumed rows |
| Database.Store.ReleaseVendorOrderReservations | apps/api/src/modules/commerce/inventory-reservation.ts:42-52 | selects the package's rows, refuses when their totals differ from the package, and releases exactly those |
| Database.Store.TallyPackage | apps/api/src/modules/commerce/inventory-reservation.ts:43-44 | the map holds exactly the package's variants with their summed quantities |
| Database.Store.TotalsMatch | apps/api/src/modules/commerce/inventory-reservation.ts:46-49 | accepts exactly when every variant's selected rows sum to its package quantity |
| Database.Store.WriteInventory | apps/api/src/modules/admin/admin.service.ts:395-399 | the loop over the changes writes all of them, or restores the whole state and reports the first problem |
| Database.Store.AdjustInventory | apps/api/src/modules/catalog/catalog.service.ts:514-524 | the vendor transaction, with its idempotency key and rollback |
| Database.Store.ExpireReservations | apps/worker/src/inventory/reservation-expiry.scheduler.ts:33-38 | the loop and the bulk update after it together expire each of the order's active rows once |
| Database.Store.ProcessWebhook | apps/api/src/modules/commerce/payment-webhook.service.ts:21-53 | the transaction step by step: the new state is that of the protocol, or the old state on any problem |
| Database.Store.ExpireWindow | apps/worker/src/inventory/reservation-expiry.scheduler.ts:28-46 | the expiry transaction, likewise |
| Database.Store.ReviewPayment | apps/api/src/modules/admin/admin.service.ts:421 | the review transaction, likewise |
| Database.MarksAreBulkUpdate | apps/worker/src/inventory/reservation-expiry.scheduler.ts:38 | expiring the listed rows one by one is the same as the bulk update of the order's active rows |
| OrderLifecycle.DerivedBy | packages/domain/src/orders/state-machines.ts:92-100 | the derived status as five questions about the packages still in the order |
| OrderLifecycle.VendorEdges | packages/domain/src/orders/state-machines.ts:35-45 | a package moves on one stage at a time, can be cancelled exactly until it is ready and rejected only when placed |
| OrderLifecycle.ParentEdges | packages/domain/src/orders/state-machines.ts:22-33 | an order moves on one stage at a time and can be cancelled exactly until it is ready to ship |
| OrderLifecycle.ForwardStep | packages/domain/src/orders/state-machines.ts:22-45 | a legal package step other than reject or cancel leaves the derived status or moves it along one table edge |
| OrderLifecycle.DropStep | packages/domain/src/orders/state-machines.ts:35-45 | exactly when a reject or cancel keeps to the table, and exactly when it moves the derived status back |
| OrderLifecycle.DropGoesBack | packages/domain/src/orders/state-machines.ts:92-100 | cancelling the only started of two packages takes the derived status from PROCESSING back to CONFIRMED, off the table |
| OrderLifecycle.DropSkipsEdges | packages/domain/src/orders/state-machines.ts:92-100 | cancelling the last package that has not left takes the derived status from PROCESSING straight to DELIVERED, off the table |
| OrderLifecycle.DerivedMoves | packages/domain/src/orders/state-machines.ts:35-100 | a legal package step leaves the derived status, moves it onward, cancels it from the first two stages, or takes it from PROCESSING back to CONFIRMED |
| OrderLifecycle.GatesOnlyAdvance | packages/domain/src/orders/state-machines.ts:92-100 | once READY_TO_SHIP or later is derived, no legal run moves it back or cancels it |
| OrderLifecycle.RunsAreShort | packages/domain/src/orders/state-machines.ts:35-45 | n packages take at most 6n steps |
| OrderLifecycle.SixStepsHappen | packages/domain/src/orders/state-machines.ts:35-45 | the bound is reached by one package |
| OrderLifecycle.SynchronizeParentOrderStatus | apps/api/src/modules/orders/parent-status.service.ts:9-26 | the recorded status changes are those of the walk, each one an edge of the transition table |
| OrderLifecycle.SynchronizedTable | apps/api/src/modules/orders/parent-status.service.ts:9-26 | where the synchronisation ends, for every stored status: forward to the derived status, never back, to CANCELLED only from the first two stages, and unmoved from a status outside the sequence |
| OrderLifecycle.ParentStaysInStep | apps/api/src/modules/orders/parent-status.service.ts:9-26 | over every run of legal package steps the stored status is the derived one, except that it stays PROCESSING when the derived one falls back to CONFIRMED |
| EditDistance.ComputeDistance | apps/api/src/modules/catalog/catalog-ranking.ts:9-29 | the one-row loop returns the recursive edit distance |
| EditDistance.NextRow | apps/api/src/modules/catalog/catalog-ranking.ts:14-26 | one pass of the inner loop overwrites the row of one prefix with that of the next, in place |
| EditDistance.DistanceIsShortest | apps/api/src/modules/catalog/catalog-ranking.ts:9-29 | some insert, delete and substitute script has that length and none is shorter |
| EditDistance.ZeroOnlyWhenEqual | apps/api/src/modules/catalog/catalog-ranking.ts:9-29 | the distance is zero exactly for equal strings |
| EditDistance.Symmetric | apps/api/src/modules/catalog/catalog-ranking.ts:9-29 | the distance is symmetric |
| EditDistance.Triangle | apps/api/src/modules/catalog/catalog-ranking.ts:9-29 | the triangle inequality |
| FuzzyScore.CloseScores | apps/api/src/modules/catalog/catalog-ranking.ts:31-41 | a candidate that does not contain the needle scores at least one, at most its whole-string distance, and exactly the least distance to it or one of its words |
| FuzzyScore.SubstringsFirst | apps/api/src/modules/catalog/catalog-ranking.ts:35-40 | every substring hit ranks strictly ahead of every other candidate |
| FuzzyScore.RanksByKind | apps/api/src/modules/catalog/catalog-ranking.ts:34-40 | a candidate that begins with the needle ranks strictly ahead of one that holds it further in, that ahead of one that does not hold it, that ahead of an empty one; hits of one kind tie; exactly empty candidates have no score |
| FuzzyScore.JoinSplit | apps/api/src/modules/catalog/catalog-ranking.ts:38 | the words contain no space and joined with spaces give the candidate back |
| ProductCsv.ParseCsvLoop | apps/api/src/modules/catalog/product-csv.ts:32 | the index loop with one character of lookahead computes the reader's result on every text |
| ProductCsvText.ParsesOrdinary | apps/api/src/modules/catalog/product-csv.ts:32 | fields without quotes, commas and line break characters, joined by commas, with rows ended by any mix of LF and CR LF, parse to their table |
| ProductCsvText.ParsesUnended | apps/api/src/modules/catalog/product-csv.ts:32 | the last line break may be missing, exactly unless the last row is a single empty field |
| ProductCsvText.ParsesDocument | apps/api/src/modules/catalog/product-csv.ts:32 | so does every document whose fields are bare or in quotes with inner quotes doubled; a CR right before a lone LF goes with the line break |
| ProductCsvText.ParsesUnendedDocument | apps/api/src/modules/catalog/product-csv.ts:32 | and every document without its last line break |
| ProductCsvText.PrintedBare | apps/api/src/modules/catalog/product-csv.ts:31 | the printer leaves a field as it is exactly when it holds no quote, comma or line break character |
| ProductCsvText.PrintedQuoted | apps/api/src/modules/catalog/product-csv.ts:31 | it prints any other field in quotes with the quotes in it doubled |
| ProductCsv.ParsePrinted | apps/api/src/modules/catalog/product-csv.ts:28-32 | what reading a printed table gives back, for every table |
| ProductCsv.RoundTrip | apps/api/src/modules/catalog/product-csv.ts:28-32 | parsing the printed form gives the table exactly when it is a non-empty table of non-empty rows, over arbitrary text (section 2 of RFC 4180) |
| ProductCsv.RejectsOddQuotes | apps/api/src/modules/catalog/product-csv.ts:32 | a text is rejected exactly when its number of double quotes is odd |
| CategoryTree.ExpandCategory | apps/api/src/modules/catalog/catalog.repository.ts:40-43 | the worklist ends on every parent graph, cyclic ones included, lists nothing twice, and contains exactly the categories that have the selected one as an ancestor or are it |
| CategoryTree.AncestorPath | apps/api/src/modules/catalog/catalog.service.ts:122-129 | the walk ends on every parent graph and returns the complete climb without repetition, nearest category last |
| CategoryTree.PassesAncestors | apps/api/src/modules/catalog/catalog.service.ts:126-129 | the walk passes exactly the ancestors |
| CategoryTree.ListedIffWalkPasses | apps/api/src/modules/catalog/catalog.repository.ts:42 | a category is listed under the selected one exactly when its own walk passes the selected one |
| CategoryTree.NearestDefinition | apps/api/src/modules/catalog/catalog.service.ts:130 | a key is defined exactly when some category on the walk defines it, and the nearest such category wins |
| CategoryTree.LastAttributeCounts | apps/api/src/modules/catalog/catalog.service.ts:130 | within one category the last attribute with a key counts |
| CatalogPaging.PageAt | apps/api/src/modules/catalog/catalog.repository.ts:57-63 | the page at each place of the list, its next-page flag and its cursor |
| CatalogPaging.PagesCoverList | apps/api/src/modules/catalog/catalog.repository.ts:57-63 | following the cursors shows every product once and in order, exactly when pages are not empty or the list is |
| TtlCache.CacheIsSafe | apps/api/src/infrastructure/cache/ttl-cache.ts:3-31 | in every interleaving of calls, completions, failures, final callbacks, deletes, extensions and ticks: an entry goes stale no earlier than it expires, has at most one refresh running, and the map never holds a rejected value |
| TtlCache.RunKeepsInv | apps/api/src/infrastructure/cache/ttl-cache.ts:3-31 | the invariant behind it is kept by every run |
| TtlCache.ServesUntilStale | apps/api/src/infrastructure/cache/ttl-cache.ts:6-21 | a call is answered from the map exactly before the entry's `staleAt`; otherwise it starts one first load and installs its promise |
| TtlCacheTimes.FreshCallRests | apps/api/src/infrastructure/cache/ttl-cache.ts:8 | a call of a key whose entry has not expired starts nothing |
| TtlCacheTimes.StaleCallRefreshes | apps/api/src/infrastructure/cache/ttl-cache.ts:9-14 | a call of an expired entry that is not stale hands out the old value and leaves a refresh on it: the running one with nothing changed, or exactly one new load for this entry |
| TtlCacheTimes.MissLoads | apps/api/src/infrastructure/cache/ttl-cache.ts:15-20 | any other call starts one first load and installs an entry with its promise and with times counted from the call |
| TtlCacheTimes.FirstLoadDelivers | apps/api/src/infrastructure/cache/ttl-cache.ts:15 | a first load that delivers resolves its callers' promise and touches nothing else |
| TtlCacheTimes.FirstLoadFails | apps/api/src/infrastructure/cache/ttl-cache.ts:15-18 | one that fails rejects it and frees its key |
| TtlCacheTimes.RefreshDelivers | apps/api/src/infrastructure/cache/ttl-cache.ts:10-12 | a refresh that delivers puts its data under its key, with times counted from the delivery |
| TtlCacheTimes.FailedRefreshIsRetried | apps/api/src/infrastructure/cache/ttl-cache.ts:10-12 | a refresh that fails changes no entry, and after its final callback the next stale call begins a new one |
| TtlCacheTimes.ExtendedUntil | apps/api/src/infrastructure/cache/ttl-cache.ts:27-30 | an extended entry is served exactly until the later of its old time and the new one |
| TtlCacheTimes.OldValuesAreGone | apps/api/src/infrastructure/cache/ttl-cache.ts:3-31 | over any run in which nobody asks for more than a window: once the window has passed without an extension, no call hands out a promise that existed before |
| TtlCache.CallsCoalesce | apps/api/src/infrastructure/cache/ttl-cache.ts:6-21 | after a call, until its entry expires or its key is deleted, evicted or replaced, and whatever else happens meanwhile, every call of the key gets the same promise and changes nothing |
| TtlCache.OldFailureKeepsNewer | apps/api/src/infrastructure/cache/ttl-cache.ts:15-18 | a failing load evicts its key exactly when the map still holds that load's promise, and touches nothing else |
| TtlCache.StaysAbsent | apps/api/src/infrastructure/cache/ttl-cache.ts:23-25 | a key that is absent and not being refreshed stays absent until it is asked for |
| TtlCache.DeletedKeyReturns | apps/api/src/infrastructure/cache/ttl-cache.ts:10-12 | after a prefix delete a key can return without a call exactly when a refresh of it was running |
| TtlCache.ReplacedExactly | apps/api/src/infrastructure/cache/ttl-cache.ts:10-12 | an entry can be replaced without a call exactly when a refresh of its key is running, whichever entry the refresh was begun for |
| TtlCacheRaces.RefreshingHappens | apps/api/src/infrastructure/cache/ttl-cache.ts:9-12 | a reachable state in which a refresh is running |
| TtlCacheRaces.OlderRefreshOverwrites | apps/api/src/infrastructure/cache/ttl-cache.ts:10-12 | a reachable state in which the completion of a refresh begun before a delete overwrites the newer, fresh entry |
| TtlCacheStore.TtlCache.GetOrCreate | apps/api/src/infrastructure/cache/ttl-cache.ts:6-21 | the method's new state and answer are those of the call step |
| TtlCacheStore.TtlCache.OnResolved | apps/api/src/infrastructure/cache/ttl-cache.ts:10-12 | the callback of a delivering load performs its step |
| TtlCacheStore.TtlCache.OnRejected | apps/api/src/infrastructure/cache/ttl-cache.ts:12-18 | the callback of a failing load performs its step |
| TtlCacheStore.TtlCache.DeletePrefix | apps/api/src/infrastructure/cache/ttl-cache.ts:23-25 | the loop removes exactly the keys with the prefix |
| TtlCacheStore.TtlCache.ExtendStale | apps/api/src/infrastructure/cache/ttl-cache.ts:27-30 | the entry's `staleAt` becomes the later of the two, nothing else changes |
| DeliveryOutbox.ProcessedOnlyAfterJob | apps/worker/src/outbox/delivery-outbox.relay.ts:19-38 | with any number of relays, crashes and failures, an event is processed only after its job has been put into the queue |
| DeliveryTimes.OnlyAskedJobs | apps/worker/src/outbox/delivery-outbox.relay.ts:21-33 | over every run the queue only gets jobs that some claimed event asks for, each under the name of that event's dispatch |
| DeliveryTimes.JobNamesDiffer | apps/worker/src/outbox/delivery-outbox.relay.ts:26 | different dispatches have different jobs, so the job of a processed event is its own |
| DeliveryTimes.ClaimTakesLease | apps/worker/src/outbox/delivery-outbox.relay.ts:21-22 | a claim takes a pending event for exactly five minutes and counts one attempt, and passes any other event over |
| DeliveryTimes.AskingDecides | apps/worker/src/outbox/delivery-outbox.relay.ts:25-33 | what a relay makes of the job record: a missing one is added, a failed one retried, a completed one fails the handling, a live or vanished one is taken as good |
| DeliveryTimes.BatchesOf25 | apps/worker/src/outbox/delivery-outbox.relay.ts:20 | a batch has at most 25 due events, oldest first, and leaves a due event out only if it is full of older ones |
| DeliveryTimes.AttemptsCountClaims | apps/worker/src/outbox/delivery-outbox.relay.ts:21 | over every run the attempts of an event count its claims and its payload stays |
| DeliveryTimes.RetriedAfterWait | apps/worker/src/outbox/delivery-outbox.relay.ts:36 | a failed event is due again exactly when five seconds have passed, over any run in which it is left alone and not processed by another holder |
| DeliveryOutbox.ClaimableWithinLease | apps/worker/src/outbox/delivery-outbox.relay.ts:19-22 | in every reachable state, over any further run of at least one lease in which an unprocessed event is neither claimed nor put back, it is processed or the next sweep makes it due |
| DeliveryOutbox.RunSafe | apps/worker/src/outbox/delivery-outbox.relay.ts:15-43 | the invariant behind both is kept by every run |
| DeliveryOutbox.OneHolder | apps/worker/src/outbox/delivery-outbox.relay.ts:21-38 | if every handling ends within its lease, no two relays ever hold one event |
| DeliveryOutbox.ProcessedIsFinal | apps/worker/src/outbox/delivery-outbox.relay.ts:34-36 | if every handling ends within its lease, a processed event never changes again |
| DeliveryOutbox.SweepTakesHeld | apps/worker/src/outbox/delivery-outbox.relay.ts:19 | a sweep takes a held event from its holder exactly when the lease has run out |
| DeliveryProgress.SharedExactlyWhenOverdue | apps/worker/src/outbox/delivery-outbox.relay.ts:19-22 | from any state with leases and no sharing and at least two relays: without time passing, a held event can come to be held twice exactly when its lease is over |
| DeliveryProgress.OldestExists | apps/worker/src/outbox/delivery-outbox.relay.ts:20 | in every state the query has an answer: the 25 oldest due events |
| DeliveryProgress.ComesToHold | apps/worker/src/outbox/delivery-outbox.relay.ts:19-22 | however many older events are ahead of it, an available event can come to be held by any idle relay, by that relay's steps alone |
| DeliveryOutbox.ReopenedExactlyWhenHeld | apps/worker/src/outbox/delivery-outbox.relay.ts:34-36 | in every state, some run makes a processed event unprocessed exactly when some relay still holds it |
| DeliveryOutbox.LateHolderUndoes | apps/worker/src/outbox/delivery-outbox.relay.ts:34-36 | a reachable state in which two relays hold one event, and one in which a processed event becomes pending in the next step |
| DeliveryProgress.ProcessableExactly | apps/worker/src/outbox/delivery-outbox.relay.ts:15-43 | in every state, an unprocessed event can become processed by a run that keeps its job record exactly when there is a relay, its payload can be parsed, and its job is not completed or some relay is past asking |
| DeliveryProgress.ReadableIsProcessable | apps/worker/src/outbox/delivery-outbox.relay.ts:15-43 | over all runs, exactly when there is a relay and its payload can be parsed |
| DeliveryProgress.CompletedJobBlocks | apps/worker/src/outbox/delivery-outbox.relay.ts:27-31 | with the job completed and no relay past asking, no run that keeps the job record makes the event processed, a relay told to retry included |
| DeliveryProgress.BlockedHappens | apps/worker/src/outbox/delivery-outbox.relay.ts:27-36 | such a state is reachable: the job completes after the acknowledgement has failed |
| DeliveryProgress.RetryingIsStuck | apps/worker/src/outbox/delivery-outbox.relay.ts:29-30 | a relay about to retry a job that has completed leaves its event stuck |
| DeliveryRelay.DeliveryOutboxRelay.Poll | apps/worker/src/outbox/delivery-outbox.relay.ts:15-43 | an undisturbed poll hands over or puts back each event of its batch, changes no other row but expired leases, and is a run of the protocol |
| DeliveryRelay.DeliveryOutboxRelay.HandOver | apps/worker/src/outbox/delivery-outbox.relay.ts:25-33 | succeeds exactly for a readable payload whose job is not completed, and then the job is live |
| DeliveryRelay.HandlingIsRun | apps/worker/src/outbox/delivery-outbox.relay.ts:21-37 | the result of handling one event is reached by steps of the protocol |
| Migration.EachLineLandsOnce | packages/migration/src/mappers.ts:22 | the item rows of an accepted order are exactly its product lines, each once, under the vendor order of its vendor |
| Migration.AcceptedExactly | packages/migration/src/mappers.ts:22 | an order is accepted exactly when its own fields are sound and every one of its lines is |
| MigrationContents.AcceptedWhenReadable | packages/migration/src/mappers.ts:22 | that is: exactly when ids, number, date and amounts can be read, there are lines, and every line has readable vendor and product ids, a positive whole quantity, a readable price, a title and a sku |
| MigrationContents.ReasonIsTrue | packages/migration/src/mappers.ts:22 | the reason given for a rejected order is a problem that the order or one of its lines has |
| MigrationContents.OrderRowAmounts | packages/migration/src/mappers.ts:22 | the order row carries the document's total, subtotal (or the total), discount, delivery and tax, each in its own field |
| MigrationContents.OrderRowIdentity | packages/migration/src/mappers.ts:22 | the first row has the order's ids, number and user |
| MigrationContents.OneOrderRow | packages/migration/src/mappers.ts:22 | and no other row is in its table |
| MigrationContents.StatusBecomes | packages/migration/src/mappers.ts:10 | what each legacy status becomes |
| MigrationContents.DeliveredTogether | packages/migration/src/mappers.ts:22 | the order row and each of its vendor orders are DELIVERED exactly for a legacy order that was delivered |
| MigrationContents.VendorRowNames | packages/migration/src/mappers.ts:22 | a vendor order names its order and the vendor and shop of one of the lines |
| MigrationContents.ItemsTellLines | packages/migration/src/mappers.ts:22 | every item row carries ids, title, sku, quantity, price and their product of one of the lines, under a vendor order among the rows: that of the line's vendor |
| Migration.GatheredPermutes | packages/migration/src/mappers.ts:22 | grouping the lines by distinct vendor neither loses nor repeats a line |
| Migration.SubtotalsMatchLines | packages/migration/src/mappers.ts:22 | the subtotal of every vendor order is the sum of its items' line totals |
| Migration.SubtotalsSumToLines | packages/migration/src/mappers.ts:22 | over an accepted order the vendor subtotals sum to the line totals |
| Migration.RowKeysDiffer | packages/migration/src/mappers.ts:5-7 | no two rows of an accepted order share table and id, even when vendor ids contain colons |
| MigrationIds.OrdersCollideExactly | packages/migration/src/normalization.ts:4 | for all legacy ids: some accepted orders with them have rows of the same table and id exactly when the ids are equal or one continues the other with ":vendor" or ":item" |
| MigrationIds.VendorOrderIdsCollide | packages/migration/src/mappers.ts:22 | for different legacy ids, some vendors give one hashed vendor-order text exactly when one id continues the other with ":vendor" |
| MigrationIds.ItemIdsCollide | packages/migration/src/mappers.ts:22 | the same for item texts and ":item" |
| MigrationIds.AcceptedOrdersCollide | packages/migration/src/mappers.ts:22 | two accepted orders whose vendor orders have one id |
| MigrationIds.ColonlessApart | packages/migration/src/normalization.ts:4 | different legacy ids without colons never collide |
| MigrationRunner.MapOrderDocument | packages/migration/src/mappers.ts:22 | the nested loops give the order's rows, or the first problem and no rows |
| MigrationRunner.RunMigration | packages/migration/src/runner.ts:7-15 | the report has the sorted rows of the accepted documents and their id map, the rejections in order, and counts and totals that equal the counts and sums over the rows, with a key exactly where something was counted |
| MigrationRunner.SumAmounts | packages/migration/src/runner.ts:12 | the accumulated totals are the sums over the rows, per table and money field |
| MigrationRunner.RejectedContributeNothing | packages/migration/src/runner.ts:9 | a rejected document contributes no row and one rejection, an accepted one no rejection |
| MigrationRunner.OrderIndependent | packages/migration/src/runner.ts:9-12 | with distinct target ids the rows, counts and totals do not depend on document order, and rejections only in their order |
| MigrationRunner.LegacyIdsGiveDistinctKeys | packages/migration/src/runner.ts:9-10 | orders whose legacy ids do not run into each other give distinct target ids, whatever their vendor ids are, if the other collections' ids are distinct |
| MigrationRunner.NothingRejectedSameReport | packages/migration/src/runner.ts:9-14 | with no rejections the whole report is the same for every document order |
| MigrationRunner.ReportBalances | packages/migration/src/runner.ts:12 | in every report the total of vendor-order subtotals equals the total of line totals, whatever was rejected |
| MigrationContents.OrdersReported | packages/migration/src/runner.ts:12 | the reported order totals and subtotals are the sums of what the accepted order documents state |
| MigrationContents.PaymentShares | packages/migration/src/runner.ts:12 | a payment's amount and refunded amount are each totalled under their own name |
| MigrationContents.ReportLists | packages/migration/src/runner.ts:9-13 | the report lists the accepted documents' rows once each, by table and then id, with the id map row for row, and counts the rows of each table and the rejections of each collection |
| Sequences.SortIgnoresOrder | packages/migration/src/runner.ts:10 | sorting forgets the input order when the comparison separates the elements |
| Loyalty.LargestRedemption | packages/domain/src/growth/loyalty.ts:28-37 | an eligible request redeems the largest number of points within request, balance and percentage, rounding twice notwithstanding; any other redeems none |
| Loyalty.RedemptionNotNegative | packages/domain/src/growth/loyalty.ts:28-37 | for a non-negative payable amount and percentage, which is what checkout passes, neither points nor amount is negative |
| Loyalty.NegativeRedemption | packages/domain/src/growth/loyalty.ts:33-35 | for arbitrary arguments, exactly when the redeemed points come out negative |
| Loyalty.RefundsStayWithinCaptured | packages/domain/src/finance/finance.ts:16-18 | over any run of requests the accepted refunds stay within the captured amount |
| Loyalty.AcceptedWhenFits | packages/domain/src/finance/finance.ts:16-18 | after any run a request is accepted exactly when it is positive and fits what is left |
| Loyalty.RestCanBeRefunded | packages/domain/src/finance/finance.ts:16-18 | what is left can always be refunded at once, and nothing after it |
| Loyalty.ReversalRoundsUp | packages/domain/src/growth/loyalty.ts:39-43 | a reversal is the least whole number of points that reaches the refunded share |
| Loyalty.NothingToReverse | packages/domain/src/growth/loyalty.ts:39-43 | nothing is reversed exactly when there are no points, nothing is refunded or nothing was paid |
| Loyalty.FullRefundReversesAll | packages/domain/src/growth/loyalty.ts:39-43 | a full refund reverses exactly all points |
| Loyalty.SeparateReversalsBounds | packages/domain/src/growth/loyalty.ts:39-43 | n separate reversals sum to at least the one-shot reversal and at most n-1 points more |
| Loyalty.SeparateReversalsExact | packages/domain/src/growth/loyalty.ts:39-43 | separate reversals of the full amount sum to all points exactly when each share is whole |
| Loyalty.SeparateReversalsOvershoot | packages/domain/src/growth/loyalty.ts:39-43 | one point over two equal refunds is reversed twice |
| Loyalty.LedgerReversesOnce | apps/api/src/modules/engagement/loyalty-ledger.ts:4-51 | over any run of refunds the ledger reverses exactly the one-shot reversal of their sum, and all points once everything is refunded |
| Loyalty.RemainingIsLargest | apps/api/src/modules/engagement/loyalty-ledger.ts:4-10 | one refund reverses the largest number of points that takes the ledger neither past its target nor past all points |
| Loyalty.AcceptedRefundsReverse | apps/api/src/modules/engagement/loyalty-ledger.ts:33-51 | for the refunds the limit check accepts: never more than all points, all of them on a full refund, and at most n-1 below separate reversals |
| Promotions.BestIsSelected | packages/domain/src/growth/promotion.ts:15-17 | the selected promotion has a positive discount, the highest priority, and the first id among those; there is none only if no discount is positive |
| Promotions.DiscountIsLargest | packages/domain/src/growth/promotion.ts:8-13 | from the minimum subtotal on the discount is the largest whole amount within the terms, the maximum and the subtotal; below it there is none |
| Promotions.OrderOfCandidatesIrrelevant | packages/domain/src/growth/promotion.ts:15-17 | with distinct ids selection and discount plan do not depend on candidate order |
| Promotions.CapFits | packages/domain/src/finance/business-rules.ts:28-29 | the cap is the largest amount within the clamped percentage and at most the subtotal |
| Promotions.StackedShares | packages/domain/src/finance/business-rules.ts:25-39 | the shares are non-negative and sum to the total, which is the offer cut at the cap; the coupon goes first; a promotion is reported exactly when its share is positive |
| Promotions.DefaultMaximum | packages/domain/src/finance/business-rules.ts:11-29 | at the default maximum no plan discounts more than 35 percent, and a plan that is cut reaches it to the last unit |
| Money.GroupedInteger | apps/mobile/src/ui/money.ts:1-12 | the cursor loop produces the grouped form |
| Money.GroupedContent | apps/mobile/src/ui/money.ts:1-12 | the grouped form without its commas is the number |
| Money.GroupedCommas | apps/mobile/src/ui/money.ts:1-12 | commas stand exactly after the last three digits and every two before, and never first |
| Money.EditableRoundTrip | apps/mobile/src/ui/money.ts:26-41 | the editable form of an amount parses back exactly when it is not negative |
| Money.DisplayRoundTrip | apps/mobile/src/ui/money.ts:14-41 | the display form without symbol and commas parses back, with or without the fraction |
| Money.AmountRoundTrips | apps/mobile/src/ui/money.ts:14-41 | both forms of every non-negative integer lead back to it |
| MoneyForms.FormsOfValue | apps/mobile/src/ui/money.ts:14-32 | the display form is the symbol, the grouped units and, exactly where asked for or not zero, both digits of the cents; the editable form is the units and always both digits |
| MoneyForms.NegativeForms | apps/mobile/src/ui/money.ts:14-32 | a negative amount has the form of the positive one behind the symbol and a minus sign |
| MoneyForms.OnlyAmountsAreShown | apps/mobile/src/ui/money.ts:14-32 | exactly the texts that are not digits behind an optional minus sign are shown as a dash and edited as nothing |
| MoneyForms.FormAccepts | apps/mobile/src/ui/money.ts:34-41 | the form's parser gives a value exactly for whole units with an optional dot and at most two digits, spaces aside, and that value is units times a hundred plus the cents |
| MoneyForms.MigrationAccepts | packages/migration/src/normalization.ts:7 | the migration's parser, likewise, with at least one digit after a dot |
| MoneyForms.GatewayAccepts | apps/api/src/modules/commerce/sslcommerz-payment.service.ts:10-14 | the gateway's parser, likewise, without spaces |
| MoneyForms.TrimTakesSpace | apps/mobile/src/ui/money.ts:35 | trimming takes all white space from both ends and nothing else |
| Money.ParsersAgree | packages/migration/src/normalization.ts:7 | on digits with an optional fraction of one or two digits the three amount parsers agree |
| Money.ParsersDiffer | apps/mobile/src/ui/money.ts:34-41 | on any text: the form's parser differs from the migration's exactly on a trailing dot, and the gateway's from the migration's exactly on an amount with surrounding space |

## Left out

- HTTP routes, contracts, environment, logging, rate limits, screens, signatures and hashing: plumbing, or taken as given.
- `overrideOrderStatus` and refunds after capture: they bypass or extend the payment protocol.
- Cancellation by a customer or an administrator (operations.service.ts:103-129), of a confirmed order and also of one that
  still waits for its payment, where it races with the modelled steps; it releases the reservations as a failure does.
- Cash-on-delivery checkout (commerce.service.ts:305-306), which writes reservations as consumed at once and logs the sale
  under the order's key, without a consume movement; the per-reservation laws are about online orders.
- `replaceVariants`: it writes stock from a snapshot without a version check, which the ledger law does not cover.
- Carts: a reservation always belongs to an order; checkout is an environment step that reserves all lines or none.
- Outbox rows, audit rows and status events of the payment transactions: appended, never read by them.
- The gateway's risk hold, which upserts a verification record before review.
- The 32-bit width of stock columns: quantities and versions are unbounded.
- Poll's candidate query and its batch of one hundred: the window may close at any time, one order after another.
- TtlCacheStore.TtlCache.GetOrCreate: a loader that throws synchronously is not modelled, because the source's loaders are asynchronous.
- DeliveryRelay.DeliveryOutboxRelay.Poll: one clock reading, no failures and no other relay during the poll; those are covered by the steps of DeliveryOutbox.
- DeliveryProgress.ProcessableExactly: some run processes the event; that a relay does so in every run would need fairness of
  the scheduler and an end to older events, which the source does not promise.
- The operator's retry of a dispatch, which resets an outbox event by hand; and the other outbox relays, which have the same shape.
- Migration.EachLineLandsOnce: text fields and dates are given as already read, and the branches for other collections as their results.
- MigrationRunner.RunMigration: the digest is not part of the report, being a hash of the rows and rejections.
- The product fields of the CSV import after parsing, `fuzzySearchThreshold` (floating point), Unicode normalization and locale comparison.
- Loyalty.LedgerReversesOnce: the refunds of an order complete one after another, under the account lock; expiry of points is not modelled.
- `calculateCommission`, `calculateLedgerBalance`, `assertAvailableBalance`, earning and release dates: one-line arithmetic without a law of their own.
- Return and payment transition tables: the payment webhook writes statuses directly and does not follow the table.
