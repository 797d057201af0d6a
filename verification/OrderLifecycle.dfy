/**
 Vendor-order and parent-order lifecycles: the transition tables, the parent status derived from the packages, and
 the synchronisation that walks the stored parent status towards it.
 */
module OrderLifecycle {

  datatype ParentOrderStatus =
    | PendingPayment | Confirmed | Processing | ReadyToShip | Shipped | Delivered
    | Cancelled | ReturnRequested | Returned | Refunded

  datatype VendorOrderStatus =
    | PackagePlaced | PackageAccepted | PackageRejected | PackageProcessing | PackageReady
    | PackagePickedUp | PackageInTransit | PackageDelivered | PackageCancelled

  function ParentTransitions(from: ParentOrderStatus): set<ParentOrderStatus> {
    match from
    case PendingPayment => {Confirmed, Cancelled}
    case Confirmed => {Processing, Cancelled}
    case Processing => {ReadyToShip, Cancelled}
    case ReadyToShip => {Shipped}
    case Shipped => {Delivered}
    case Delivered => {ReturnRequested}
    case ReturnRequested => {Returned}
    case Returned => {Refunded}
    case Refunded => {}
    case Cancelled => {}
  }

  function VendorTransitions(from: VendorOrderStatus): set<VendorOrderStatus> {
    match from
    case PackagePlaced => {PackageAccepted, PackageRejected, PackageCancelled}
    case PackageAccepted => {PackageProcessing, PackageCancelled}
    case PackageRejected => {}
    case PackageProcessing => {PackageReady, PackageCancelled}
    case PackageReady => {PackagePickedUp}
    case PackagePickedUp => {PackageInTransit}
    case PackageInTransit => {PackageDelivered}
    case PackageDelivered => {}
    case PackageCancelled => {}
  }

  /** The stage of a package on its way to delivery; none once it has left that way. */
  function Stage(s: VendorOrderStatus): int {
    match s
    case PackagePlaced => 0
    case PackageAccepted => 1
    case PackageProcessing => 2
    case PackageReady => 3
    case PackagePickedUp => 4
    case PackageInTransit => 5
    case PackageDelivered => 6
    case PackageRejected => -1
    case PackageCancelled => -1
  }

  /**
   A package moves on one stage at a time; it can be cancelled until it is ready, and rejected only before it is
   accepted.
   */
  lemma VendorEdges(from: VendorOrderStatus, to: VendorOrderStatus)
    ensures to in VendorTransitions(from) <==>
            || (Stage(from) >= 0 && Stage(to) == Stage(from) + 1)
            || (to == PackageCancelled && 0 <= Stage(from) < Stage(PackageReady))
            || (to == PackageRejected && from == PackagePlaced)
  {
  }

  /** The stage of an order on its way to a refund. */
  function ParentStage(p: ParentOrderStatus): int {
    match p
    case PendingPayment => 0
    case Confirmed => 1
    case Processing => 2
    case ReadyToShip => 3
    case Shipped => 4
    case Delivered => 5
    case ReturnRequested => 6
    case Returned => 7
    case Refunded => 8
    case Cancelled => -1
  }

  /** An order moves on one stage at a time, and can be cancelled until it is ready to ship. */
  lemma ParentEdges(from: ParentOrderStatus, to: ParentOrderStatus)
    ensures to in ParentTransitions(from) <==>
            || (ParentStage(from) >= 0 && ParentStage(to) == ParentStage(from) + 1)
            || (to == Cancelled && 0 <= ParentStage(from) < ParentStage(ReadyToShip))
  {
  }

  predicate Dropped(s: VendorOrderStatus) {
    s == PackageRejected || s == PackageCancelled
  }

  function ActiveOnly(statuses: seq<VendorOrderStatus>): seq<VendorOrderStatus> {
    if statuses == [] then []
    else (if Dropped(statuses[0]) then [] else [statuses[0]]) + ActiveOnly(statuses[1..])
  }

  const ON_THE_WAY := {PackagePickedUp, PackageInTransit, PackageDelivered}
  const READY := ON_THE_WAY + {PackageReady}
  const STARTED := READY + {PackageAccepted, PackageProcessing}

  predicate Every(active: seq<VendorOrderStatus>, allowed: set<VendorOrderStatus>) {
    forall s :: s in active ==> s in allowed
  }

  predicate Some(active: seq<VendorOrderStatus>, allowed: set<VendorOrderStatus>) {
    exists s :: s in active && s in allowed
  }

  function DeriveParentOrderStatus(statuses: seq<VendorOrderStatus>): ParentOrderStatus {
    var active := ActiveOnly(statuses);
    if |active| == 0 then Cancelled
    else if Every(active, {PackageDelivered}) then Delivered
    else if Every(active, ON_THE_WAY) then Shipped
    else if Every(active, READY) then ReadyToShip
    else if Some(active, STARTED) then Processing
    else Confirmed
  }

  // ----- the derived status without the filter -----

  lemma {:induction false} ActiveMembers(statuses: seq<VendorOrderStatus>)
    ensures forall s :: s in ActiveOnly(statuses) <==> s in statuses && !Dropped(s)
  {
    if statuses != [] { ActiveMembers(statuses[1..]); }
  }

  /** Some package is still in the order and lies outside the given statuses. */
  ghost predicate Lags(statuses: seq<VendorOrderStatus>, allowed: set<VendorOrderStatus>) {
    exists i :: 0 <= i < |statuses| && !Dropped(statuses[i]) && statuses[i] !in allowed
  }

  /** The derived status as five yes-or-no questions about the packages still in the order. */
  lemma DerivedBy(statuses: seq<VendorOrderStatus>)
    ensures DeriveParentOrderStatus(statuses) ==
            if !Lags(statuses, {}) then Cancelled
            else if !Lags(statuses, {PackageDelivered}) then Delivered
            else if !Lags(statuses, ON_THE_WAY) then Shipped
            else if !Lags(statuses, READY) then ReadyToShip
            else if Lags(statuses, {PackagePlaced}) then Processing
            else Confirmed
  {
    var active := ActiveOnly(statuses);
    ActiveMembers(statuses);
    assert |active| > 0 ==> active[0] in active;
    EveryMeansNoLag(statuses, {});
    EveryMeansNoLag(statuses, {PackageDelivered});
    EveryMeansNoLag(statuses, ON_THE_WAY);
    EveryMeansNoLag(statuses, READY);
    StartedMeansLag(statuses);
  }

  lemma EveryMeansNoLag(statuses: seq<VendorOrderStatus>, allowed: set<VendorOrderStatus>)
    ensures Every(ActiveOnly(statuses), allowed) <==> !Lags(statuses, allowed)
  {
    ActiveMembers(statuses);
    if !Every(ActiveOnly(statuses), allowed) {
      var s :| s in ActiveOnly(statuses) && s !in allowed;
      var i :| 0 <= i < |statuses| && statuses[i] == s;
    }
  }

  lemma StartedMeansLag(statuses: seq<VendorOrderStatus>)
    ensures Some(ActiveOnly(statuses), STARTED) <==> Lags(statuses, {PackagePlaced})
  {
    ActiveMembers(statuses);
    forall s: VendorOrderStatus ensures s in STARTED <==> !Dropped(s) && s != PackagePlaced {}
    EveryMeansNoLag(statuses, {PackagePlaced});
    assert Some(ActiveOnly(statuses), STARTED) <==> !Every(ActiveOnly(statuses), {PackagePlaced});
  }

  // ----- legal vendor-order steps -----

  datatype Move = Move(index: nat, to: VendorOrderStatus)

  predicate Legal(statuses: seq<VendorOrderStatus>, m: Move) {
    m.index < |statuses| && m.to in VendorTransitions(statuses[m.index])
  }

  function After(statuses: seq<VendorOrderStatus>, m: Move): seq<VendorOrderStatus>
    requires Legal(statuses, m)
  {
    statuses[m.index := m.to]
  }

  /** The packages other than k that are still in the order and lie outside the given statuses. */
  ghost predicate OthersLag(statuses: seq<VendorOrderStatus>, k: nat, allowed: set<VendorOrderStatus>) {
    exists i :: 0 <= i < |statuses| && i != k && !Dropped(statuses[i]) && statuses[i] !in allowed
  }

  predicate Outside(s: VendorOrderStatus, allowed: set<VendorOrderStatus>) {
    !Dropped(s) && s !in allowed
  }

  lemma LagsSplit(statuses: seq<VendorOrderStatus>, m: Move, allowed: set<VendorOrderStatus>)
    requires Legal(statuses, m)
    ensures Lags(statuses, allowed) <==> Outside(statuses[m.index], allowed) || OthersLag(statuses, m.index, allowed)
    ensures Lags(After(statuses, m), allowed) <==> Outside(m.to, allowed) || OthersLag(statuses, m.index, allowed)
  {
    var next := After(statuses, m);
    if i :| 0 <= i < |next| && !Dropped(next[i]) && next[i] !in allowed {
      assert i != m.index ==> statuses[i] == next[i];
    }
    if i :| 0 <= i < |statuses| && i != m.index && !Dropped(statuses[i]) && statuses[i] !in allowed {
      assert next[i] == statuses[i];
    }
    if Outside(m.to, allowed) { assert next[m.index] == m.to; }
  }

  /** The derived status from the answers for one package and for all the others. */
  function Grade(s: VendorOrderStatus, any: bool, undelivered: bool, waiting: bool, unready: bool,
                 started: bool): ParentOrderStatus {
    if !(any || Outside(s, {})) then Cancelled
    else if !(undelivered || Outside(s, {PackageDelivered})) then Delivered
    else if !(waiting || Outside(s, ON_THE_WAY)) then Shipped
    else if !(unready || Outside(s, READY)) then ReadyToShip
    else if started || Outside(s, {PackagePlaced}) then Processing
    else Confirmed
  }

  /** A step changes one package's answers; the others' answers stay, and they are nested in each other. */
  lemma StepGrades(statuses: seq<VendorOrderStatus>, m: Move)
    returns (any: bool, undelivered: bool, waiting: bool, unready: bool, started: bool)
    requires Legal(statuses, m)
    ensures DeriveParentOrderStatus(statuses) == Grade(statuses[m.index], any, undelivered, waiting, unready, started)
    ensures DeriveParentOrderStatus(After(statuses, m)) == Grade(m.to, any, undelivered, waiting, unready, started)
    ensures (unready ==> waiting) && (waiting ==> undelivered) && (undelivered ==> any) && (started ==> any)
    ensures any && !started ==> unready
    ensures any && !unready ==> started
    ensures any == OthersLag(statuses, m.index, {}) && started == OthersLag(statuses, m.index, {PackagePlaced})
    ensures waiting == OthersLag(statuses, m.index, ON_THE_WAY)
  {
    DerivedBy(statuses);
    DerivedBy(After(statuses, m));
    LagsSplit(statuses, m, {});
    LagsSplit(statuses, m, {PackageDelivered});
    LagsSplit(statuses, m, ON_THE_WAY);
    LagsSplit(statuses, m, READY);
    LagsSplit(statuses, m, {PackagePlaced});
    any := OthersLag(statuses, m.index, {});
    undelivered := OthersLag(statuses, m.index, {PackageDelivered});
    waiting := OthersLag(statuses, m.index, ON_THE_WAY);
    unready := OthersLag(statuses, m.index, READY);
    started := OthersLag(statuses, m.index, {PackagePlaced});
  }

  /** A package that moves forward leaves the derived status where it is or moves it along one edge. */
  lemma ForwardStep(statuses: seq<VendorOrderStatus>, m: Move)
    requires Legal(statuses, m) && !Dropped(m.to)
    ensures var d, d1 := DeriveParentOrderStatus(statuses), DeriveParentOrderStatus(After(statuses, m));
            d1 == d || d1 in ParentTransitions(d)
  {
    var any, undelivered, waiting, unready, started := StepGrades(statuses, m);
  }

  /**
   A package that is rejected or cancelled can take the derived status off the table: back to CONFIRMED when only
   unstarted packages remain, or over several gates when all that remain are already on the way.
   */
  lemma DropStep(statuses: seq<VendorOrderStatus>, m: Move)
    requires Legal(statuses, m) && Dropped(m.to)
    ensures var d, d1 := DeriveParentOrderStatus(statuses), DeriveParentOrderStatus(After(statuses, m));
            && d in {Confirmed, Processing} && d1 in {Confirmed, Processing, ReadyToShip, Shipped, Delivered, Cancelled}
            && (d1 == d || d1 in ParentTransitions(d)
                <==> d == Confirmed
                     || !OthersLag(statuses, m.index, {})
                     || (OthersLag(statuses, m.index, {PackagePlaced}) && OthersLag(statuses, m.index, ON_THE_WAY)))
            && (d == Processing && d1 == Confirmed
                <==> statuses[m.index] != PackagePlaced
                     && OthersLag(statuses, m.index, {}) && !OthersLag(statuses, m.index, {PackagePlaced}))
  {
    var any, undelivered, waiting, unready, started := StepGrades(statuses, m);
  }

  /** Cancelling the only started package moves the derived status back. */
  lemma DropGoesBack()
    ensures var statuses, cancel := [PackageAccepted, PackagePlaced], Move(0, PackageCancelled);
            && Legal(statuses, cancel)
            && DeriveParentOrderStatus(statuses) == Processing
            && DeriveParentOrderStatus(After(statuses, cancel)) == Confirmed
            && Confirmed !in ParentTransitions(Processing)
  {
    DerivedPair(PackageAccepted, PackagePlaced);
    DerivedPair(PackageCancelled, PackagePlaced);
    assert [PackageAccepted, PackagePlaced][0 := PackageCancelled] == [PackageCancelled, PackagePlaced];
  }

  /** Cancelling the last package that has not left skips edges. */
  lemma DropSkipsEdges()
    ensures var statuses, cancel := [PackageProcessing, PackageDelivered], Move(0, PackageCancelled);
            && Legal(statuses, cancel)
            && DeriveParentOrderStatus(statuses) == Processing
            && DeriveParentOrderStatus(After(statuses, cancel)) == Delivered
            && Delivered !in ParentTransitions(Processing)
  {
    DerivedPair(PackageProcessing, PackageDelivered);
    DerivedPair(PackageCancelled, PackageDelivered);
    assert [PackageProcessing, PackageDelivered][0 := PackageCancelled] == [PackageCancelled, PackageDelivered];
  }

  /** The derived status of two packages. */
  lemma DerivedPair(a: VendorOrderStatus, b: VendorOrderStatus)
    ensures DeriveParentOrderStatus([a, b])
         == Grade(a, Outside(b, {}), Outside(b, {PackageDelivered}), Outside(b, ON_THE_WAY), Outside(b, READY),
                  Outside(b, {PackagePlaced}))
  {
    DerivedBy([a, b]);
    forall allowed ensures Lags([a, b], allowed) <==> Outside(a, allowed) || Outside(b, allowed) {
      assert [a, b][0] == a && [a, b][1] == b;
    }
  }

  // ----- runs -----

  ghost predicate LegalRun(statuses: seq<VendorOrderStatus>, moves: seq<Move>)
    decreases |moves|
  {
    moves != [] ==> Legal(statuses, moves[0]) && LegalRun(After(statuses, moves[0]), moves[1..])
  }

  function Run(statuses: seq<VendorOrderStatus>, moves: seq<Move>): seq<VendorOrderStatus>
    requires LegalRun(statuses, moves)
    decreases |moves|
  {
    if moves == [] then statuses else Run(After(statuses, moves[0]), moves[1..])
  }

  /** The gates an order passes once its packages are committed to the courier. */
  function Gate(p: ParentOrderStatus): nat {
    match p
    case ReadyToShip => 1
    case Shipped => 2
    case Delivered => 3
    case _ => 0
  }

  /** From READY_TO_SHIP on no legal run moves the derived status back, and none cancels it. */
  lemma {:induction false} GatesOnlyAdvance(statuses: seq<VendorOrderStatus>, moves: seq<Move>)
    requires LegalRun(statuses, moves) && Gate(DeriveParentOrderStatus(statuses)) >= 1
    ensures Gate(DeriveParentOrderStatus(statuses)) <= Gate(DeriveParentOrderStatus(Run(statuses, moves)))
    decreases |moves|
  {
    if moves != [] {
      var any, undelivered, waiting, unready, started := StepGrades(statuses, moves[0]);
      GatesOnlyAdvance(After(statuses, moves[0]), moves[1..]);
    }
  }

  function StepsLeft(s: VendorOrderStatus): nat {
    match s
    case PackagePlaced => 6
    case PackageAccepted => 5
    case PackageProcessing => 4
    case PackageReady => 3
    case PackagePickedUp => 2
    case PackageInTransit => 1
    case _ => 0
  }

  function TotalLeft(statuses: seq<VendorOrderStatus>): nat {
    if statuses == [] then 0 else StepsLeft(statuses[0]) + TotalLeft(statuses[1..])
  }

  lemma {:induction false} TotalLeftUpdate(statuses: seq<VendorOrderStatus>, k: nat, s: VendorOrderStatus)
    requires k < |statuses|
    ensures TotalLeft(statuses[k := s]) == TotalLeft(statuses) - StepsLeft(statuses[k]) + StepsLeft(s)
  {
    if k == 0 {
      assert statuses[k := s][1..] == statuses[1..];
    } else {
      assert statuses[k := s][1..] == statuses[1..][k - 1 := s];
      TotalLeftUpdate(statuses[1..], k - 1, s);
    }
  }

  lemma {:induction false} TotalLeftBound(statuses: seq<VendorOrderStatus>)
    ensures TotalLeft(statuses) <= 6 * |statuses|
  {
    if statuses != [] { TotalLeftBound(statuses[1..]); }
  }

  lemma {:induction false} RunUsesSteps(statuses: seq<VendorOrderStatus>, moves: seq<Move>)
    requires LegalRun(statuses, moves)
    ensures |moves| + TotalLeft(Run(statuses, moves)) <= TotalLeft(statuses)
    decreases |moves|
  {
    if moves != [] {
      TotalLeftUpdate(statuses, moves[0].index, moves[0].to);
      RunUsesSteps(After(statuses, moves[0]), moves[1..]);
    }
  }

  /** An order of n packages comes to rest after at most 6n vendor steps. */
  lemma RunsAreShort(statuses: seq<VendorOrderStatus>, moves: seq<Move>)
    requires LegalRun(statuses, moves)
    ensures |moves| <= 6 * |statuses|
  {
    RunUsesSteps(statuses, moves);
    TotalLeftBound(statuses);
  }

  /** The bound is met: one package walks the whole way in six steps. */
  lemma SixStepsHappen()
    ensures exists moves :: |moves| == 6 && LegalRun([PackagePlaced], moves)
  {
    var moves := [Move(0, PackageAccepted), Move(0, PackageProcessing), Move(0, PackageReady),
                  Move(0, PackagePickedUp), Move(0, PackageInTransit), Move(0, PackageDelivered)];
    assert LegalRun([PackageDelivered], moves[1..][1..][1..][1..][1..][1..]);
    assert [PackageInTransit][0 := PackageDelivered] == [PackageDelivered];
    assert LegalRun([PackageInTransit], moves[1..][1..][1..][1..][1..]);
    assert [PackagePickedUp][0 := PackageInTransit] == [PackageInTransit];
    assert LegalRun([PackagePickedUp], moves[1..][1..][1..][1..]);
    assert [PackageReady][0 := PackagePickedUp] == [PackagePickedUp];
    assert LegalRun([PackageReady], moves[1..][1..][1..]);
    assert [PackageProcessing][0 := PackageReady] == [PackageReady];
    assert LegalRun([PackageProcessing], moves[1..][1..]);
    assert [PackageAccepted][0 := PackageProcessing] == [PackageProcessing];
    assert LegalRun([PackageAccepted], moves[1..]);
    assert [PackagePlaced][0 := PackageAccepted] == [PackageAccepted];
  }

  // ----- the stored parent status -----

  const SEQUENCE := [Confirmed, Processing, ReadyToShip, Shipped, Delivered]

  /** The position of a status in the sequence, or -1. */
  function IndexOf(p: ParentOrderStatus): (k: int)
    ensures -1 <= k < |SEQUENCE| && (k >= 0 ==> SEQUENCE[k] == p)
  {
    match p
    case Confirmed => 0
    case Processing => 1
    case ReadyToShip => 2
    case Shipped => 3
    case Delivered => 4
    case _ => -1
  }

  function Targets(current: ParentOrderStatus, target: ParentOrderStatus): seq<ParentOrderStatus> {
    if target == Cancelled then [target]
    else if IndexOf(current) + 1 <= IndexOf(target) + 1 then SEQUENCE[IndexOf(current) + 1..IndexOf(target) + 1] else []
  }

  /** The statuses the loop in synchronizeParentOrderStatus writes, skipping the ones the table refuses. */
  function Walk(current: ParentOrderStatus, targets: seq<ParentOrderStatus>): seq<ParentOrderStatus>
    decreases |targets|
  {
    if targets == [] then []
    else if targets[0] in ParentTransitions(current) then [targets[0]] + Walk(targets[0], targets[1..])
    else Walk(current, targets[1..])
  }

  function EndOf(current: ParentOrderStatus, walk: seq<ParentOrderStatus>): ParentOrderStatus {
    if walk == [] then current else walk[|walk| - 1]
  }

  function StatusEvents(current: ParentOrderStatus, statuses: seq<VendorOrderStatus>): seq<ParentOrderStatus> {
    var target := DeriveParentOrderStatus(statuses);
    if current == PendingPayment || target == current then [] else Walk(current, Targets(current, target))
  }

  function Synchronized(current: ParentOrderStatus, statuses: seq<VendorOrderStatus>): ParentOrderStatus {
    EndOf(current, StatusEvents(current, statuses))
  }

  /** A path in the transition table. */
  ghost predicate FollowsTable(current: ParentOrderStatus, walk: seq<ParentOrderStatus>)
    decreases |walk|
  {
    walk != [] ==> walk[0] in ParentTransitions(current) && FollowsTable(walk[0], walk[1..])
  }

  /** synchronizeParentOrderStatus: `events` are the status changes it records, in order. */
  method SynchronizeParentOrderStatus(status: ParentOrderStatus, statuses: seq<VendorOrderStatus>)
    returns (current: ParentOrderStatus, events: seq<ParentOrderStatus>)
    ensures events == StatusEvents(status, statuses) && current == Synchronized(status, statuses)
    ensures FollowsTable(status, events)
  {
    current, events := status, [];
    if status == PendingPayment { return; }
    var target := DeriveParentOrderStatus(statuses);
    if target == status { return; }
    var targets := Targets(status, target);
    current, events := WriteTargets(status, targets);
    WalkFollowsTable(status, targets);
  }

  /** Its loop. */
  method WriteTargets(status: ParentOrderStatus, targets: seq<ParentOrderStatus>)
    returns (current: ParentOrderStatus, events: seq<ParentOrderStatus>)
    ensures events == Walk(status, targets) && current == EndOf(status, events)
  {
    current, events := status, [];
    var i := 0;
    while i < |targets|
      invariant 0 <= i <= |targets|
      invariant current == EndOf(status, events)
      invariant events + Walk(current, targets[i..]) == Walk(status, targets)
    {
      assert targets[i..][0] == targets[i] && targets[i..][1..] == targets[i + 1..];
      if targets[i] in ParentTransitions(current) {
        current, events := targets[i], events + [targets[i]];
      }
      i := i + 1;
    }
  }

  /** Every status the loop writes is one the table allows from the status before it. */
  lemma {:induction false} WalkFollowsTable(current: ParentOrderStatus, targets: seq<ParentOrderStatus>)
    ensures FollowsTable(current, Walk(current, targets))
    decreases |targets|
  {
    if targets != [] {
      if targets[0] in ParentTransitions(current) {
        var rest := Walk(targets[0], targets[1..]);
        WalkFollowsTable(targets[0], targets[1..]);
        assert ([targets[0]] + rest)[1..] == rest;
      } else {
        WalkFollowsTable(current, targets[1..]);
      }
    }
  }

  /** The stored status is the derived one, except that it stays at PROCESSING when the derived one falls back. */
  predicate InStep(parent: ParentOrderStatus, statuses: seq<VendorOrderStatus>) {
    var d := DeriveParentOrderStatus(statuses);
    parent == d || (parent == Processing && d == Confirmed)
  }

  /** Where the synchronisation ends, for every stored status. */
  lemma SynchronizedTable(parent: ParentOrderStatus, statuses: seq<VendorOrderStatus>)
    ensures var d := DeriveParentOrderStatus(statuses);
            Synchronized(parent, statuses) ==
            if parent !in {Confirmed, Processing, ReadyToShip, Shipped, Delivered} then parent
            else if d == Cancelled then (if parent in {Confirmed, Processing} then Cancelled else parent)
            else if IndexOf(parent) <= IndexOf(d) then d else parent
  {
    if IndexOf(parent) == -1 { SynchronizedOutside(parent, statuses); } else { SynchronizedInside(parent, statuses); }
  }

  lemma SynchronizedInside(parent: ParentOrderStatus, statuses: seq<VendorOrderStatus>)
    requires parent in {Confirmed, Processing, ReadyToShip, Shipped, Delivered}
    ensures var d := DeriveParentOrderStatus(statuses);
            Synchronized(parent, statuses) ==
            if d == Cancelled then (if parent in {Confirmed, Processing} then Cancelled else parent)
            else if IndexOf(parent) <= IndexOf(d) then d else parent
  {
    var d := DeriveParentOrderStatus(statuses);
    DerivedBy(statuses);
    var targets := Targets(parent, d);
    if d == Cancelled {
      assert targets == [Cancelled] && targets[1..] == [] && Walk(Cancelled, []) == Walk(parent, []) == [];
    } else if IndexOf(parent) < IndexOf(d) {
      WalkReaches(IndexOf(parent), IndexOf(d));
    }
  }

  /** A stored status outside the sequence stays. */
  lemma SynchronizedOutside(parent: ParentOrderStatus, statuses: seq<VendorOrderStatus>)
    requires IndexOf(parent) == -1
    ensures Synchronized(parent, statuses) == parent
  {
    if parent != PendingPayment {
      var targets := Targets(parent, DeriveParentOrderStatus(statuses));
      TargetsAllowed(parent, DeriveParentOrderStatus(statuses));
      OutsideLeadsOutside(parent);
      WalkStays(parent, targets);
    }
  }

  lemma OutsideLeadsOutside(parent: ParentOrderStatus)
    requires IndexOf(parent) == -1 && parent != PendingPayment
    ensures forall t :: t in ParentTransitions(parent) ==> t != Cancelled && t !in SEQUENCE
  {
  }

  lemma TargetsAllowed(parent: ParentOrderStatus, target: ParentOrderStatus)
    ensures forall t :: t in Targets(parent, target) ==> t == Cancelled || t in SEQUENCE
  {
  }

  /** From a status outside the sequence other than PENDING_PAYMENT the table allows none of the sequence. */
  lemma {:induction false} WalkStays(parent: ParentOrderStatus, targets: seq<ParentOrderStatus>)
    requires forall t :: t in ParentTransitions(parent) ==> t !in targets
    ensures Walk(parent, targets) == []
    decreases |targets|
  {
    if targets != [] {
      assert forall t :: t in targets[1..] ==> t in targets;
      WalkStays(parent, targets[1..]);
    }
  }

  lemma {:induction false} WalkReaches(i: int, j: int)
    requires 0 <= i < j < |SEQUENCE|
    ensures var w := Walk(SEQUENCE[i], SEQUENCE[i + 1..j + 1]); w != [] && EndOf(SEQUENCE[i], w) == SEQUENCE[j]
    decreases j - i
  {
    var targets := SEQUENCE[i + 1..j + 1];
    assert targets[1..] == SEQUENCE[i + 2..j + 1];
    assert SEQUENCE[i + 1] in ParentTransitions(SEQUENCE[i]);
    if i + 1 < j { WalkReaches(i + 1, j); }
  }

  /** One vendor step followed by the synchronisation, as the order service runs them. */
  function Fulfil(parent: ParentOrderStatus, statuses: seq<VendorOrderStatus>, m: Move): (ParentOrderStatus,
    seq<VendorOrderStatus>)
    requires Legal(statuses, m)
  {
    (Synchronized(parent, After(statuses, m)), After(statuses, m))
  }

  /**
   Where a legal step can take the derived status: nowhere, onward, to CANCELLED from the first two stages, or back to
   CONFIRMED.
   */
  lemma DerivedMoves(statuses: seq<VendorOrderStatus>, m: Move)
    requires Legal(statuses, m)
    ensures var d, d1 := DeriveParentOrderStatus(statuses), DeriveParentOrderStatus(After(statuses, m));
            && d in {Confirmed, Processing, ReadyToShip, Shipped, Delivered}
            && (d1 == d || IndexOf(d) < IndexOf(d1) || (d1 == Cancelled && d in {Confirmed, Processing})
                || (d == Processing && d1 == Confirmed))
  {
    var any, undelivered, waiting, unready, started := StepGrades(statuses, m);
  }

  lemma FulfilKeepsStep(parent: ParentOrderStatus, statuses: seq<VendorOrderStatus>, m: Move)
    requires Legal(statuses, m) && InStep(parent, statuses)
    ensures InStep(Fulfil(parent, statuses, m).0, After(statuses, m))
  {
    DerivedMoves(statuses, m);
    SynchronizedTable(parent, After(statuses, m));
  }

  function RunParent(parent: ParentOrderStatus, statuses: seq<VendorOrderStatus>, moves: seq<Move>): ParentOrderStatus
    requires LegalRun(statuses, moves)
    decreases |moves|
  {
    if moves == [] then parent
    else RunParent(Fulfil(parent, statuses, moves[0]).0, After(statuses, moves[0]), moves[1..])
  }

  /** Over a whole run of legal steps, cancellations included, the stored status never strays from the derived one. */
  lemma {:induction false} ParentStaysInStep(parent: ParentOrderStatus, statuses: seq<VendorOrderStatus>,
                                             moves: seq<Move>)
    requires LegalRun(statuses, moves) && InStep(parent, statuses)
    ensures InStep(RunParent(parent, statuses, moves), Run(statuses, moves))
    decreases |moves|
  {
    if moves != [] {
      FulfilKeepsStep(parent, statuses, moves[0]);
      ParentStaysInStep(Fulfil(parent, statuses, moves[0]).0, After(statuses, moves[0]), moves[1..]);
    }
  }
}
