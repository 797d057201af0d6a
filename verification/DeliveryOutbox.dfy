/**
 The delivery outbox as a lease protocol: any number of relays poll one table of events and one job queue, and each may
 crash or fail anywhere. Every database or queue operation is one atomic step; steps of different relays interleave
 freely.
 */
module DeliveryOutbox {
  import opened Wrappers

  const LEASE := 300_000
  const BACKOFF := 5_000
  const BATCH: nat := 25

  type Id = nat
  type JobId = string

  datatype Status = Pending | Processing | Processed

  /** An event; the payload is the dispatch it asks for, or None when it cannot be parsed. */
  datatype Row = Row(payload: Option<string>, createdAt: int, status: Status, availableAt: int, attempts: nat)

  /** A job record that is neither completed nor failed is live. */
  datatype JobState = Live | Completed | Failed

  /** Where a relay stands between two operations; in the last six it holds the event at the head of its batch. */
  datatype Phase = Idle | Swept | Claiming | Looking | Checking | Retrying | Adding | Acknowledging | Failing

  /** `until` is the end of the lease on the event being held. */
  datatype Relay = Relay(phase: Phase, todo: seq<Id>, until: int)

  /** `added` is every job ever put into the queue; `jobs` are the records still there. */
  datatype System = System(now: int, rows: map<Id, Row>, jobs: map<JobId, JobState>, added: set<JobId>,
                           relays: seq<Relay>)

  function JobName(dispatch: string): JobId { "delivery-" + dispatch }

  predicate Holding(r: Relay) {
    r.phase != Idle && r.phase != Swept && r.phase != Claiming
  }

  ghost predicate WellFormed(s: System) {
    forall i :: 0 <= i < |s.relays| ==>
                  (Holding(s.relays[i]) ==> s.relays[i].todo != []) && forall k :: 0 <= k < |s.relays[i].todo| ==>
                                                                                     s.relays[i].todo[k] in s.rows
  }

  // ----- the operations of a poll -----

  function Move(s: System, i: nat, r: Relay): System
    requires i < |s.relays|
  {
    s.(relays := s.relays[i := r])
  }

  function SetRow(s: System, id: Id, row: Row): System {
    s.(rows := s.rows[id := row])
  }

  function Expired(row: Row, now: int): bool {
    row.status == Processing && row.availableAt <= now
  }

  function SweptRow(row: Row, now: int): Row {
    if Expired(row, now) then row.(status := Pending) else row
  }

  /** Leases that have run out make their events pending again. */
  function Sweep(s: System, i: nat): System
    requires i < |s.relays|
  {
    Move(s.(rows := map id | id in s.rows :: SweptRow(s.rows[id], s.now)), i, Relay(Swept, [], 0))
  }

  predicate Due(s: System, id: Id) {
    id in s.rows && s.rows[id].status == Pending && s.rows[id].availableAt <= s.now
  }

  /** The oldest due events, at most BATCH of them. */
  ghost predicate Oldest(s: System, batch: seq<Id>) {
    && |batch| <= BATCH
    && (forall k :: 0 <= k < |batch| ==> Due(s, batch[k]))
    && (forall k, m :: 0 <= k < m < |batch| ==>
                         batch[k] != batch[m] && s.rows[batch[k]].createdAt <= s.rows[batch[m]].createdAt)
    && (forall id :: Due(s, id) && id !in batch ==>
                       |batch| == BATCH && s.rows[batch[BATCH - 1]].createdAt <= s.rows[id].createdAt)
  }

  /** The conditional update: only a pending event is claimed, and only then is it held. */
  function Claim(s: System, i: nat): System
    requires WellFormed(s) && i < |s.relays| && s.relays[i].todo != []
  {
    var r := s.relays[i];
    var row := s.rows[r.todo[0]];
    if row.status == Pending
    then SetRow(Move(s, i, Relay(Looking, r.todo, s.now + LEASE)), r.todo[0],
                row.(status := Processing, attempts := row.attempts + 1, availableAt := s.now + LEASE))
    else Move(s, i, Relay(Claiming, r.todo[1..], 0))
  }

  function Goto(s: System, i: nat, phase: Phase): System
    requires i < |s.relays|
  {
    Move(s, i, s.relays[i].(phase := phase))
  }

  /** Parse the payload and ask the queue for the job. */
  function Look(s: System, i: nat): System
    requires WellFormed(s) && i < |s.relays| && Holding(s.relays[i])
  {
    var payload := s.rows[s.relays[i].todo[0]].payload;
    Goto(s, i, if payload.None? then Failing else if JobName(payload.value) in s.jobs then Checking else Adding)
  }

  /** The job that a held event asks for. */
  function Wanted(s: System, i: nat): Option<JobId>
    requires WellFormed(s) && i < |s.relays| && Holding(s.relays[i])
  {
    var payload := s.rows[s.relays[i].todo[0]].payload;
    if payload.None? then None else Some(JobName(payload.value))
  }

  function Check(s: System, i: nat): System
    requires WellFormed(s) && i < |s.relays| && Holding(s.relays[i]) && Wanted(s, i).Some?
  {
    var job := Wanted(s, i).value;
    Goto(s, i, if job !in s.jobs then Acknowledging else if s.jobs[job] == Failed then Retrying
         else if s.jobs[job] == Completed then Failing else Acknowledging)
  }

  /** The queue retries only a job that is still failed. */
  function Retry(s: System, i: nat): System
    requires WellFormed(s) && i < |s.relays| && Holding(s.relays[i]) && Wanted(s, i).Some?
  {
    var job := Wanted(s, i).value;
    if job in s.jobs && s.jobs[job] == Failed then Goto(s, i, Acknowledging).(jobs := s.jobs[job := Live])
    else Goto(s, i, Failing)
  }

  /** The queue ignores a job whose id it already has. */
  function Add(s: System, i: nat): System
    requires WellFormed(s) && i < |s.relays| && Holding(s.relays[i]) && Wanted(s, i).Some?
  {
    var job := Wanted(s, i).value;
    var next := Goto(s, i, Acknowledging);
    if job in s.jobs then next else next.(jobs := s.jobs[job := Live], added := s.added + {job})
  }

  /** The unconditional updates that end a handling. */
  function Finish(s: System, i: nat, status: Status, availableAt: int): System
    requires WellFormed(s) && i < |s.relays| && Holding(s.relays[i])
  {
    var id := s.relays[i].todo[0];
    SetRow(Move(s, i, Relay(Claiming, s.relays[i].todo[1..], 0)), id,
           s.rows[id].(status := status, availableAt := availableAt))
  }

  function Acknowledge(s: System, i: nat): System
    requires WellFormed(s) && i < |s.relays| && Holding(s.relays[i])
  {
    Finish(s, i, Processed, s.rows[s.relays[i].todo[0]].availableAt)
  }

  // ----- the state machine -----

  datatype Event =
    | Tick(elapsed: nat)
    | Create(id: Id, payload: Option<string>)
    | JobEnds(job: JobId, outcome: JobState)
    | JobRemoved(job: JobId)
    | Begin(relay: nat)
    | Find(relay: nat, batch: seq<Id>)
    | Advance(relay: nat)
    | Throw(relay: nat)
    | Crash(relay: nat)

  /** The relay's next operation is determined by its phase. */
  predicate CanAdvance(s: System, i: nat) {
    i < |s.relays| && s.relays[i].phase != Idle && s.relays[i].phase != Swept
  }

  ghost predicate Legal(s: System, e: Event) {
    match e
    case Tick(_) => true
    case Create(id, _) => id !in s.rows
    case JobEnds(job, outcome) => job in s.jobs && s.jobs[job] == Live && outcome != Live
    case JobRemoved(_) => true
    case Begin(i) => i < |s.relays| && s.relays[i].phase == Idle
    case Find(i, batch) => i < |s.relays| && s.relays[i].phase == Swept && Oldest(s, batch)
    case Advance(i) => CanAdvance(s, i)
    case Throw(i) => i < |s.relays|
    case Crash(i) => i < |s.relays|
  }

  /** A relay that is past parsing has a payload. */
  ghost predicate Parsed(s: System)
    requires WellFormed(s)
  {
    forall i :: 0 <= i < |s.relays| && Holding(s.relays[i]) && s.relays[i].phase !in {Looking, Failing} ==>
                  Wanted(s, i).Some?
  }

  function Stepped(s: System, i: nat): System
    requires WellFormed(s) && CanAdvance(s, i)
  {
    match s.relays[i].phase
    case Claiming => if s.relays[i].todo == [] then Move(s, i, Relay(Idle, [], 0)) else Claim(s, i)
    case Looking => Look(s, i)
    case Checking => if Wanted(s, i).Some? then Check(s, i) else Goto(s, i, Failing)
    case Retrying => if Wanted(s, i).Some? then Retry(s, i) else Goto(s, i, Failing)
    case Adding => if Wanted(s, i).Some? then Add(s, i) else Goto(s, i, Failing)
    case Acknowledging => Acknowledge(s, i)
    case Failing => Finish(s, i, Pending, s.now + BACKOFF)
    case _ => s
  }

  function Next(s: System, e: Event): System
    requires WellFormed(s) && Legal(s, e)
  {
    match e
    case Tick(elapsed) => s.(now := s.now + elapsed)
    case Create(id, payload) => SetRow(s, id, Row(payload, s.now, Pending, s.now, 0))
    case JobEnds(job, outcome) => s.(jobs := s.jobs[job := outcome])
    case JobRemoved(job) => s.(jobs := s.jobs - {job})
    case Begin(i) => Sweep(s, i)
    case Find(i, batch) => Move(s, i, Relay(Claiming, batch, 0))
    case Advance(i) => Stepped(s, i)
    case Throw(i) =>
      if Holding(s.relays[i]) && s.relays[i].phase != Failing then Goto(s, i, Failing)
      else Move(s, i, Relay(Idle, [], 0))
    case Crash(i) => Move(s, i, Relay(Idle, [], 0))
  }

  ghost predicate LegalRun(s: System, es: seq<Event>)
    requires WellFormed(s)
    decreases |es|
  {
    es != [] ==> Legal(s, es[0]) && WellFormed(Next(s, es[0])) && LegalRun(Next(s, es[0]), es[1..])
  }

  ghost function Run(s: System, es: seq<Event>): (r: System)
    requires WellFormed(s) && LegalRun(s, es)
    ensures WellFormed(r)
    decreases |es|
  {
    if es == [] then s else Run(Next(s, es[0]), es[1..])
  }

  /** No events, an empty queue and any number of idle relays. */
  function Start(now: int, relays: nat): (s: System)
    ensures WellFormed(s)
  {
    System(now, map[], map[], {}, seq(relays, i => Relay(Idle, [], 0)))
  }

  // ----- what every run keeps -----

  /** The job of every processed or acknowledging event has been in the queue. */
  ghost predicate JobsFirst(s: System)
    requires WellFormed(s)
  {
    && Parsed(s)
    && s.jobs.Keys <= s.added
    && (forall i :: 0 <= i < |s.relays| && s.relays[i].phase in {Checking, Retrying, Acknowledging} ==>
                      Wanted(s, i).value in s.added)
    && (forall id :: id in s.rows && s.rows[id].status == Processed ==>
                       s.rows[id].payload.Some? && JobName(s.rows[id].payload.value) in s.added)
  }

  /** No event is out of reach for longer than a lease. */
  ghost predicate ShortLeases(s: System) {
    forall id :: id in s.rows && s.rows[id].status != Processed ==> s.rows[id].availableAt <= s.now + LEASE
  }

  ghost predicate Safe(s: System) {
    WellFormed(s) && JobsFirst(s) && ShortLeases(s)
  }

  lemma AdvanceKeepsForm(s: System, i: nat)
    requires WellFormed(s) && CanAdvance(s, i)
    ensures WellFormed(Stepped(s, i))
  {
  }

  lemma StepKeepsForm(s: System, e: Event)
    requires WellFormed(s) && Legal(s, e)
    ensures WellFormed(Next(s, e))
  {
    if e.Advance? { AdvanceKeepsForm(s, e.relay); }
  }

  lemma AdvanceKeepsLeases(s: System, i: nat)
    requires WellFormed(s) && ShortLeases(s) && CanAdvance(s, i)
    ensures ShortLeases(Stepped(s, i))
  {
  }

  lemma ClaimKeepsJobs(s: System, i: nat)
    requires WellFormed(s) && JobsFirst(s) && CanAdvance(s, i) && !Holding(s.relays[i]) && WellFormed(Stepped(s, i))
    ensures JobsFirst(Stepped(s, i))
  {
  }

  lemma HandlingKeepsJobs(s: System, i: nat)
    requires WellFormed(s) && JobsFirst(s) && CanAdvance(s, i) && Holding(s.relays[i]) && WellFormed(Stepped(s, i))
    ensures JobsFirst(Stepped(s, i))
  {
  }

  lemma AdvanceKeepsJobs(s: System, i: nat)
    requires WellFormed(s) && JobsFirst(s) && CanAdvance(s, i) && WellFormed(Stepped(s, i))
    ensures JobsFirst(Stepped(s, i))
  {
    if Holding(s.relays[i]) { HandlingKeepsJobs(s, i); } else { ClaimKeepsJobs(s, i); }
  }

  lemma AdvanceSafe(s: System, i: nat)
    requires Safe(s) && CanAdvance(s, i)
    ensures Safe(Stepped(s, i))
  {
    AdvanceKeepsForm(s, i);
    AdvanceKeepsLeases(s, i);
    AdvanceKeepsJobs(s, i);
  }

  lemma SweepSafe(s: System, i: nat)
    requires Safe(s) && i < |s.relays|
    ensures Safe(Sweep(s, i))
  {
  }

  lemma StepSafe(s: System, e: Event)
    requires Safe(s) && Legal(s, e)
    ensures Safe(Next(s, e))
  {
    StepKeepsForm(s, e);
    if e.Advance? { AdvanceSafe(s, e.relay); }
    if e.Begin? { SweepSafe(s, e.relay); }
  }

  lemma {:induction false} RunSafe(s: System, es: seq<Event>)
    requires Safe(s) && LegalRun(s, es)
    ensures Safe(Run(s, es))
    decreases |es|
  {
    if es != [] {
      StepSafe(s, es[0]);
      RunSafe(Next(s, es[0]), es[1..]);
    }
  }

  /** Any number of relays, any interleaving, any crashes: a processed event's job has been put into the queue. */
  lemma ProcessedOnlyAfterJob(now: int, relays: nat, es: seq<Event>, id: Id)
    requires LegalRun(Start(now, relays), es)
    ensures var s := Run(Start(now, relays), es);
            id in s.rows && s.rows[id].status == Processed ==>
              s.rows[id].payload.Some? && JobName(s.rows[id].payload.value) in s.added
  {
    RunSafe(Start(now, relays), es);
  }

  /** The step claims the event or puts it back. */
  ghost predicate Rewrites(s: System, e: Event, id: Id) {
    && e.Advance? && e.relay < |s.relays| && s.relays[e.relay].todo != [] && s.relays[e.relay].todo[0] == id
    && (s.relays[e.relay].phase == Claiming || s.relays[e.relay].phase == Failing)
  }

  ghost predicate LeftAlone(s: System, es: seq<Event>, id: Id)
    requires WellFormed(s) && LegalRun(s, es)
    decreases |es|
  {
    es != [] ==> !Rewrites(s, es[0], id) && LeftAlone(Next(s, es[0]), es[1..], id)
  }

  lemma {:induction false} LeftAloneKeepsTime(s: System, es: seq<Event>, id: Id)
    requires WellFormed(s) && LegalRun(s, es) && LeftAlone(s, es, id) && id in s.rows
    ensures id in Run(s, es).rows && Run(s, es).rows[id].availableAt == s.rows[id].availableAt
    decreases |es|
  {
    if es != [] {
      var next := Next(s, es[0]);
      assert id in next.rows && next.rows[id].availableAt == s.rows[id].availableAt;
      LeftAloneKeepsTime(next, es[1..], id);
    }
  }

  /**
   An unprocessed event becomes due within one lease, whoever claimed it and whatever happened to them: over any
   further run of at least that length in which it is neither claimed again nor put back, it is processed, or the next
   sweep makes it due.
   */
  lemma ClaimableWithinLease(now: int, relays: nat, es: seq<Event>, more: seq<Event>, id: Id, i: nat)
    requires LegalRun(Start(now, relays), es)
    requires var s := Run(Start(now, relays), es);
             && id in s.rows && s.rows[id].status != Processed && LegalRun(s, more) && LeftAlone(s, more, id)
             && Run(s, more).now >= s.now + LEASE && i < |Run(s, more).relays|
    ensures var end := Run(Run(Start(now, relays), es), more);
            id in end.rows && (end.rows[id].status == Processed || Due(Sweep(end, i), id))
  {
    RunSafe(Start(now, relays), es);
    LeftAloneKeepsTime(Run(Start(now, relays), es), more, id);
  }

  // ----- what holds when every handling ends within its lease -----

  /** Every held event is still within its lease. */
  ghost predicate InTime(s: System) {
    forall i :: 0 <= i < |s.relays| && Holding(s.relays[i]) ==> s.now < s.relays[i].until
  }

  ghost predicate TimelyRun(s: System, es: seq<Event>)
    requires WellFormed(s)
    decreases |es|
  {
    InTime(s) && (es != [] ==> Legal(s, es[0]) && WellFormed(Next(s, es[0])) && TimelyRun(Next(s, es[0]), es[1..]))
  }

  /** A held event carries its holder's lease. */
  ghost predicate Leased(s: System)
    requires WellFormed(s)
  {
    forall i :: 0 <= i < |s.relays| && Holding(s.relays[i]) ==>
                  s.rows[s.relays[i].todo[0]].status == Processing
                  && s.rows[s.relays[i].todo[0]].availableAt == s.relays[i].until
  }

  /** No two relays hold one event. */
  ghost predicate Exclusive(s: System)
    requires WellFormed(s)
  {
    forall i, j :: 0 <= i < j < |s.relays| && Holding(s.relays[i]) && Holding(s.relays[j]) ==>
                     s.relays[i].todo[0] != s.relays[j].todo[0]
  }

  lemma ClaimExclusive(s: System, i: nat)
    requires WellFormed(s) && Leased(s) && Exclusive(s) && CanAdvance(s, i) && !Holding(s.relays[i])
    ensures WellFormed(Stepped(s, i)) && Leased(Stepped(s, i)) && Exclusive(Stepped(s, i))
  {
    AdvanceKeepsForm(s, i);
  }

  lemma HandlingExclusive(s: System, i: nat)
    requires WellFormed(s) && Leased(s) && Exclusive(s) && CanAdvance(s, i) && Holding(s.relays[i])
    ensures WellFormed(Stepped(s, i)) && Leased(Stepped(s, i)) && Exclusive(Stepped(s, i))
  {
    AdvanceKeepsForm(s, i);
  }

  lemma AdvanceExclusive(s: System, i: nat)
    requires WellFormed(s) && Leased(s) && Exclusive(s) && CanAdvance(s, i)
    ensures WellFormed(Stepped(s, i)) && Leased(Stepped(s, i)) && Exclusive(Stepped(s, i))
  {
    if Holding(s.relays[i]) { HandlingExclusive(s, i); } else { ClaimExclusive(s, i); }
  }

  lemma StepExclusive(s: System, e: Event)
    requires WellFormed(s) && Leased(s) && Exclusive(s) && InTime(s) && Legal(s, e)
    ensures WellFormed(Next(s, e)) && Leased(Next(s, e)) && Exclusive(Next(s, e))
  {
    StepKeepsForm(s, e);
    if e.Advance? { AdvanceExclusive(s, e.relay); }
  }

  /** A processed event stays so: the only relay that could write it again would have to hold it. */
  lemma StepKeepsProcessed(s: System, e: Event, id: Id)
    requires WellFormed(s) && Leased(s) && Legal(s, e) && id in s.rows && s.rows[id].status == Processed
    ensures id in Next(s, e).rows && Next(s, e).rows[id] == s.rows[id]
  {
  }

  lemma {:induction false} TimelyExclusive(s: System, es: seq<Event>)
    requires WellFormed(s) && Leased(s) && Exclusive(s) && TimelyRun(s, es)
    ensures LegalRun(s, es) && Leased(Run(s, es)) && Exclusive(Run(s, es))
    decreases |es|
  {
    if es != [] {
      StepExclusive(s, es[0]);
      TimelyExclusive(Next(s, es[0]), es[1..]);
    }
  }

  lemma {:induction false} ProcessedIsFinal(s: System, es: seq<Event>, id: Id)
    requires WellFormed(s) && Leased(s) && Exclusive(s) && TimelyRun(s, es) && id in s.rows
             && s.rows[id].status == Processed
    ensures LegalRun(s, es) && id in Run(s, es).rows && Run(s, es).rows[id] == s.rows[id]
    decreases |es|
  {
    if es != [] {
      StepExclusive(s, es[0]);
      StepKeepsProcessed(s, es[0], id);
      ProcessedIsFinal(Next(s, es[0]), es[1..], id);
    }
  }

  /** When every handling ends within its lease no two relays ever hold one event. */
  lemma OneHolder(now: int, relays: nat, es: seq<Event>, i: nat, j: nat)
    requires TimelyRun(Start(now, relays), es)
    ensures LegalRun(Start(now, relays), es)
    ensures var s := Run(Start(now, relays), es);
            i < j < |s.relays| && Holding(s.relays[i]) && Holding(s.relays[j]) ==>
              s.relays[i].todo[0] != s.relays[j].todo[0]
  {
    TimelyExclusive(Start(now, relays), es);
  }

  /** The time limit is exact: a sweep takes a held event away from its holder precisely when the lease has run out. */
  lemma SweepTakesHeld(s: System, holder: nat, i: nat)
    requires WellFormed(s) && Leased(s) && holder < |s.relays| && Holding(s.relays[holder]) && i < |s.relays|
    ensures Sweep(s, i).rows[s.relays[holder].todo[0]].status == Pending <==> !(s.now < s.relays[holder].until)
  {
  }

  lemma RunCons(s: System, e: Event, es: seq<Event>)
    requires WellFormed(s) && Legal(s, e) && WellFormed(Next(s, e)) && LegalRun(Next(s, e), es)
    ensures LegalRun(s, [e] + es) && Run(s, [e] + es) == Run(Next(s, e), es)
  {
    assert ([e] + es)[1..] == es;
  }

  ghost predicate Reaches(s: System, t: System)
    requires WellFormed(s)
  {
    exists es :: LegalRun(s, es) && Run(s, es) == t
  }

  lemma {:induction false} RunSnoc(s: System, es: seq<Event>, e: Event)
    requires WellFormed(s) && LegalRun(s, es) && Legal(Run(s, es), e)
    ensures LegalRun(s, es + [e]) && Run(s, es + [e]) == Next(Run(s, es), e)
    decreases |es|
  {
    if es == [] {
      StepKeepsForm(s, e);
      assert LegalRun(Next(s, e), []) && es + [e] == [e] + [];
      RunCons(s, e, []);
    } else {
      RunSnoc(Next(s, es[0]), es[1..], e);
      assert es + [e] == [es[0]] + (es[1..] + [e]);
      RunCons(s, es[0], es[1..] + [e]);
    }
  }

  lemma Then(s: System, t: System, e: Event, u: System)
    requires WellFormed(s) && Reaches(s, t) && WellFormed(t) && Legal(t, e) && Next(t, e) == u
    ensures Reaches(s, u)
  {
    var es :| LegalRun(s, es) && Run(s, es) == t;
    RunSnoc(s, es, e);
  }

  lemma Here(s: System)
    requires WellFormed(s)
    ensures Reaches(s, s)
  {
    assert LegalRun(s, []) && Run(s, []) == s;
  }

  // ----- sharing an event -----

  /** Two different relays hold the event. */
  ghost predicate Shared(s: System, id: Id, i: nat, j: nat)
    requires WellFormed(s)
  {
    i != j && HeldBy(s, id, i) && HeldBy(s, id, j)
  }

  predicate HeldBy(s: System, id: Id, i: nat)
    requires WellFormed(s)
  {
    i < |s.relays| && Holding(s.relays[i]) && s.relays[i].todo[0] == id
  }

  // ----- reopening a processed event -----

  ghost predicate Held(s: System, id: Id)
    requires WellFormed(s)
  {
    exists i: nat :: HeldBy(s, id, i)
  }

  ghost predicate Finished(s: System, id: Id) {
    id in s.rows && s.rows[id].status == Processed
  }

  /** A processed event that nobody holds is never written again, and nobody comes to hold it. */
  lemma {:induction false} UnheldStaysFinished(s: System, es: seq<Event>, id: Id)
    requires WellFormed(s) && LegalRun(s, es) && Finished(s, id) && !Held(s, id)
    ensures Finished(Run(s, es), id) && Run(s, es).rows[id] == s.rows[id]
    decreases |es|
  {
    if es != [] {
      var next := Next(s, es[0]);
      assert Finished(next, id) && next.rows[id] == s.rows[id] by {
        if es[0].Advance? { assert !HeldBy(s, id, es[0].relay); }
      }
      assert !Held(next, id) by {
        forall i: nat ensures !HeldBy(next, id, i) { assert !HeldBy(s, id, i); }
      }
      UnheldStaysFinished(next, es[1..], id);
    }
  }

  /** A legal run after which the event is not processed. */
  ghost predicate Reopens(s: System, es: seq<Event>, id: Id)
    requires WellFormed(s)
  {
    LegalRun(s, es) && id in Run(s, es).rows && Run(s, es).rows[id].status != Processed
  }

  /** Its holder only has to fail. */
  lemma HolderReopens(s: System, id: Id, i: nat) returns (es: seq<Event>)
    requires WellFormed(s) && HeldBy(s, id, i)
    ensures Reopens(s, es, id)
  {
    var failing := if s.relays[i].phase == Failing then s else Next(s, Throw(i));
    Here(s);
    if s.relays[i].phase != Failing { Then(s, s, Throw(i), failing); }
    var t := Stepped(failing, i);
    Then(s, failing, Advance(i), t);
    assert t.rows[id].status == Pending;
    es :| LegalRun(s, es) && Run(s, es) == t;
  }

  /** A processed event can become unprocessed again exactly when some relay still holds it. */
  lemma ReopenedExactlyWhenHeld(s: System, id: Id)
    requires WellFormed(s) && Finished(s, id)
    ensures Held(s, id) <==> exists es :: Reopens(s, es, id)
  {
    if Held(s, id) {
      var i: nat :| HeldBy(s, id, i);
      var es := HolderReopens(s, id, i);
      assert Reopens(s, es, id);
    } else {
      forall es ensures !Reopens(s, es, id) {
        if LegalRun(s, es) { UnheldStaysFinished(s, es, id); }
      }
    }
  }

  // ----- a late holder -----

  /** Relay 0 has claimed the only event. */
  const CLAIMED :=
    System(0, map[0 := Row(Some("d"), 0, Processing, LEASE, 1)], map[], {},
           [Relay(Looking, [0], LEASE), Relay(Idle, [], 0)])

  /** Its lease is over, and relay 1 has claimed the event too. */
  const SHARED := System(LEASE, map[0 := Row(Some("d"), 0, Processing, 2 * LEASE, 2)], map[], {},
                         [Relay(Looking, [0], LEASE), Relay(Looking, [0], 2 * LEASE)])

  /** Relay 1 has added the job and marked the event processed, while an operation of relay 0 has failed. */
  const OVERTAKEN :=
    System(LEASE, map[0 := Row(Some("d"), 0, Processed, 2 * LEASE, 2)], map["delivery-d" := Live], {"delivery-d"},
           [Relay(Failing, [0], LEASE), Relay(Claiming, [], 0)])

  const POLLING :=
    System(0, map[0 := Row(Some("d"), 0, Pending, 0, 0)], map[], {}, [Relay(Swept, [], 0), Relay(Idle, [], 0)])

  lemma PollRun()
    ensures Reaches(Start(0, 2), POLLING)
  {
    var s0, s1 := Start(0, 2), POLLING.(relays := [Relay(Idle, [], 0), Relay(Idle, [], 0)]);
    assert LegalRun(s0, []) && Run(s0, []) == s0;
    assert s0.relays == s1.relays;
    Then(s0, s0, Create(0, Some("d")), s1);
    assert Sweep(s1, 0).rows == s1.rows;
    Then(s0, s1, Begin(0), POLLING);
  }

  lemma ClaimRun()
    ensures Reaches(Start(0, 2), CLAIMED)
  {
    PollRun();
    var found := POLLING.(relays := [Relay(Claiming, [0], 0), Relay(Idle, [], 0)]);
    Then(Start(0, 2), POLLING, Find(0, [0]), found);
    Then(Start(0, 2), found, Advance(0), CLAIMED);
  }

  /** The lease of relay 0 is over, and relay 1 has swept. */
  const SWEPT :=
    System(LEASE, map[0 := Row(Some("d"), 0, Pending, LEASE, 1)], map[], {},
           [Relay(Looking, [0], LEASE), Relay(Swept, [], 0)])

  lemma SweepRun()
    ensures Reaches(Start(0, 2), SWEPT)
  {
    ClaimRun();
    var late := CLAIMED.(now := LEASE);
    Then(Start(0, 2), CLAIMED, Tick(LEASE), late);
    assert Sweep(late, 1).rows == SWEPT.rows;
    Then(Start(0, 2), late, Begin(1), SWEPT);
  }

  lemma ShareRun()
    ensures Reaches(Start(0, 2), SHARED)
  {
    SweepRun();
    var found := SWEPT.(relays := [Relay(Looking, [0], LEASE), Relay(Claiming, [0], 0)]);
    Then(Start(0, 2), SWEPT, Find(1, [0]), found);
    Then(Start(0, 2), found, Advance(1), SHARED);
  }

  lemma OvertakeRun()
    ensures Reaches(Start(0, 2), OVERTAKEN)
  {
    ShareRun();
    assert JobName("d") == "delivery-d";
    var s0 := Start(0, 2);
    var looked := SHARED.(relays := [Relay(Looking, [0], LEASE), Relay(Adding, [0], 2 * LEASE)]);
    var added := SHARED.(relays := [Relay(Looking, [0], LEASE), Relay(Acknowledging, [0], 2 * LEASE)],
    jobs := map["delivery-d" := Live], added := {"delivery-d"});
    var done := OVERTAKEN.(relays := [Relay(Looking, [0], LEASE), Relay(Claiming, [], 0)]);
    Then(s0, SHARED, Advance(1), looked);
    Then(s0, looked, Advance(1), added);
    assert added.relays[1].todo[1..] == [];
    Then(s0, added, Advance(1), done);
    Then(s0, done, Throw(0), OVERTAKEN);
  }

  /**
   Without the time limit two relays can hold one event, and a processed event can become pending again: a late holder
   overwrites it.
   */
  lemma LateHolderUndoes()
    ensures Reaches(Start(0, 2), SHARED) && !Exclusive(SHARED)
    ensures Reaches(Start(0, 2), OVERTAKEN) && OVERTAKEN.rows[0].status == Processed
    ensures Legal(OVERTAKEN, Advance(0)) && 0 in Next(OVERTAKEN, Advance(0)).rows
            && Next(OVERTAKEN, Advance(0)).rows[0].status == Pending
  {
    ShareRun();
    OvertakeRun();
    assert Holding(SHARED.relays[0]) && Holding(SHARED.relays[1]);
  }
}
