/**
 What relays can still bring about: which unprocessed events can become processed, and which held events can come to be
 held twice. Runs are built by a single relay, whatever the others have left behind.
 */
module DeliveryProgress {
  import opened Wrappers
  import opened DeliveryOutbox

  // ----- runs of relay steps -----

  predicate ByRelay(e: Event) {
    e.Begin? || e.Find? || e.Advance? || e.Throw? || e.Crash?
  }

  /** The run consists of relay steps only: no time passes, and nobody else touches events or jobs. */
  ghost predicate Leads(s: System, es: seq<Event>, t: System)
    requires WellFormed(s)
  {
    LegalRun(s, es) && Run(s, es) == t && forall e :: e in es ==> ByRelay(e)
  }

  ghost predicate Gets(s: System, t: System)
    requires WellFormed(s)
  {
    exists es :: Leads(s, es, t)
  }

  lemma GetsHere(s: System)
    requires WellFormed(s)
    ensures Gets(s, s)
  {
    assert Leads(s, [], s);
  }

  lemma GetsThen(s: System, t: System, e: Event, u: System)
    requires WellFormed(s) && Gets(s, t) && WellFormed(t) && Legal(t, e) && ByRelay(e) && Next(t, e) == u
    ensures Gets(s, u)
  {
    var es :| Leads(s, es, t);
    RunSnoc(s, es, e);
    assert Leads(s, es + [e], u);
  }

  /** What a relay's own steps leave alone: the clock, the jobs, the other relays and the event's payload. */
  ghost predicate Aside(s: System, t: System, i: nat, id: Id) {
    && t.now == s.now && t.jobs == s.jobs && |t.relays| == |s.relays|
    && (forall j :: 0 <= j < |s.relays| && j != i ==> t.relays[j] == s.relays[j])
    && id in s.rows && id in t.rows && t.rows[id].payload == s.rows[id].payload
  }

  // ----- from a batch to a claim -----

  /** Relay i is at the head of its loop and has the event, which is pending, at place k of what it has left to do. */
  ghost predicate Ahead(s: System, i: nat, id: Id, k: nat) {
    && WellFormed(s) && i < |s.relays| && s.relays[i].phase == Claiming && k < |s.relays[i].todo|
    && s.relays[i].todo[k] == id
    && id in s.rows && s.rows[id].status == Pending
    && (forall m :: 0 <= m < k ==> s.relays[i].todo[m] != id)
  }

  /** A relay gets past the event at the head of its batch: it claims it and fails, or finds it claimed. */
  lemma PassHead(start: System, s: System, i: nat, id: Id, k: nat) returns (t: System)
    requires WellFormed(start) && Gets(start, s) && Ahead(s, i, id, k) && k > 0
    ensures Gets(start, t) && Ahead(t, i, id, k - 1) && Aside(s, t, i, id)
  {
    var todo := s.relays[i].todo;
    t := Stepped(s, i);
    AdvanceKeepsForm(s, i);
    GetsThen(start, s, Advance(i), t);
    if s.rows[todo[0]].status == Pending {
      var failing := Next(t, Throw(i));
      GetsThen(start, t, Throw(i), failing);
      t := Stepped(failing, i);
      AdvanceKeepsForm(failing, i);
      GetsThen(start, failing, Advance(i), t);
    }
    assert t.relays[i].todo == todo[1..];
  }

  /** A relay that has a pending event anywhere in its batch can come to hold it. */
  lemma {:induction false} GetsHold(start: System, s: System, i: nat, id: Id, k: nat) returns (t: System)
    requires WellFormed(start) && Gets(start, s) && Ahead(s, i, id, k)
    ensures WellFormed(t) && Gets(start, t) && HeldBy(t, id, i) && t.relays[i].phase == Looking && Aside(s, t, i, id)
    decreases k
  {
    if k == 0 {
      t := Stepped(s, i);
      AdvanceKeepsForm(s, i);
      GetsThen(start, s, Advance(i), t);
    } else {
      var next := PassHead(start, s, i, id, k);
      t := GetsHold(start, next, i, id, k - 1);
    }
  }

  // ----- the database's answer exists -----

  /** The oldest of some events. */
  lemma {:induction false} OldestOf(s: System, ids: set<Id>) returns (m: Id)
    requires ids != {} && ids <= s.rows.Keys
    ensures m in ids && forall x :: x in ids ==> s.rows[m].createdAt <= s.rows[x].createdAt
    decreases |ids|
  {
    m :| m in ids;
    if ids != {m} {
      var rest := OldestOf(s, ids - {m});
      if s.rows[rest].createdAt <= s.rows[m].createdAt { m := rest; }
    }
  }

  /** Different events of the set in order of age, followed in age by all that were left out. */
  ghost predicate Takes(s: System, ids: set<Id>, n: nat, batch: seq<Id>)
    requires ids <= s.rows.Keys
  {
    && |batch| <= n && (forall k :: 0 <= k < |batch| ==> batch[k] in ids)
    && (forall k, m :: 0 <= k < m < |batch| ==>
                         batch[k] != batch[m] && s.rows[batch[k]].createdAt <= s.rows[batch[m]].createdAt)
    && (forall x :: x in ids && x !in batch ==>
                      |batch| == n && (n > 0 ==> s.rows[batch[n - 1]].createdAt <= s.rows[x].createdAt))
  }

  lemma {:induction false} TakeOldest(s: System, ids: set<Id>, n: nat) returns (batch: seq<Id>)
    requires ids <= s.rows.Keys
    ensures Takes(s, ids, n, batch)
    decreases n
  {
    if n == 0 || ids == {} {
      batch := [];
    } else {
      var m := OldestOf(s, ids);
      var rest := TakeOldest(s, ids - {m}, n - 1);
      batch := [m] + rest;
      OneOlder(s, ids, n, m, rest);
    }
  }

  lemma OneOlder(s: System, ids: set<Id>, n: nat, m: Id, rest: seq<Id>)
    requires ids <= s.rows.Keys && n > 0 && m in ids && Takes(s, ids - {m}, n - 1, rest)
    requires forall x :: x in ids ==> s.rows[m].createdAt <= s.rows[x].createdAt
    ensures Takes(s, ids, n, [m] + rest)
  {
    var batch := [m] + rest;
    forall k, l | 0 <= k < l < |batch|
      ensures batch[k] != batch[l] && s.rows[batch[k]].createdAt <= s.rows[batch[l]].createdAt
    {
      assert batch[l] == rest[l - 1] && rest[l - 1] in ids - {m};
    }
    forall x | x in ids && x !in batch
      ensures |batch| == n && s.rows[batch[n - 1]].createdAt <= s.rows[x].createdAt
    {
      assert x != batch[0] && x !in rest;
    }
  }

  lemma OldestExists(s: System) returns (batch: seq<Id>)
    ensures Oldest(s, batch)
  {
    var due := set id | id in s.rows && Due(s, id);
    batch := TakeOldest(s, due, BATCH);
    forall k | 0 <= k < |batch| ensures Due(s, batch[k]) { assert batch[k] in due; }
    forall id | Due(s, id) && id !in batch
      ensures |batch| == BATCH && s.rows[batch[BATCH - 1]].createdAt <= s.rows[id].createdAt
    {
      assert id in due;
    }
  }

  // ----- every event that is available can be claimed -----

  /** The event is not processed, and its time has come. */
  predicate Available(s: System, id: Id) {
    id in s.rows && s.rows[id].status != Processed && s.rows[id].availableAt <= s.now
  }

  function AvailableIds(s: System): set<Id> {
    set id | id in s.rows && Available(s, id)
  }

  /** An idle relay polls. */
  lemma Poll(start: System, s: System, i: nat, id: Id) returns (found: System)
    requires WellFormed(start) && Gets(start, s) && WellFormed(s) && i < |s.relays| && s.relays[i].phase == Idle
    requires Available(s, id)
    ensures WellFormed(found) && Gets(start, found) && Aside(s, found, i, id) && Due(found, id)
    ensures found.relays[i].phase == Claiming && Oldest(found, found.relays[i].todo)
    ensures AvailableIds(found) == AvailableIds(s)
  {
    var swept := Sweep(s, i);
    GetsThen(start, s, Begin(i), swept);
    var batch := OldestExists(swept);
    found := Next(swept, Find(i, batch));
    GetsThen(start, swept, Find(i, batch), found);
    assert Due(swept, id);
  }

  /** A full batch without the event: the relay claims its first event and crashes, which leaves one less available. */
  lemma ClaimAndCrash(start: System, s: System, i: nat, id: Id) returns (t: System)
    requires WellFormed(start) && Gets(start, s) && WellFormed(s) && i < |s.relays| && s.relays[i].phase == Claiming
    requires Oldest(s, s.relays[i].todo) && Due(s, id) && id !in s.relays[i].todo
    ensures WellFormed(t) && Gets(start, t) && Aside(s, t, i, id) && t.relays[i].phase == Idle && Available(t, id)
    ensures |AvailableIds(t)| < |AvailableIds(s)|
  {
    var first := s.relays[i].todo[0];
    var claimed := Stepped(s, i);
    AdvanceKeepsForm(s, i);
    GetsThen(start, s, Advance(i), claimed);
    t := Next(claimed, Crash(i));
    GetsThen(start, claimed, Crash(i), t);
    assert AvailableIds(t) == AvailableIds(s) - {first} && first in AvailableIds(s);
  }

  /** Whatever is ahead of it, an available event can come to be held by an idle relay, without time passing. */
  lemma {:induction false} ComesToHold(start: System, s: System, i: nat, id: Id) returns (t: System)
    requires WellFormed(start) && Gets(start, s) && WellFormed(s) && i < |s.relays| && s.relays[i].phase == Idle
    requires Available(s, id)
    ensures WellFormed(t) && Gets(start, t) && HeldBy(t, id, i) && t.relays[i].phase == Looking && Aside(s, t, i, id)
    decreases |AvailableIds(s)|
  {
    var found := Poll(start, s, i, id);
    var todo := found.relays[i].todo;
    if id in todo {
      var k :| 0 <= k < |todo| && todo[k] == id;
      t := GetsHold(start, found, i, id, k);
    } else {
      var next := ClaimAndCrash(start, found, i, id);
      t := ComesToHold(start, next, i, id);
    }
  }

  // ----- sharing, exactly -----

  /** At most one relay holds the event, and its lease is not over. */
  ghost predicate HeldOnce(s: System, id: Id)
    requires WellFormed(s)
  {
    && (forall i: nat :: HeldBy(s, id, i) ==>
                           && s.rows[id].status == Processing && s.rows[id].availableAt == s.relays[i].until
                           && s.now < s.relays[i].until)
    && (forall i: nat, j: nat :: HeldBy(s, id, i) && HeldBy(s, id, j) ==> i == j)
  }

  lemma AdvanceHeldOnce(s: System, i: nat, id: Id)
    requires WellFormed(s) && HeldOnce(s, id) && id in s.rows && CanAdvance(s, i) && WellFormed(Stepped(s, i))
    ensures HeldOnce(Stepped(s, i), id)
  {
    var t := Stepped(s, i);
    forall j: nat | HeldBy(t, id, j)
      ensures j != i ==> HeldBy(s, id, j)
      ensures j == i && s.relays[i].phase != Claiming ==> HeldBy(s, id, i)
    {
    }
    if s.relays[i].phase == Claiming && HeldBy(t, id, i) {
      assert s.rows[id].status == Pending;
      forall j: nat ensures !HeldBy(s, id, j) {}
    }
  }

  lemma StepHeldOnce(s: System, e: Event, id: Id)
    requires WellFormed(s) && HeldOnce(s, id) && id in s.rows && Legal(s, e) && !e.Tick?
    ensures WellFormed(Next(s, e)) && HeldOnce(Next(s, e), id) && id in Next(s, e).rows
  {
    StepKeepsForm(s, e);
    if e.Advance? {
      AdvanceHeldOnce(s, e.relay, id);
    } else {
      forall j: nat | HeldBy(Next(s, e), id, j) ensures HeldBy(s, id, j) {}
    }
  }

  lemma {:induction false} RunHeldOnce(s: System, es: seq<Event>, id: Id)
    requires WellFormed(s) && HeldOnce(s, id) && id in s.rows && LegalRun(s, es) && forall e :: e in es ==> !e.Tick?
    ensures HeldOnce(Run(s, es), id)
    decreases |es|
  {
    if es != [] {
      assert es[0] in es;
      StepHeldOnce(s, es[0], id);
      assert forall e :: e in es[1..] ==> e in es;
      RunHeldOnce(Next(s, es[0]), es[1..], id);
    }
  }

  /** A run in which no time passes and after which two relays hold the event. */
  ghost predicate Shares(s: System, es: seq<Event>, id: Id)
    requires WellFormed(s)
  {
    && LegalRun(s, es) && (forall e :: e in es ==> !e.Tick?)
    && exists i: nat, j: nat :: Shared(Run(s, es), id, i, j)
  }

  /** With its lease over, a held event can be claimed by any other relay. */
  lemma OverdueIsShared(s: System, holder: nat, i: nat, id: Id) returns (es: seq<Event>)
    requires WellFormed(s) && Leased(s) && HeldBy(s, id, holder) && i < |s.relays| && i != holder
    requires s.relays[holder].until <= s.now
    ensures Shares(s, es, id)
  {
    var idle := Next(s, Crash(i));
    GetsHere(s);
    GetsThen(s, s, Crash(i), idle);
    var t := ComesToHold(s, idle, i, id);
    es :| Leads(s, es, t);
    assert t.relays[holder] == s.relays[holder];
    assert Shared(t, id, holder, i);
    forall e | e in es ensures !e.Tick? { assert ByRelay(e); }
  }

  /**
   From a state in which holders have their leases and no event is shared: without time passing, a held event can come
   to be held by two relays exactly when its lease is over.
   */
  lemma SharedExactlyWhenOverdue(s: System, holder: nat, id: Id)
    requires WellFormed(s) && Leased(s) && Exclusive(s) && HeldBy(s, id, holder) && |s.relays| >= 2
    ensures s.relays[holder].until <= s.now <==> exists es :: Shares(s, es, id)
  {
    if s.relays[holder].until <= s.now {
      var es := OverdueIsShared(s, holder, if holder == 0 then 1 else 0, id);
    } else {
      assert HeldOnce(s, id);
      forall es ensures !Shares(s, es, id) {
        if LegalRun(s, es) && (forall e: Event :: e in es ==> !e.Tick?) { RunHeldOnce(s, es, id); }
      }
    }
  }

  // ----- an unprocessed event -----

  /** Some relay is past asking about the job and will acknowledge the event. */
  ghost predicate Confirmed(s: System, id: Id)
    requires WellFormed(s)
  {
    exists i: nat :: HeldBy(s, id, i) && s.relays[i].phase in {Adding, Acknowledging}
  }

  /** The event's job is in the queue and completed. */
  predicate JobCompleted(s: System, id: Id)
    requires id in s.rows && s.rows[id].payload.Some?
  {
    var job := JobName(s.rows[id].payload.value);
    job in s.jobs && s.jobs[job] == Completed
  }

  /** There is a relay, the payload can be parsed, and the job is not completed unless a relay is past asking. */
  ghost predicate Processable(s: System, id: Id)
    requires WellFormed(s) && id in s.rows
  {
    |s.relays| > 0 && s.rows[id].payload.Some? && (!JobCompleted(s, id) || Confirmed(s, id))
  }

  /** The run leaves the record of the event's job in the queue. */
  ghost predicate KeepsJob(s: System, id: Id, es: seq<Event>)
    requires id in s.rows
  {
    s.rows[id].payload.Some? ==> JobRemoved(JobName(s.rows[id].payload.value)) !in es
  }

  ghost predicate Processes(s: System, es: seq<Event>, id: Id)
    requires WellFormed(s)
  {
    LegalRun(s, es) && Finished(Run(s, es), id)
  }

  // ----- what cannot be processed -----

  ghost predicate Stuck(s: System, id: Id) {
    WellFormed(s) && Parsed(s) && id in s.rows && s.rows[id].status != Processed && !Processable(s, id)
  }

  lemma AdvanceKeepsParsed(s: System, i: nat)
    requires WellFormed(s) && Parsed(s) && CanAdvance(s, i) && WellFormed(Stepped(s, i))
    ensures Parsed(Stepped(s, i))
  {
  }

  lemma StepKeepsParsed(s: System, e: Event)
    requires WellFormed(s) && Parsed(s) && Legal(s, e) && WellFormed(Next(s, e))
    ensures Parsed(Next(s, e))
  {
    if e.Advance? { AdvanceKeepsParsed(s, e.relay); }
  }

  /** The holders of a stuck event have not got past asking. */
  lemma StuckHolders(s: System, id: Id, i: nat)
    requires Stuck(s, id) && HeldBy(s, id, i)
    ensures s.relays[i].phase !in {Adding, Acknowledging}
    ensures s.rows[id].payload.Some? ==> JobCompleted(s, id)
    ensures s.rows[id].payload.None? ==> s.relays[i].phase in {Looking, Failing}
  {
    assert s.relays[i].phase in {Adding, Acknowledging} ==> Confirmed(s, id);
  }

  lemma StuckAdvance(s: System, i: nat, id: Id)
    requires Stuck(s, id) && CanAdvance(s, i) && WellFormed(Stepped(s, i)) && Parsed(Stepped(s, i))
    ensures Stuck(Stepped(s, i), id) && Stepped(s, i).rows[id].payload == s.rows[id].payload
  {
    var t := Stepped(s, i);
    if HeldBy(s, id, i) { StuckHolders(s, id, i); }
    if s.rows[id].payload.Some? {
      assert JobCompleted(s, id) && JobCompleted(t, id);
      forall j: nat | HeldBy(t, id, j) ensures t.relays[j].phase !in {Adding, Acknowledging} {
        if HeldBy(s, id, j) { StuckHolders(s, id, j); }
      }
    }
  }

  lemma StuckStep(s: System, e: Event, id: Id)
    requires Stuck(s, id) && Legal(s, e)
    requires s.rows[id].payload.Some? ==> e != JobRemoved(JobName(s.rows[id].payload.value))
    ensures Stuck(Next(s, e), id) && Next(s, e).rows[id].payload == s.rows[id].payload
  {
    var t := Next(s, e);
    StepKeepsForm(s, e);
    StepKeepsParsed(s, e);
    if e.Advance? {
      StuckAdvance(s, e.relay, id);
    } else if s.rows[id].payload.Some? && |s.relays| > 0 {
      assert JobCompleted(t, id);
      forall j: nat | HeldBy(t, id, j) ensures t.relays[j].phase !in {Adding, Acknowledging} {
        assert HeldBy(s, id, j);
        StuckHolders(s, id, j);
      }
    }
  }

  lemma {:induction false} StuckStays(s: System, es: seq<Event>, id: Id)
    requires Stuck(s, id) && LegalRun(s, es) && KeepsJob(s, id, es)
    ensures Stuck(Run(s, es), id)
    decreases |es|
  {
    if es != [] {
      assert es[0] in es;
      StuckStep(s, es[0], id);
      assert forall e :: e in es[1..] ==> e in es;
      StuckStays(Next(s, es[0]), es[1..], id);
    }
  }

  // ----- what can be processed -----

  /** A relay past asking acknowledges. */
  lemma Confirm(start: System, s: System, i: nat, id: Id) returns (t: System)
    requires WellFormed(start) && Gets(start, s) && WellFormed(s) && HeldBy(s, id, i)
    requires s.rows[id].payload.Some? && s.relays[i].phase in {Adding, Acknowledging}
    ensures Gets(start, t) && Finished(t, id)
  {
    var acknowledging := s;
    if s.relays[i].phase == Adding {
      acknowledging := Stepped(s, i);
      GetsThen(start, s, Advance(i), acknowledging);
    }
    t := Stepped(acknowledging, i);
    GetsThen(start, acknowledging, Advance(i), t);
  }

  /** A relay that has just claimed an event whose job is not completed gets past asking. */
  lemma AskAndConfirm(start: System, s: System, i: nat, id: Id) returns (t: System)
    requires WellFormed(start) && Gets(start, s) && WellFormed(s) && HeldBy(s, id, i) && s.relays[i].phase == Looking
    requires s.rows[id].payload.Some? && !JobCompleted(s, id)
    ensures Gets(start, t) && Finished(t, id)
  {
    var looked := Stepped(s, i);
    GetsThen(start, s, Advance(i), looked);
    if looked.relays[i].phase == Checking {
      var checked := Stepped(looked, i);
      GetsThen(start, looked, Advance(i), checked);
      if checked.relays[i].phase == Retrying {
        var retried := Stepped(checked, i);
        GetsThen(start, checked, Advance(i), retried);
        checked := retried;
      }
      t := Confirm(start, checked, i, id);
    } else {
      t := Confirm(start, looked, i, id);
    }
  }

  /** A relay crashes and time passes until the event is available; then it is claimed and handed over. */
  lemma PollsAndConfirms(s: System, id: Id) returns (es: seq<Event>)
    requires WellFormed(s) && id in s.rows && s.rows[id].status != Processed && s.rows[id].payload.Some?
    requires |s.relays| > 0 && !JobCompleted(s, id)
    ensures Processes(s, es, id) && KeepsJob(s, id, es)
  {
    var wait: nat := if s.rows[id].availableAt > s.now then s.rows[id].availableAt - s.now else 0;
    var idle := Next(s, Crash(0));
    var later := Next(idle, Tick(wait));
    GetsHere(later);
    var held := ComesToHold(later, later, 0, id);
    var t := AskAndConfirm(later, held, 0, id);
    var rest :| Leads(later, rest, t);
    RunCons(idle, Tick(wait), rest);
    RunCons(s, Crash(0), [Tick(wait)] + rest);
    es := [Crash(0)] + ([Tick(wait)] + rest);
    forall e | e in es ensures !e.JobRemoved? {
      assert e == Crash(0) || e == Tick(wait) || e in rest;
    }
  }

  lemma ConfirmedConfirms(s: System, id: Id) returns (es: seq<Event>)
    requires WellFormed(s) && id in s.rows && s.rows[id].payload.Some? && Confirmed(s, id)
    ensures Processes(s, es, id) && KeepsJob(s, id, es)
  {
    var i: nat :| HeldBy(s, id, i) && s.relays[i].phase in {Adding, Acknowledging};
    GetsHere(s);
    var t := Confirm(s, s, i, id);
    es :| Leads(s, es, t);
    forall e | e in es ensures !e.JobRemoved? { assert ByRelay(e); }
  }

  /**
   An unprocessed event can become processed, by a run that keeps its job record, exactly when there is a relay, its
   payload can be parsed, and its job is not completed or some relay is past asking.
   */
  lemma ProcessableExactly(s: System, id: Id)
    requires WellFormed(s) && Parsed(s) && id in s.rows && s.rows[id].status != Processed
    ensures Processable(s, id) <==> exists es :: Processes(s, es, id) && KeepsJob(s, id, es)
  {
    if Processable(s, id) {
      var es: seq<Event>;
      if Confirmed(s, id) { es := ConfirmedConfirms(s, id); } else { es := PollsAndConfirms(s, id); }
      assert Processes(s, es, id) && KeepsJob(s, id, es);
    } else {
      forall es ensures !(Processes(s, es, id) && KeepsJob(s, id, es)) {
        if LegalRun(s, es) && KeepsJob(s, id, es) { StuckStays(s, es, id); }
      }
    }
  }

  /**
   In particular: an event whose job is completed, with no relay past asking, stays unprocessed while the record
   remains.
   */
  lemma CompletedJobBlocks(s: System, es: seq<Event>, id: Id)
    requires WellFormed(s) && Parsed(s) && id in s.rows && s.rows[id].status != Processed && s.rows[id].payload.Some?
    requires JobCompleted(s, id) && !Confirmed(s, id)
    requires LegalRun(s, es) && JobRemoved(JobName(s.rows[id].payload.value)) !in es
    ensures id in Run(s, es).rows && Run(s, es).rows[id].status != Processed
  {
    StuckStays(s, es, id);
  }

  /** Over all runs, only a missing relay or an unreadable payload keep an event from being processed. */
  lemma ReadableIsProcessable(s: System, id: Id)
    requires WellFormed(s) && Parsed(s) && id in s.rows && s.rows[id].status != Processed
    ensures |s.relays| > 0 && s.rows[id].payload.Some? <==> exists es :: Processes(s, es, id)
  {
    if |s.relays| > 0 && s.rows[id].payload.Some? {
      var e := JobRemoved(JobName(s.rows[id].payload.value));
      var es := PollsAndConfirms(Next(s, e), id);
      RunCons(s, e, es);
      assert Processes(s, [e] + es, id);
    } else {
      forall es ensures !Processes(s, es, id) {
        if LegalRun(s, es) { UnreadableStays(s, es, id); }
      }
    }
  }

  lemma {:induction false} UnreadableStays(s: System, es: seq<Event>, id: Id)
    requires Stuck(s, id) && (|s.relays| == 0 || s.rows[id].payload.None?) && LegalRun(s, es)
    ensures Stuck(Run(s, es), id)
    decreases |es|
  {
    if es != [] {
      UnreadableStep(s, es[0], id);
      UnreadableStays(Next(s, es[0]), es[1..], id);
    }
  }

  lemma UnreadableStep(s: System, e: Event, id: Id)
    requires Stuck(s, id) && (|s.relays| == 0 || s.rows[id].payload.None?) && Legal(s, e)
    ensures var t := Next(s, e);
            Stuck(t, id) && (|t.relays| == 0 || t.rows[id].payload.None?)
  {
    StepKeepsForm(s, e);
    StepKeepsParsed(s, e);
    if s.rows[id].payload.None? { StuckStep(s, e, id); }
  }

  // ----- such states are reachable -----

  /** The job has been added and has completed, but the acknowledgement of the event has failed. */
  const BLOCKED := CLAIMED.(relays := [Relay(Failing, [0], LEASE), Relay(Idle, [], 0)],
                   jobs := map["delivery-d" := Completed], added := {"delivery-d"})

  const ADDED :=
    BLOCKED.(relays := [Relay(Acknowledging, [0], LEASE), Relay(Idle, [], 0)], jobs := map["delivery-d" := Live])

  lemma AddRun()
    ensures Reaches(Start(0, 2), ADDED)
  {
    ClaimRun();
    assert JobName("d") == "delivery-d";
    var looked := CLAIMED.(relays := [Relay(Adding, [0], LEASE), Relay(Idle, [], 0)]);
    Then(Start(0, 2), CLAIMED, Advance(0), looked);
    Then(Start(0, 2), looked, Advance(0), ADDED);
  }

  /** Such a state is reachable. */
  lemma BlockedHappens()
    ensures Reaches(Start(0, 2), BLOCKED) && Stuck(BLOCKED, 0) && JobCompleted(BLOCKED, 0)
  {
    AddRun();
    assert JobName("d") == "delivery-d";
    var done := ADDED.(jobs := map["delivery-d" := Completed]);
    Then(Start(0, 2), ADDED, JobEnds("delivery-d", Completed), done);
    Then(Start(0, 2), done, Throw(0), BLOCKED);
  }

  /** A relay that was told to retry the job blocks the event as well once the job has completed. */
  const RETRYING := System(0, map[0 := Row(Some("d"), 0, Processing, LEASE, 1)], map["delivery-d" := Completed],
                           {"delivery-d"}, [Relay(Retrying, [0], LEASE)])

  lemma RetryingIsStuck()
    ensures Stuck(RETRYING, 0)
  {
    assert JobName("d") == "delivery-d";
    forall i: nat ensures !(HeldBy(RETRYING, 0, i) && RETRYING.relays[i].phase in {Adding, Acknowledging}) {}
  }
}
