/**
 What a claim, a failure and a delivery leave behind: leases, waiting times, attempts, and jobs that are nobody else's.
 */
module DeliveryTimes {
  import opened Wrappers
  import opened DeliveryOutbox

  // ----- claims -----

  ghost predicate OtherRowsStay(s: System, next: System, id: Id) {
    next.rows.Keys == s.rows.Keys && forall k :: k in s.rows && k != id ==> next.rows[k] == s.rows[k]
  }

  /** The relay is about to claim the event. */
  ghost predicate AtClaim(s: System, i: nat, id: Id) {
    i < |s.relays| && s.relays[i].phase == Claiming && s.relays[i].todo != [] && s.relays[i].todo[0] == id
  }

  /**
   A claim takes a pending event for five minutes and counts as an attempt; any other event is passed over as it is.
   Neither touches the queue.
   */
  lemma ClaimTakesLease(s: System, i: nat, id: Id)
    requires WellFormed(s) && AtClaim(s, i, id)
    ensures id in s.rows
    ensures var next := Stepped(s, i);
            && OtherRowsStay(s, next, id) && |next.relays| == |s.relays| && next.jobs == s.jobs && next.added == s.added
            && (s.rows[id].status == Pending ==>
                  && next.rows[id].status == Processing && next.rows[id].availableAt == s.now + 5 * 60 * 1000
                  && next.rows[id].attempts == s.rows[id].attempts + 1 && next.rows[id].payload == s.rows[id].payload
                  && HeldBy(next, id, i) && next.relays[i].until == s.now + 5 * 60 * 1000)
            && (s.rows[id].status != Pending ==>
                  next.rows == s.rows && !Holding(next.relays[i]) && next.relays[i].todo == s.relays[i].todo[1..])
  {
  }

  ghost predicate Claims(s: System, e: Event, id: Id) {
    e.Advance? && AtClaim(s, e.relay, id) && id in s.rows && s.rows[id].status == Pending
  }

  ghost function ClaimsIn(s: System, es: seq<Event>, id: Id): nat
    requires WellFormed(s) && LegalRun(s, es)
    decreases |es|
  {
    if es == [] then 0 else (if Claims(s, es[0], id) then 1 else 0) + ClaimsIn(Next(s, es[0]), es[1..], id)
  }

  lemma StepCounts(s: System, e: Event, id: Id)
    requires WellFormed(s) && Legal(s, e) && id in s.rows
    ensures id in Next(s, e).rows && Next(s, e).rows[id].payload == s.rows[id].payload
    ensures Next(s, e).rows[id].attempts == s.rows[id].attempts + if Claims(s, e, id) then 1 else 0
  {
  }

  /** Over every run an event keeps its payload and its attempts count its claims. */
  lemma {:induction false} AttemptsCountClaims(s: System, es: seq<Event>, id: Id)
    requires WellFormed(s) && LegalRun(s, es) && id in s.rows
    ensures id in Run(s, es).rows && Run(s, es).rows[id].payload == s.rows[id].payload
    ensures Run(s, es).rows[id].attempts == s.rows[id].attempts + ClaimsIn(s, es, id)
    decreases |es|
  {
    if es != [] {
      StepCounts(s, es[0], id);
      AttemptsCountClaims(Next(s, es[0]), es[1..], id);
    }
  }

  // ----- failures -----

  lemma LeftAloneStep(s: System, e: Event, id: Id)
    requires WellFormed(s) && Legal(s, e) && !Rewrites(s, e, id) && id in s.rows && s.rows[id].status != Processing
    ensures id in Next(s, e).rows && Next(s, e).rows[id].status != Processing
    ensures Next(s, e).rows[id].availableAt == s.rows[id].availableAt
  {
  }

  lemma {:induction false} LeftAloneWaits(s: System, es: seq<Event>, id: Id)
    requires WellFormed(s) && LegalRun(s, es) && LeftAlone(s, es, id) && id in s.rows && s.rows[id].status != Processing
    ensures id in Run(s, es).rows && Run(s, es).rows[id].status != Processing
    ensures Run(s, es).rows[id].availableAt == s.rows[id].availableAt
    decreases |es|
  {
    if es != [] {
      LeftAloneStep(s, es[0], id);
      LeftAloneWaits(Next(s, es[0]), es[1..], id);
    }
  }

  /**
   A failed handling puts the event back for five seconds: over any further run in which it is neither claimed nor put
   back again, it is due exactly when they have passed, unless another holder has marked it processed.
   */
  lemma RetriedAfterWait(s: System, i: nat, id: Id, es: seq<Event>)
    requires WellFormed(s) && HeldBy(s, id, i) && s.relays[i].phase == Failing
    requires WellFormed(Stepped(s, i)) && LegalRun(Stepped(s, i), es) && LeftAlone(Stepped(s, i), es, id)
    ensures var end := Run(Stepped(s, i), es);
            Due(end, id) <==> end.now >= s.now + 5 * 1000 && !Finished(end, id)
  {
    LeftAloneWaits(Stepped(s, i), es, id);
  }

  /** A handling that ends lets go of its event and of nothing else. */
  lemma HandlingEnds(s: System, i: nat, id: Id)
    requires WellFormed(s) && HeldBy(s, id, i) && s.relays[i].phase in {Acknowledging, Failing}
    ensures var next := Stepped(s, i);
            && OtherRowsStay(s, next, id) && next.jobs == s.jobs && |next.relays| == |s.relays|
            && next.rows[id].status == (if s.relays[i].phase == Acknowledging then Processed else Pending)
            && !Holding(next.relays[i]) && next.relays[i].todo == s.relays[i].todo[1..]
  {
  }

  // ----- batches -----

  /** A batch has at most 25 due events, oldest first; it leaves a due event out only if it is full of older ones. */
  lemma BatchesOf25(s: System, batch: seq<Id>, id: Id, k: nat, m: nat)
    requires Oldest(s, batch) && k < |batch|
    ensures |batch| <= 25 && Due(s, batch[k])
    ensures k < m < |batch| ==> batch[k] != batch[m] && s.rows[batch[k]].createdAt <= s.rows[batch[m]].createdAt
    ensures Due(s, id) && id !in batch ==> |batch| == 25 && s.rows[batch[k]].createdAt <= s.rows[id].createdAt
  {
    if Due(s, id) && id !in batch && k < BATCH - 1 {
      assert s.rows[batch[k]].createdAt <= s.rows[batch[BATCH - 1]].createdAt;
    }
  }

  // ----- asking the queue -----

  /** The record of a job in the queue, if there is one. */
  function Record(s: System, job: JobId): Option<JobState> {
    if job in s.jobs then Some(s.jobs[job]) else None
  }

  /**
   What a relay makes of the job of the event it holds: it adds a missing one, retries a failed one, fails on a
   completed one, takes a live one as good, and does the same for one whose record has gone since it looked.
   */
  lemma AskingDecides(s: System, i: nat, id: Id, dispatch: string)
    requires WellFormed(s) && HeldBy(s, id, i) && s.rows[id].payload == Some(dispatch)
    ensures var next, phase, job := Stepped(s, i), s.relays[i].phase, JobName(dispatch);
            && (phase in {Looking, Checking, Retrying, Adding} ==> next.rows == s.rows && HeldBy(next, id, i))
            && (phase == Looking ==>
                  next.jobs == s.jobs
                  && next.relays[i].phase == if Record(s, job).None? then Adding else Checking)
            && (phase == Checking ==>
                  next.jobs == s.jobs
                  && next.relays[i].phase == if Record(s, job) == Some(Failed) then Retrying
                                             else if Record(s, job) == Some(Completed) then Failing else Acknowledging)
            && (phase == Retrying && Record(s, job) == Some(Failed) ==>
                  next.jobs == s.jobs[job := Live] && next.relays[i].phase == Acknowledging)
            && (phase == Retrying && Record(s, job) != Some(Failed) ==>
                  next.jobs == s.jobs && next.relays[i].phase == Failing)
            && (phase == Adding ==>
                  next.relays[i].phase == Acknowledging && (Record(s, job).None? ==> job in next.added)
                  && next.jobs == if Record(s, job).None? then s.jobs[job := Live] else s.jobs)
  {
  }

  /** An event whose payload cannot be parsed fails as soon as it is looked at. */
  lemma UnreadableFails(s: System, i: nat, id: Id)
    requires WellFormed(s) && HeldBy(s, id, i) && s.rows[id].payload == None && s.relays[i].phase == Looking
    ensures Stepped(s, i).relays[i].phase == Failing && Stepped(s, i).jobs == s.jobs && Stepped(s, i).rows == s.rows
  {
  }

  // ----- jobs -----

  /** Different dispatches have different jobs. */
  lemma JobNamesDiffer(d: string, e: string)
    ensures JobName(d) == JobName(e) ==> d == e
  {
    var prefix := "delivery-";
    assert JobName(d)[|prefix|..] == d && JobName(e)[|prefix|..] == e;
  }

  /** Some claimed event asks for the job. */
  ghost predicate Asked(s: System, job: JobId) {
    exists id :: id in s.rows && s.rows[id].attempts > 0 && s.rows[id].payload.Some?
                 && JobName(s.rows[id].payload.value) == job
  }

  /** Held events have been claimed, and so have the events of all jobs that were ever put into the queue. */
  ghost predicate JobsAsked(s: System)
    requires WellFormed(s)
  {
    && (forall i :: 0 <= i < |s.relays| && Holding(s.relays[i]) ==> s.rows[s.relays[i].todo[0]].attempts > 0)
    && (forall job :: job in s.added ==> Asked(s, job))
  }

  lemma AskedStays(s: System, e: Event, job: JobId)
    requires WellFormed(s) && Legal(s, e) && Asked(s, job)
    ensures Asked(Next(s, e), job)
  {
    var id :| id in s.rows && s.rows[id].attempts > 0 && s.rows[id].payload.Some?
              && JobName(s.rows[id].payload.value) == job;
    StepCounts(s, e, id);
  }

  lemma HeldClaimed(s: System, e: Event, i: nat)
    requires WellFormed(s) && JobsAsked(s) && Legal(s, e) && WellFormed(Next(s, e))
    requires i < |Next(s, e).relays| && Holding(Next(s, e).relays[i])
    ensures Next(s, e).rows[Next(s, e).relays[i].todo[0]].attempts > 0
  {
    var id := Next(s, e).relays[i].todo[0];
    if id in s.rows { StepCounts(s, e, id); }
  }

  lemma AddedAsked(s: System, e: Event, job: JobId)
    requires WellFormed(s) && JobsAsked(s) && Legal(s, e) && job in Next(s, e).added
    ensures Asked(Next(s, e), job)
  {
    if job !in s.added {
      var id := s.relays[e.relay].todo[0];
      assert Asked(s, job) by { assert s.rows[id].attempts > 0; }
    }
    AskedStays(s, e, job);
  }

  lemma StepKeepsAsked(s: System, e: Event)
    requires WellFormed(s) && JobsAsked(s) && Legal(s, e)
    ensures WellFormed(Next(s, e)) && JobsAsked(Next(s, e))
  {
    StepKeepsForm(s, e);
    var next := Next(s, e);
    forall i | 0 <= i < |next.relays| && Holding(next.relays[i])
      ensures next.rows[next.relays[i].todo[0]].attempts > 0
    {
      HeldClaimed(s, e, i);
    }
    forall job | job in next.added ensures Asked(next, job) { AddedAsked(s, e, job); }
  }

  lemma {:induction false} RunKeepsAsked(s: System, es: seq<Event>)
    requires WellFormed(s) && JobsAsked(s) && LegalRun(s, es)
    ensures JobsAsked(Run(s, es))
    decreases |es|
  {
    if es != [] {
      StepKeepsAsked(s, es[0]);
      RunKeepsAsked(Next(s, es[0]), es[1..]);
    }
  }

  /**
   Over every run, the queue only ever gets jobs that some claimed event asks for, each under the name of that event's
   dispatch and of no other.
   */
  lemma OnlyAskedJobs(now: int, relays: nat, es: seq<Event>, dispatch: string)
    requires LegalRun(Start(now, relays), es)
    ensures var s := Run(Start(now, relays), es);
            JobName(dispatch) in s.added ==>
              exists id :: id in s.rows && s.rows[id].attempts > 0 && s.rows[id].payload == Some(dispatch)
  {
    RunKeepsAsked(Start(now, relays), es);
    var s := Run(Start(now, relays), es);
    if JobName(dispatch) in s.added {
      var id :| id in s.rows && s.rows[id].attempts > 0 && s.rows[id].payload.Some?
                && JobName(s.rows[id].payload.value) == JobName(dispatch);
      JobNamesDiffer(s.rows[id].payload.value, dispatch);
    }
  }
}
