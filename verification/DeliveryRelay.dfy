/**
 One relay's poll, run without failures or other relays in between: its result, and that it is a run of the lease
 protocol.
 */
module DeliveryRelay {
  import opened Wrappers
  import opened DeliveryOutbox

  /** The event can be handed over: its payload parses and its job is not completed. */
  predicate Deliverable(row: Row, jobs: map<JobId, JobState>) {
    row.payload.Some? && !(JobName(row.payload.value) in jobs && jobs[JobName(row.payload.value)] == Completed)
  }

  function HandledRow(row: Row, jobs: map<JobId, JobState>, now: int): Row {
    if Deliverable(row, jobs) then row.(status := Processed, availableAt := now + LEASE, attempts := row.attempts + 1)
    else row.(status := Pending, availableAt := now + BACKOFF, attempts := row.attempts + 1)
  }

  function HandledJobs(row: Row, jobs: map<JobId, JobState>): map<JobId, JobState> {
    if Deliverable(row, jobs) then jobs[JobName(row.payload.value) := Live] else jobs
  }

  function HandledAdded(row: Row, jobs: map<JobId, JobState>, added: set<JobId>): set<JobId> {
    if Deliverable(row, jobs) && JobName(row.payload.value) !in jobs then added + {JobName(row.payload.value)}
    else added
  }

  /** The protocol state in which one relay has `todo` left, or is idle. */
  function Polling(now: int, rows: map<Id, Row>, jobs: map<JobId, JobState>, added: set<JobId>, phase: Phase,
                   todo: seq<Id>): System {
    System(now, rows, jobs, added, [Relay(phase, todo, 0)])
  }

  /** Handling a pending event is a run of the protocol. */
  lemma HandlingIsRun(start: System, now: int, rows: map<Id, Row>, jobs: map<JobId, JobState>, added: set<JobId>,
                      todo: seq<Id>)
    requires todo != [] && (forall k :: 0 <= k < |todo| ==> todo[k] in rows) && rows[todo[0]].status == Pending
    requires WellFormed(start) && Reaches(start, Polling(now, rows, jobs, added, Claiming, todo))
    ensures var row := rows[todo[0]];
            Reaches(start,
                    Polling(now, rows[todo[0] := HandledRow(row, jobs, now)], HandledJobs(row, jobs),
                            HandledAdded(row, jobs, added),
                            Claiming, todo[1..]))
  {
    var row := rows[todo[0]];
    var looked := ClaimAndLook(start, now, rows, jobs, added, todo);
    if Deliverable(row, jobs) {
      DeliveryIsRun(start, looked);
    } else {
      RefusalIsRun(start, looked);
    }
    TwoUpdates(rows, todo[0], ClaimedRow(row, now), HandledRow(row, jobs, now));
  }

  function ClaimedRow(row: Row, now: int): Row {
    row.(status := Processing, attempts := row.attempts + 1, availableAt := now + LEASE)
  }

  lemma TwoUpdates(rows: map<Id, Row>, id: Id, first: Row, second: Row)
    ensures rows[id := first][id := second] == rows[id := second]
  {
  }

  /** The first two operations on a pending event. */
  lemma ClaimAndLook(start: System, now: int, rows: map<Id, Row>, jobs: map<JobId, JobState>, added: set<JobId>,
                     todo: seq<Id>)
    returns (looked: System)
    requires todo != [] && (forall k :: 0 <= k < |todo| ==> todo[k] in rows) && rows[todo[0]].status == Pending
    requires WellFormed(start) && Reaches(start, Polling(now, rows, jobs, added, Claiming, todo))
    ensures WellFormed(looked) && Reaches(start, looked)
    ensures looked.(relays := []) == System(now, rows[todo[0] := ClaimedRow(rows[todo[0]], now)], jobs, added, [])
    ensures |looked.relays| == 1 && looked.relays[0].todo == todo
    ensures var payload := rows[todo[0]].payload;
            looked.relays[0].phase
            == (if payload.None? then Failing else if JobName(payload.value) in jobs then Checking else Adding)
  {
    var s := Polling(now, rows, jobs, added, Claiming, todo);
    var claimed := Claim(s, 0);
    Then(start, s, Advance(0), claimed);
    looked := Look(claimed, 0);
    Then(start, claimed, Advance(0), looked);
  }

  /** From a found or missing job that is not completed to the acknowledgement. */
  lemma DeliveryIsRun(start: System, s: System)
    requires WellFormed(start) && Reaches(start, s) && WellFormed(s) && |s.relays| == 1
             && s.relays[0].phase in {Checking, Adding}
    requires Deliverable(s.rows[s.relays[0].todo[0]], s.jobs)
    requires s.relays[0].phase == Adding <==> Wanted(s, 0).value !in s.jobs
    ensures var id := s.relays[0].todo[0];
            Reaches(start,
                    Polling(s.now, s.rows[id := s.rows[id].(status := Processed)], HandledJobs(s.rows[id], s.jobs),
                            HandledAdded(s.rows[id], s.jobs, s.added), Claiming, s.relays[0].todo[1..]))
  {
    var next := Stepped(s, 0);
    Then(start, s, Advance(0), next);
    if next.relays[0].phase == Retrying {
      var retried := Stepped(next, 0);
      Then(start, next, Advance(0), retried);
      next := retried;
    }
    var id := s.relays[0].todo[0];
    assert next.relays[0].phase == Acknowledging && next.jobs == HandledJobs(s.rows[id], s.jobs);
    Then(start, next, Advance(0), Stepped(next, 0));
    assert Stepped(next, 0).relays == [Relay(Claiming, s.relays[0].todo[1..], 0)];
  }

  /** From an unreadable payload or a completed job to the five-second wait. */
  lemma RefusalIsRun(start: System, s: System)
    requires WellFormed(start) && Reaches(start, s) && WellFormed(s) && |s.relays| == 1
             && s.relays[0].phase in {Checking, Failing}
    requires !Deliverable(s.rows[s.relays[0].todo[0]], s.jobs)
    requires s.relays[0].phase == Checking <==> s.rows[s.relays[0].todo[0]].payload.Some?
    ensures var id := s.relays[0].todo[0];
            Reaches(start,
                    Polling(s.now, s.rows[id := s.rows[id].(status := Pending, availableAt := s.now + BACKOFF)], s.jobs,
                            s.added,
                            Claiming, s.relays[0].todo[1..]))
  {
    var next := s;
    if s.relays[0].phase == Checking {
      next := Stepped(s, 0);
      Then(start, s, Advance(0), next);
    }
    Then(start, next, Advance(0), Stepped(next, 0));
    assert Stepped(next, 0).relays == [Relay(Claiming, s.relays[0].todo[1..], 0)];
  }

  /** The first `k` events of the batch have been handled, and nothing else. */
  ghost predicate Handled(swept: map<Id, Row>, jobs0: map<JobId, JobState>, rows: map<Id, Row>,
                          jobs: map<JobId, JobState>, now: int, batch: seq<Id>, k: nat) {
    && k <= |batch| && rows.Keys == swept.Keys
    && (forall m :: 0 <= m < |batch| ==> batch[m] in swept && swept[batch[m]].status == Pending)
    && (forall i, j :: 0 <= i < j < |batch| ==> batch[i] != batch[j])
    && (forall job :: job in jobs && jobs[job] == Completed <==> job in jobs0 && jobs0[job] == Completed)
    && (forall id :: id in rows ==> rows[id] == if id in batch[..k] then HandledRow(swept[id], jobs0, now)
                                                else swept[id])
  }

  lemma HandledStep(swept: map<Id, Row>, jobs0: map<JobId, JobState>, rows: map<Id, Row>, jobs: map<JobId, JobState>,
                    now: int, batch: seq<Id>, k: nat)
    requires k < |batch| && Handled(swept, jobs0, rows, jobs, now, batch, k)
    ensures rows[batch[k]] == swept[batch[k]]
    ensures Handled(swept, jobs0, rows[batch[k] := HandledRow(rows[batch[k]], jobs, now)],
                    HandledJobs(rows[batch[k]], jobs), now, batch, k + 1)
  {
    var id := batch[k];
    assert id !in batch[..k];
    assert Deliverable(swept[id], jobs) == Deliverable(swept[id], jobs0);
    assert batch[..k + 1] == batch[..k] + [id];
  }

  class DeliveryOutboxRelay {
    var running: bool
    var rows: map<Id, Row>
    var jobs: map<JobId, JobState>
    ghost var added: set<JobId>

    constructor ()
      ensures !running && rows == map[] && jobs == map[] && added == {}
    {
      running, rows, jobs, added := false, map[], map[], {};
    }

    /** Asks the queue: retries a failed job, adds a missing one; false where the source throws. */
    method HandOver(row: Row) returns (ok: bool)
      modifies this`jobs, this`added
      ensures ok == Deliverable(row, old(jobs))
      ensures jobs == HandledJobs(row, old(jobs)) && added == HandledAdded(row, old(jobs), old(added))
    {
      if row.payload.None? { return false; }
      var job := JobName(row.payload.value);
      if job in jobs {
        if jobs[job] == Completed { return false; }
        if jobs[job] == Failed { jobs := jobs[job := Live]; }
      } else {
        jobs, added := jobs[job := Live], added + {job};
      }
      return true;
    }

    method Handle(id: Id, now: int)
      requires id in rows
      modifies this`rows, this`jobs, this`added
      ensures if old(rows)[id].status != Pending then rows == old(rows) && jobs == old(jobs) && added == old(added)
              else rows == old(rows)[id := HandledRow(old(rows)[id], old(jobs), now)]
                   && jobs == HandledJobs(old(rows)[id], old(jobs))
                   && added == HandledAdded(old(rows)[id], old(jobs), old(added))
    {
      var row := rows[id];
      if row.status != Pending { return; }
      rows := rows[id := row.(status := Processing, attempts := row.attempts + 1, availableAt := now + LEASE)];
      var ok := HandOver(row);
      if ok {
        rows := rows[id := rows[id].(status := Processed)];
      } else {
        rows := rows[id := rows[id].(status := Pending, availableAt := now + BACKOFF)];
      }
    }

    /** Resets the events whose lease has run out. */
    method Release(now: int)
      modifies this`rows
      ensures rows == map id | id in old(rows) :: SweptRow(old(rows)[id], now)
    {
      rows := map id | id in rows :: SweptRow(rows[id], now);
    }

    /** The loop over the batch. */
    method HandleBatch(now: int, batch: seq<Id>, ghost start: System)
      requires Handled(rows, jobs, rows, jobs, now, batch, 0)
      requires WellFormed(start) && Reaches(start, Polling(now, rows, jobs, added, Claiming, batch))
      modifies this`rows, this`jobs, this`added
      ensures Handled(old(rows), old(jobs), rows, jobs, now, batch, |batch|)
      ensures Reaches(start, Polling(now, rows, jobs, added, Claiming, []))
    {
      var k := 0;
      while k < |batch|
        invariant 0 <= k <= |batch|
        invariant Handled(old(rows), old(jobs), rows, jobs, now, batch, k)
        invariant Reaches(start, Polling(now, rows, jobs, added, Claiming, batch[k..]))
      {
        HandledStep(old(rows), old(jobs), rows, jobs, now, batch, k);
        HandlingIsRun(start, now, rows, jobs, added, batch[k..]);
        assert batch[k..][1..] == batch[k + 1..];
        Handle(batch[k], now);
        k := k + 1;
      }
    }

    /**
     One poll, `batch` being the database's answer. Every event of the batch is handed over or put back with a
     five-second wait; every other event keeps its row, apart from an expired lease. The whole poll is a run of the
     protocol.
     */
    method Poll(now: int, batch: seq<Id>)
      requires Oldest(Sweep(Polling(now, rows, jobs, added, Idle, []), 0), batch)
      modifies this
      ensures old(running) ==> running && rows == old(rows) && jobs == old(jobs) && added == old(added)
      ensures !old(running) ==> !running && Polled(old(rows), old(jobs), rows, now, batch)
      ensures !old(running) ==>
                Reaches(old(Polling(now, rows, jobs, added, Idle, [])), Polling(now, rows, jobs, added, Idle, []))
    {
      if running { return; }
      running := true;
      ghost var start := Polling(now, rows, jobs, added, Idle, []);
      Release(now);
      BatchIsFound(start, batch);
      HandleBatch(now, batch, start);
      PollEnds(start, Polling(now, rows, jobs, added, Claiming, []));
      assert batch[..|batch|] == batch;
      running := false;
    }
  }

  /** What a poll does to the events. */
  ghost predicate Polled(before: map<Id, Row>, jobs: map<JobId, JobState>, after: map<Id, Row>, now: int,
                         batch: seq<Id>) {
    && after.Keys == before.Keys
    && forall id :: id in after ==>
                      after[id] == if id in batch then HandledRow(SweptRow(before[id], now), jobs, now)
                      else SweptRow(before[id], now)
  }

  lemma BatchIsFound(start: System, batch: seq<Id>)
    requires start == Polling(start.now, start.rows, start.jobs, start.added, Idle, [])
             && Oldest(Sweep(start, 0), batch)
    ensures var rows := map id | id in start.rows :: SweptRow(start.rows[id], start.now);
            Reaches(start, Polling(start.now, rows, start.jobs, start.added, Claiming, batch))
  {
    var swept := Sweep(start, 0);
    assert LegalRun(start, []) && Run(start, []) == start;
    Then(start, start, Begin(0), swept);
    Then(start, swept, Find(0, batch), Next(swept, Find(0, batch)));
    assert Next(swept, Find(0, batch)).relays == [Relay(Claiming, batch, 0)];
  }

  lemma PollEnds(start: System, s: System)
    requires WellFormed(start) && Reaches(start, s) && s == Polling(s.now, s.rows, s.jobs, s.added, Claiming, [])
    ensures Reaches(start, Polling(s.now, s.rows, s.jobs, s.added, Idle, []))
  {
    Then(start, s, Advance(0), Stepped(s, 0));
  }
}
