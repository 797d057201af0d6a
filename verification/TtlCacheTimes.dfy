/**
 What each step of the cache makes of one key and when: which calls load, what a settled load leaves in the map, and how
 long a value may be handed out.
 */
module TtlCacheTimes {
  import opened Wrappers
  import opened TtlCache

  function EntryOf(c: Cache, key: Key): Entry
    requires WellFormed(c) && key in c.map_
  {
    c.entries[c.map_[key]]
  }

  /** Every entry but one is as before. */
  ghost predicate OtherEntriesStay(c: Cache, next: Cache, entry: nat) {
    && |next.entries| == |c.entries|
    && forall i :: 0 <= i < |c.entries| && i != entry ==> next.entries[i] == c.entries[i]
  }

  // ----- calls -----

  /** A call of a key whose entry has not expired starts nothing. */
  lemma FreshCallRests(c: Cache, key: Key, ttl: int, staleTtl: int)
    requires WellFormed(c) && key in c.map_ && c.now < EntryOf(c, key).expiresAt
    ensures GetOrCreate(c, key, ttl, staleTtl) == (c, EntryOf(c, key).value)
  {
  }

  /**
   A call of a key whose entry has expired but is not yet stale hands out the old value and leaves a refresh on the
   entry: the one that is there already, with nothing else changed, or one new load for this very entry.
   */
  lemma StaleCallRefreshes(c: Cache, key: Key, ttl: int, staleTtl: int)
    requires Inv(c) && key in c.map_ && EntryOf(c, key).expiresAt <= c.now < EntryOf(c, key).staleAt
    ensures var (next, p) := GetOrCreate(c, key, ttl, staleTtl);
            var entry := c.map_[key];
            && p == EntryOf(c, key).value && OtherEntriesStay(c, next, entry)
            && next.map_ == c.map_ && next.promises == c.promises && next.now == c.now
            && next.entries[entry].refresh.Some?
            && (EntryOf(c, key).refresh.Some? ==> next == c)
            && (EntryOf(c, key).refresh.None? ==>
                  && next.loads == c.loads + [Refresh(key, entry, ttl, staleTtl, true, true)]
                  && next.entries[entry] == EntryOf(c, key).(refresh := Some(|c.loads|)))
  {
  }

  /** A call of any other key installs an entry that counts its times from the call and waits for one new load. */
  lemma MissLoads(c: Cache, key: Key, ttl: int, staleTtl: int)
    requires Inv(c) && (key in c.map_ ==> EntryOf(c, key).staleAt <= c.now)
    ensures var (next, p) := GetOrCreate(c, key, ttl, staleTtl);
            && p == |c.promises| && next.promises == c.promises + [Pending] && next.now == c.now
            && next.loads == c.loads + [FirstLoad(key, p, true)]
            && WellFormed(next) && key in next.map_ && next.map_ == c.map_[key := next.map_[key]]
            && EntryOf(next, key) == Entry(key, c.now + ttl, c.now + ttl + staleTtl, p, None)
            && forall i :: 0 <= i < |c.entries| ==> next.entries[i] == c.entries[i]
  {
    if key in c.map_ { assert EntryOf(c, key).expiresAt <= EntryOf(c, key).staleAt; }
  }

  // ----- loads -----

  /** A first load that delivers settles the promise of its callers, and nothing else. */
  lemma FirstLoadDelivers(c: Cache, load: nat, data: Data)
    requires Inv(c) && Runs(c, load) && c.loads[load].FirstLoad?
    ensures var next, p := LoadResolves(c, load, data), c.loads[load].promise;
            && next.promises[p] == Resolved(data) && |next.promises| == |c.promises|
            && (forall q :: 0 <= q < |c.promises| && q != p ==> next.promises[q] == c.promises[q])
            && next.map_ == c.map_ && next.entries == c.entries && !Runs(next, load)
  {
  }

  /** A first load that fails rejects the promise of its callers, and frees its key for another load. */
  lemma FirstLoadFails(c: Cache, load: nat)
    requires Inv(c) && Runs(c, load) && c.loads[load].FirstLoad?
    ensures var next, l := LoadRejects(c, load), c.loads[load];
            && next.promises == c.promises[l.promise := Rejected] && next.entries == c.entries && !Runs(next, load)
            && (l.key in next.map_ ==> l.key in c.map_ && next.map_ == c.map_ && EntryOf(c, l.key).value != l.promise)
  {
  }

  /** A refresh that delivers puts its data under its key, with times counted from the delivery. */
  lemma RefreshDelivers(c: Cache, load: nat, data: Data)
    requires Inv(c) && Runs(c, load) && c.loads[load].Refresh?
    ensures var next, l := LoadResolves(c, load, data), c.loads[load];
            && WellFormed(next) && l.key in next.map_ && next.map_ == c.map_[l.key := next.map_[l.key]]
            && EntryOf(next, l.key).expiresAt == c.now + l.ttl
            && EntryOf(next, l.key).staleAt == c.now + l.ttl + l.staleTtl
            && next.promises[EntryOf(next, l.key).value] == Resolved(data)
            && EntryOf(next, l.key).refresh == None
            && c.promises <= next.promises && c.entries <= next.entries && !Runs(next, load)
  {
    ReplaceKeepsRecords(c, load, data);
  }

  /**
   A refresh that fails changes no entry; once its final callback has run, the next call that finds the entry expired
   begins a new refresh.
   */
  lemma FailedRefreshIsRetried(c: Cache, load: nat, key: Key, ttl: int, staleTtl: int)
    requires Inv(c) && Runs(c, load) && c.loads[load].Refresh?
    requires key in c.map_ && c.map_[key] == c.loads[load].entry
             && EntryOf(c, key).expiresAt <= c.now < EntryOf(c, key).staleAt
    ensures var failed := LoadRejects(c, load);
            && failed.entries == c.entries && failed.map_ == c.map_ && failed.promises == c.promises
            && WellFormed(failed) && Ending(failed, load)
            && var ended := Detach(failed, load);
            && WellFormed(ended) && GetOrCreate(ended, key, ttl, staleTtl).1 == EntryOf(c, key).value
            && GetOrCreate(ended, key, ttl, staleTtl).0.loads
               == ended.loads + [Refresh(key, c.map_[key], ttl, staleTtl, true, true)]
  {
    FailedRefreshKeeps(c, load);
    var failed := LoadRejects(c, load);
    DetachKeeps(failed, load);
    StaleCallRefreshes(Detach(failed, load), key, ttl, staleTtl);
  }

  // ----- extensions -----

  /**
   An extension lets the entry be served until the later of its old time and the new one, and touches nothing else.
   */
  lemma ExtendedUntil(c: Cache, key: Key, staleTtl: int, elapsed: nat, ttl: int, staleTtl': int)
    requires Inv(c) && key in c.map_
    ensures var next := ExtendStale(c, key, staleTtl);
            var later := next.(now := c.now + elapsed);
            && next.(entries := c.entries) == c && OtherEntriesStay(c, next, c.map_[key]) && WellFormed(later)
            && next.entries[c.map_[key]] == EntryOf(c, key).(staleAt := next.entries[c.map_[key]].staleAt)
            && (EntryOf(c, key).expiresAt <= later.now ==>
                  (GetOrCreate(later, key, ttl, staleTtl').1 == EntryOf(c, key).value
                   <==> later.now < EntryOf(c, key).staleAt || later.now < c.now + staleTtl))
  {
    ExtendStaleKeeps(c, key, staleTtl);
  }

  // ----- no value is handed out for longer than its window -----

  /** No entry is served, and no refresh will install one to be served, for longer than the window. */
  ghost predicate Within(c: Cache, window: int) {
    && (forall i :: 0 <= i < |c.entries| ==> c.entries[i].staleAt <= c.now + window)
    && (forall l :: 0 <= l < |c.loads| && c.loads[l].Refresh? ==> c.loads[l].ttl + c.loads[l].staleTtl <= window)
  }

  /** Calls ask for no more than the window, and neither do extensions. */
  ghost predicate Asks(e: Event, window: int) {
    (e.Call? ==> e.ttl + e.staleTtl <= window) && (e.Extend? ==> e.staleTtl <= window)
  }

  lemma StepKeepsWithin(c: Cache, e: Event, window: int)
    requires Inv(c) && Legal(c, e) && Within(c, window) && Asks(e, window)
    ensures Within(Next(c, e), window)
  {
  }

  lemma {:induction false} RunKeepsWithin(c: Cache, es: seq<Event>, window: int)
    requires Inv(c) && LegalRun(c, es) && Within(c, window) && forall e :: e in es ==> Asks(e, window)
    ensures Within(Run(c, es), window)
    decreases |es|
  {
    if es != [] {
      assert Asks(es[0], window) && forall e :: e in es[1..] ==> e in es;
      StepKeepsWithin(c, es[0], window);
      StepKeepsInv(c, es[0]);
      RunKeepsWithin(Next(c, es[0]), es[1..], window);
    }
  }

  /** Old entries keep their value and their stale time, and new ones hold new promises. */
  ghost predicate Ages(c: Cache, next: Cache) {
    && |c.entries| <= |next.entries| && |c.promises| <= |next.promises|
    && (forall i :: 0 <= i < |c.entries| ==>
                      next.entries[i].staleAt == c.entries[i].staleAt && next.entries[i].value == c.entries[i].value)
    && (forall i :: |c.entries| <= i < |next.entries| ==> next.entries[i].value >= |c.promises|)
  }

  lemma StepAges(c: Cache, e: Event)
    requires Inv(c) && Legal(c, e) && !e.Extend?
    ensures Ages(c, Next(c, e))
  {
  }

  lemma {:induction false} RunAges(c: Cache, es: seq<Event>)
    requires Inv(c) && LegalRun(c, es) && forall e :: e in es ==> !e.Extend?
    ensures Ages(c, Run(c, es))
    decreases |es|
  {
    if es != [] {
      assert es[0] in es && forall e :: e in es[1..] ==> e in es;
      StepAges(c, es[0]);
      StepKeepsInv(c, es[0]);
      RunAges(Next(c, es[0]), es[1..]);
    }
  }

  /**
   If no call or extension ever asks for more than a window, then once the window has passed since some moment without
   an extension, no call hands out a promise that existed at that moment.
   */
  lemma OldValuesAreGone(before: seq<Event>, es: seq<Event>, window: int, key: Key, ttl: int, staleTtl: int)
    requires LegalRun(EMPTY, before) && forall e :: e in before ==> Asks(e, window)
    requires var c := Run(EMPTY, before);
             && LegalRun(c, es) && Run(c, es).now >= c.now + window
             && forall e :: e in es ==> !e.Extend? && Asks(e, window)
    requires staleTtl >= 0
    ensures var c := Run(EMPTY, before);
            GetOrCreate(Run(c, es), key, ttl, staleTtl).1 >= |c.promises|
  {
    var c := Run(EMPTY, before);
    RunKeepsInv(EMPTY, before);
    RunKeepsWithin(EMPTY, before, window);
    RunKeepsInv(c, es);
    RunAges(c, es);
    var end := Run(c, es);
    ServesUntilStale(end, key, ttl, staleTtl);
  }
}
