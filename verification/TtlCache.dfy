/**
 The stale-while-revalidate cache, with its asynchronous loads as steps: calls, load completions, load failures, final
 callbacks, prefix deletes, extensions and clock ticks may come in any order.

 Entry objects have an identity: a pending refresh keeps updating its own entry object even when the map has moved on.
 An entry is therefore named by its position in the list of all entries ever created, and likewise for promises and
 loads.
 */
module TtlCache {
  import opened Wrappers

  type Key = string
  type Data = string

  datatype Promise = Pending | Resolved(data: Data) | Rejected

  datatype Entry = Entry(key: Key, expiresAt: int, staleAt: int, value: nat, refresh: Option<nat>)

  /** `running` until the load settles; a refresh stays `attached` to its entry until its final callback runs. */
  datatype Load =
    | FirstLoad(key: Key, promise: nat, running: bool)
    | Refresh(key: Key, entry: nat, ttl: int, staleTtl: int, running: bool, attached: bool)

  datatype Cache = Cache(now: int, map_: map<Key, nat>, entries: seq<Entry>, promises: seq<Promise>, loads: seq<Load>)

  ghost predicate WellFormed(c: Cache) {
    && (forall k :: k in c.map_ ==> c.map_[k] < |c.entries| && c.entries[c.map_[k]].key == k)
    && (forall i :: 0 <= i < |c.entries| ==> c.entries[i].value < |c.promises|
                                             && (c.entries[i].refresh.Some? ==> c.entries[i].refresh.value < |c.loads|))
    && (forall l :: 0 <= l < |c.loads| ==>
                      if c.loads[l].FirstLoad? then c.loads[l].promise < |c.promises|
                      else c.loads[l].entry < |c.entries|)
  }

  // ----- the operations -----

  /** The entry that the key maps to. */
  function Current(c: Cache, key: Key): Option<Entry>
    requires WellFormed(c)
  {
    if key in c.map_ then Some(c.entries[c.map_[key]]) else None
  }

  function SetRefresh(c: Cache, entry: nat, refresh: Option<nat>): Cache
    requires entry < |c.entries|
  {
    c.(entries := c.entries[entry := c.entries[entry].(refresh := refresh)])
  }

  /** Puts a new entry object into the map. */
  function Install(c: Cache, key: Key, ttl: int, staleTtl: int, value: nat): Cache {
    c.(map_ := c.map_[key := |c.entries|],
    entries := c.entries + [Entry(key, c.now + ttl, c.now + ttl + staleTtl, value, None)])
  }

  /** The key is absent or too old: a new entry is installed at once, holding the promise of its first load. */
  function Miss(c: Cache, key: Key, ttl: int, staleTtl: int): Cache {
    Install(c.(promises := c.promises + [Pending], loads := c.loads + [FirstLoad(key, |c.promises|, true)]),
            key, ttl, staleTtl, |c.promises|)
  }

  /** The entry is stale and nobody refreshes it yet. */
  function StartRefresh(c: Cache, key: Key, ttl: int, staleTtl: int): Cache
    requires WellFormed(c) && key in c.map_
  {
    SetRefresh(c, c.map_[key],
               Some(|c.loads|)).(loads := c.loads + [Refresh(key, c.map_[key], ttl, staleTtl, true, true)])
  }

  /** getOrCreate: the new state and the promise handed to the caller. */
  function GetOrCreate(c: Cache, key: Key, ttl: int, staleTtl: int): (Cache, nat)
    requires WellFormed(c)
  {
    var existing := Current(c, key);
    if existing.Some? && existing.value.expiresAt > c.now then (c, existing.value.value)
    else if existing.Some? && existing.value.staleAt > c.now then
      (if existing.value.refresh.Some? then c else StartRefresh(c, key, ttl, staleTtl), existing.value.value)
    else (Miss(c, key, ttl, staleTtl), |c.promises|)
  }

  function Stop(c: Cache, load: nat): Cache
    requires load < |c.loads|
  {
    c.(loads := c.loads[load := c.loads[load].(running := false)])
  }

  predicate Runs(c: Cache, load: nat) {
    load < |c.loads| && c.loads[load].running
  }

  function Settle(c: Cache, load: nat, p: Promise): Cache
    requires WellFormed(c) && Runs(c, load) && c.loads[load].FirstLoad?
  {
    Stop(c, load).(promises := c.promises[c.loads[load].promise := p])
  }

  /** A refresh delivers: it installs a new entry under its key. */
  function Replace(c: Cache, load: nat, data: Data): Cache
    requires WellFormed(c) && Runs(c, load) && c.loads[load].Refresh?
  {
    var l := c.loads[load];
    Install(Stop(c, load).(promises := c.promises + [Resolved(data)]),
            l.key, l.ttl, l.staleTtl, |c.promises|)
  }

  /** A first load fails: the key is evicted if it still holds the promise of this load. */
  function Evict(c: Cache, load: nat): Cache
    requires WellFormed(c) && Runs(c, load) && c.loads[load].FirstLoad?
  {
    var l := c.loads[load];
    if l.key in c.map_ && c.entries[c.map_[l.key]].value == l.promise
    then Settle(c, load, Rejected).(map_ := c.map_ - {l.key})
    else Settle(c, load, Rejected)
  }

  function LoadResolves(c: Cache, load: nat, data: Data): Cache
    requires WellFormed(c) && Runs(c, load)
  {
    if c.loads[load].FirstLoad? then Settle(c, load, Resolved(data)) else Replace(c, load, data)
  }

  function LoadRejects(c: Cache, load: nat): Cache
    requires WellFormed(c) && Runs(c, load)
  {
    if c.loads[load].FirstLoad? then Evict(c, load) else Stop(c, load)
  }

  predicate Ending(c: Cache, load: nat) {
    load < |c.loads| && c.loads[load].Refresh? && !c.loads[load].running && c.loads[load].attached
  }

  /** The final callback of a settled refresh: its entry is free for another refresh. */
  function Detach(c: Cache, load: nat): Cache
    requires WellFormed(c) && Ending(c, load)
  {
    SetRefresh(c, c.loads[load].entry, None).(loads := c.loads[load := c.loads[load].(attached := false)])
  }

  function DeletePrefix(c: Cache, prefix: Key): Cache {
    c.(map_ := map k | k in c.map_ && !(prefix <= k) :: c.map_[k])
  }

  function Max(a: int, b: int): int { if a >= b then a else b }

  function ExtendStale(c: Cache, key: Key, staleTtl: int): Cache
    requires WellFormed(c)
  {
    if key !in c.map_ then c
    else
      var e := c.entries[c.map_[key]];
      c.(entries := c.entries[c.map_[key] := e.(staleAt := Max(e.staleAt, c.now + staleTtl))])
  }

  // ----- the state machine -----

  datatype Event =
    | Call(key: Key, ttl: int, staleTtl: int)
    | Resolve(load: nat, data: Data)
    | Reject(load: nat)
    | Finally(load: nat)
    | Delete(prefix: Key)
    | Extend(key: Key, staleTtl: int)
    | Tick(elapsed: nat)

  /** Callers pass non-negative stale windows, and only running loads settle. */
  predicate Legal(c: Cache, e: Event) {
    match e
    case Call(_, _, staleTtl) => staleTtl >= 0
    case Resolve(load, _) => Runs(c, load)
    case Reject(load) => Runs(c, load)
    case Finally(load) => Ending(c, load)
    case _ => true
  }

  function Next(c: Cache, e: Event): Cache
    requires WellFormed(c) && Legal(c, e)
  {
    match e
    case Call(key, ttl, staleTtl) => GetOrCreate(c, key, ttl, staleTtl).0
    case Resolve(load, data) => LoadResolves(c, load, data)
    case Reject(load) => LoadRejects(c, load)
    case Finally(load) => Detach(c, load)
    case Delete(prefix) => DeletePrefix(c, prefix)
    case Extend(key, staleTtl) => ExtendStale(c, key, staleTtl)
    case Tick(elapsed) => c.(now := c.now + elapsed)
  }

  // ----- invariants -----

  /** Entries go stale no earlier than they expire. */
  ghost predicate Ordered(c: Cache) {
    && (forall i :: 0 <= i < |c.entries| ==> c.entries[i].expiresAt <= c.entries[i].staleAt)
    && (forall l :: 0 <= l < |c.loads| && c.loads[l].Refresh? ==> c.loads[l].staleTtl >= 0)
  }

  /** An entry's refresh is exactly the refresh load attached to it. */
  ghost predicate RefreshesMatch(c: Cache)
    requires WellFormed(c)
  {
    && (forall i :: 0 <= i < |c.entries| && c.entries[i].refresh.Some? ==>
                      var l := c.entries[i].refresh.value; c.loads[l].Refresh? && c.loads[l].attached
                                                           && c.loads[l].entry == i)
    && (forall l :: 0 <= l < |c.loads| && c.loads[l].Refresh? && c.loads[l].attached ==>
                      c.entries[c.loads[l].entry].refresh == Some(l))
    && (forall l :: 0 <= l < |c.loads| && c.loads[l].Refresh? && c.loads[l].running ==> c.loads[l].attached)
  }

  /** No two entries share a promise, and an unsettled promise belongs to the first load of its entry's key. */
  ghost predicate PromisesMatch(c: Cache)
    requires WellFormed(c)
  {
    && (forall i, j :: 0 <= i < j < |c.entries| ==> c.entries[i].value != c.entries[j].value)
    && (forall l, i :: 0 <= l < |c.loads| && c.loads[l].FirstLoad? && 0 <= i < |c.entries|
                       && c.entries[i].value == c.loads[l].promise ==>
                         c.entries[i].key == c.loads[l].key)
    && (forall l :: 0 <= l < |c.loads| && c.loads[l].FirstLoad? && c.loads[l].running ==>
                      c.promises[c.loads[l].promise] == Pending)
    && (forall l, m :: 0 <= l < m < |c.loads| && c.loads[l].FirstLoad? && c.loads[m].FirstLoad? ==>
                         c.loads[l].promise != c.loads[m].promise)
  }

  ghost predicate NoneRejected(c: Cache)
    requires WellFormed(c)
  {
    forall k :: k in c.map_ ==> c.promises[c.entries[c.map_[k]].value] != Rejected
  }

  ghost predicate Inv(c: Cache) {
    WellFormed(c) && Ordered(c) && RefreshesMatch(c) && PromisesMatch(c) && NoneRejected(c)
  }

  // ----- every operation keeps the invariants -----

  lemma MissKeepsRecords(c: Cache, key: Key, ttl: int, staleTtl: int)
    requires Inv(c) && staleTtl >= 0
    ensures var next := Miss(c, key, ttl, staleTtl); WellFormed(next) && Ordered(next) && NoneRejected(next)
  {
  }

  lemma MissKeepsRefreshes(c: Cache, key: Key, ttl: int, staleTtl: int)
    requires Inv(c) && WellFormed(Miss(c, key, ttl, staleTtl))
    ensures RefreshesMatch(Miss(c, key, ttl, staleTtl))
  {
  }

  lemma MissKeepsPromises(c: Cache, key: Key, ttl: int, staleTtl: int)
    requires Inv(c) && WellFormed(Miss(c, key, ttl, staleTtl))
    ensures PromisesMatch(Miss(c, key, ttl, staleTtl))
  {
  }

  lemma MissKeeps(c: Cache, key: Key, ttl: int, staleTtl: int)
    requires Inv(c) && staleTtl >= 0
    ensures Inv(Miss(c, key, ttl, staleTtl))
  {
    MissKeepsRecords(c, key, ttl, staleTtl);
    MissKeepsRefreshes(c, key, ttl, staleTtl);
    MissKeepsPromises(c, key, ttl, staleTtl);
  }

  lemma StartRefreshKeepsRecords(c: Cache, key: Key, ttl: int, staleTtl: int)
    requires Inv(c) && staleTtl >= 0 && key in c.map_ && c.entries[c.map_[key]].refresh == None
    ensures var next := StartRefresh(c, key, ttl, staleTtl); WellFormed(next) && Ordered(next) && NoneRejected(next)
  {
  }

  lemma StartRefreshKeepsRefreshes(c: Cache, key: Key, ttl: int, staleTtl: int)
    requires Inv(c) && key in c.map_ && c.entries[c.map_[key]].refresh == None
             && WellFormed(StartRefresh(c, key, ttl, staleTtl))
    ensures RefreshesMatch(StartRefresh(c, key, ttl, staleTtl))
  {
  }

  lemma StartRefreshKeepsPromises(c: Cache, key: Key, ttl: int, staleTtl: int)
    requires Inv(c) && key in c.map_ && WellFormed(StartRefresh(c, key, ttl, staleTtl))
    ensures PromisesMatch(StartRefresh(c, key, ttl, staleTtl))
  {
    var next := StartRefresh(c, key, ttl, staleTtl);
    assert forall i :: 0 <= i < |next.entries| ==>
                         next.entries[i].value == c.entries[i].value && next.entries[i].key == c.entries[i].key;
    assert forall l :: 0 <= l < |next.loads| && next.loads[l].FirstLoad? ==>
                         l < |c.loads| && next.loads[l] == c.loads[l];
  }

  lemma StartRefreshKeeps(c: Cache, key: Key, ttl: int, staleTtl: int)
    requires Inv(c) && staleTtl >= 0 && key in c.map_ && c.entries[c.map_[key]].refresh == None
    ensures Inv(StartRefresh(c, key, ttl, staleTtl))
  {
    StartRefreshKeepsRecords(c, key, ttl, staleTtl);
    StartRefreshKeepsRefreshes(c, key, ttl, staleTtl);
    StartRefreshKeepsPromises(c, key, ttl, staleTtl);
  }

  lemma ReplaceKeepsRecords(c: Cache, load: nat, data: Data)
    requires Inv(c) && Runs(c, load) && c.loads[load].Refresh?
    ensures var next := Replace(c, load, data); WellFormed(next) && Ordered(next) && NoneRejected(next)
  {
  }

  lemma ReplaceKeepsRefreshes(c: Cache, load: nat, data: Data)
    requires Inv(c) && Runs(c, load) && c.loads[load].Refresh?
    ensures var next := Replace(c, load, data); WellFormed(next) && RefreshesMatch(next)
  {
    ReplaceKeepsRecords(c, load, data);
  }

  lemma ReplaceKeepsPromises(c: Cache, load: nat, data: Data)
    requires Inv(c) && Runs(c, load) && c.loads[load].Refresh?
    ensures var next := Replace(c, load, data); WellFormed(next) && PromisesMatch(next)
  {
    ReplaceKeepsRecords(c, load, data);
  }

  lemma ReplaceKeeps(c: Cache, load: nat, data: Data)
    requires Inv(c) && Runs(c, load) && c.loads[load].Refresh?
    ensures Inv(Replace(c, load, data))
  {
    ReplaceKeepsRecords(c, load, data);
    ReplaceKeepsRefreshes(c, load, data);
    ReplaceKeepsPromises(c, load, data);
  }

  lemma EvictKeepsRecords(c: Cache, load: nat)
    requires Inv(c) && Runs(c, load) && c.loads[load].FirstLoad?
    ensures var next := Evict(c, load); WellFormed(next) && Ordered(next) && RefreshesMatch(next)
  {
  }

  lemma EvictKeepsPromises(c: Cache, load: nat)
    requires Inv(c) && Runs(c, load) && c.loads[load].FirstLoad?
    ensures var next := Evict(c, load); WellFormed(next) && PromisesMatch(next)
  {
  }

  /** The rejected promise leaves the map with the only entry that can hold it. */
  lemma EvictKeepsAccepted(c: Cache, load: nat)
    requires Inv(c) && Runs(c, load) && c.loads[load].FirstLoad?
    ensures var next := Evict(c, load); WellFormed(next) && NoneRejected(next)
  {
    var l := c.loads[load];
    forall k | k in c.map_ && c.entries[c.map_[k]].value == l.promise ensures k == l.key {
      assert c.entries[c.map_[k]].key == k;
    }
  }

  lemma EvictKeeps(c: Cache, load: nat)
    requires Inv(c) && Runs(c, load) && c.loads[load].FirstLoad?
    ensures Inv(Evict(c, load))
  {
    EvictKeepsRecords(c, load);
    EvictKeepsPromises(c, load);
    EvictKeepsAccepted(c, load);
  }

  lemma FailedRefreshKeeps(c: Cache, load: nat)
    requires Inv(c) && Runs(c, load) && c.loads[load].Refresh?
    ensures Inv(LoadRejects(c, load))
  {
  }

  lemma DetachKeeps(c: Cache, load: nat)
    requires Inv(c) && Ending(c, load)
    ensures Inv(Detach(c, load))
  {
  }

  lemma DeletePrefixKeeps(c: Cache, prefix: Key)
    requires Inv(c)
    ensures Inv(DeletePrefix(c, prefix))
  {
  }

  lemma ExtendStaleKeeps(c: Cache, key: Key, staleTtl: int)
    requires Inv(c)
    ensures Inv(ExtendStale(c, key, staleTtl))
  {
    var next := ExtendStale(c, key, staleTtl);
    assert forall i :: 0 <= i < |next.entries| ==> next.entries[i] == c.entries[i].(staleAt := next.entries[i].staleAt)
                                                   && next.entries[i].staleAt >= c.entries[i].staleAt;
  }

  lemma SettleKeeps(c: Cache, load: nat, data: Data)
    requires Inv(c) && Runs(c, load) && c.loads[load].FirstLoad?
    ensures Inv(Settle(c, load, Resolved(data)))
  {
  }

  lemma StepKeepsInv(c: Cache, e: Event)
    requires Inv(c) && Legal(c, e)
    ensures Inv(Next(c, e))
  {
    match e {
      case Call(key, ttl, staleTtl) =>
        var existing := Current(c, key);
        if existing.None? || existing.value.staleAt <= c.now {
          MissKeeps(c, key, ttl, staleTtl);
        } else if existing.value.expiresAt <= c.now && existing.value.refresh.None? {
          StartRefreshKeeps(c, key, ttl, staleTtl);
        }
      case Resolve(load, data) =>
        if c.loads[load].FirstLoad? { SettleKeeps(c, load, data); } else { ReplaceKeeps(c, load, data); }
      case Reject(load) =>
        if c.loads[load].FirstLoad? { EvictKeeps(c, load); } else { FailedRefreshKeeps(c, load); }
      case Finally(load) => DetachKeeps(c, load);
      case Delete(prefix) => DeletePrefixKeeps(c, prefix);
      case Extend(key, staleTtl) => ExtendStaleKeeps(c, key, staleTtl);
      case Tick(_) =>
    }
  }

  // ----- runs -----

  ghost predicate LegalRun(c: Cache, es: seq<Event>)
    requires WellFormed(c)
    decreases |es|
  {
    es != [] ==> Legal(c, es[0]) && WellFormed(Next(c, es[0])) && LegalRun(Next(c, es[0]), es[1..])
  }

  ghost function Run(c: Cache, es: seq<Event>): (r: Cache)
    requires WellFormed(c) && LegalRun(c, es)
    ensures WellFormed(r)
    decreases |es|
  {
    if es == [] then c else Run(Next(c, es[0]), es[1..])
  }

  const EMPTY := Cache(0, map[], [], [], [])

  lemma {:induction false} RunKeepsInv(c: Cache, es: seq<Event>)
    requires Inv(c) && LegalRun(c, es)
    ensures Inv(Run(c, es))
    decreases |es|
  {
    if es != [] {
      StepKeepsInv(c, es[0]);
      RunKeepsInv(Next(c, es[0]), es[1..]);
    }
  }

  /** The entry that a running refresh belongs to. */
  function RefreshOf(c: Cache, load: nat): Option<nat> {
    if Runs(c, load) && c.loads[load].Refresh? then Some(c.loads[load].entry) else None
  }

  /**
   In every interleaving: entries go stale no earlier than they expire, an entry never has two refreshes running,
   and the map never holds a rejected promise.
   */
  lemma CacheIsSafe(es: seq<Event>, key: Key, l: nat, m: nat)
    requires LegalRun(EMPTY, es)
    ensures var c := Run(EMPTY, es);
            && (key in c.map_ ==> c.entries[c.map_[key]].expiresAt <= c.entries[c.map_[key]].staleAt
                                  && c.promises[c.entries[c.map_[key]].value] != Rejected)
            && (RefreshOf(c, l).Some? && RefreshOf(c, l) == RefreshOf(c, m) ==> l == m)
  {
    RunKeepsInv(EMPTY, es);
    var c := Run(EMPTY, es);
    if RefreshOf(c, l).Some? && RefreshOf(c, l) == RefreshOf(c, m) {
      assert c.entries[c.loads[l].entry].refresh == Some(l);
      assert c.entries[c.loads[m].entry].refresh == Some(m);
    }
  }

  // ----- what a caller gets -----

  /**
   A call is answered from the map exactly while the key's entry is not yet stale; otherwise it starts a first load.
   */
  lemma ServesUntilStale(c: Cache, key: Key, ttl: int, staleTtl: int)
    requires Inv(c) && staleTtl >= 0
    ensures var (next, p) := GetOrCreate(c, key, ttl, staleTtl);
            if key in c.map_ && c.now < c.entries[c.map_[key]].staleAt
            then p == c.entries[c.map_[key]].value && next.map_ == c.map_ && next.promises == c.promises
            else p == |c.promises| && |next.loads| == |c.loads| + 1 && next.loads[|c.loads|] == FirstLoad(key, p, true)
                 && key in next.map_ && next.entries[next.map_[key]].value == p
  {
    if key in c.map_ { assert c.entries[c.map_[key]].expiresAt <= c.entries[c.map_[key]].staleAt; }
  }

  /** The step deletes the key, evicts its entry or replaces it. */
  ghost predicate Disturbs(c: Cache, e: Event, key: Key)
    requires WellFormed(c) && Legal(c, e)
  {
    match e
    case Delete(prefix) => prefix <= key
    case Resolve(load, _) => c.loads[load].Refresh? && c.loads[load].key == key
    case Reject(load) =>
      c.loads[load].FirstLoad? && c.loads[load].key == key && key in c.map_
      && c.entries[c.map_[key]].value == c.loads[load].promise
    case _ => false
  }

  ghost predicate Undisturbed(c: Cache, es: seq<Event>, key: Key)
    requires WellFormed(c) && LegalRun(c, es)
    decreases |es|
  {
    es != [] ==> !Disturbs(c, es[0], key) && Undisturbed(Next(c, es[0]), es[1..], key)
  }

  lemma {:induction false} TimePasses(c: Cache, es: seq<Event>)
    requires WellFormed(c) && LegalRun(c, es)
    ensures Run(c, es).now >= c.now
    decreases |es|
  {
    if es != [] { TimePasses(Next(c, es[0]), es[1..]); }
  }

  /** The key still has the entry, with the same promise and the same times of expiry. */
  ghost predicate SameEntry(c: Cache, next: Cache, key: Key)
    requires WellFormed(c) && WellFormed(next) && key in c.map_
  {
    && key in next.map_ && next.map_[key] == c.map_[key]
    && next.entries[next.map_[key]].value == c.entries[c.map_[key]].value
    && next.entries[next.map_[key]].expiresAt == c.entries[c.map_[key]].expiresAt
  }

  lemma FreshStep(c: Cache, e: Event, key: Key)
    requires Inv(c) && Legal(c, e) && !Disturbs(c, e, key) && key in c.map_ && c.now < c.entries[c.map_[key]].expiresAt
    requires WellFormed(Next(c, e))
    ensures SameEntry(c, Next(c, e), key)
  {
    if e.Call? { FreshCall(c, e.key, e.ttl, e.staleTtl, key); }
    if e.Resolve? || e.Reject? { FreshSettle(c, e, key); }
  }

  lemma FreshCall(c: Cache, called: Key, ttl: int, staleTtl: int, key: Key)
    requires WellFormed(c) && key in c.map_ && c.now < c.entries[c.map_[key]].expiresAt
    requires WellFormed(GetOrCreate(c, called, ttl, staleTtl).0)
    ensures SameEntry(c, GetOrCreate(c, called, ttl, staleTtl).0, key)
  {
  }

  lemma FreshSettle(c: Cache, e: Event, key: Key)
    requires WellFormed(c) && Legal(c, e) && !Disturbs(c, e, key) && key in c.map_ && (e.Resolve? || e.Reject?)
    requires WellFormed(Next(c, e))
    ensures SameEntry(c, Next(c, e), key)
  {
  }

  lemma {:induction false} StaysFresh(c: Cache, es: seq<Event>, key: Key)
    requires Inv(c) && LegalRun(c, es) && Undisturbed(c, es, key) && key in c.map_
    requires Run(c, es).now < c.entries[c.map_[key]].expiresAt
    ensures SameEntry(c, Run(c, es), key)
    decreases |es|
  {
    if es != [] {
      TimePasses(c, es);
      FreshStep(c, es[0], key);
      StepKeepsInv(c, es[0]);
      StaysFresh(Next(c, es[0]), es[1..], key);
    }
  }

  /**
   Calls share one load: after a call, until its entry expires or its key is deleted, evicted or replaced, and whatever
   else happens meanwhile, every call of the key gets the same promise and starts nothing.
   */
  lemma CallsCoalesce(c: Cache, key: Key, ttl: int, staleTtl: int, es: seq<Event>, ttl': int, staleTtl': int)
    requires Inv(c) && staleTtl >= 0
    requires var c1 := GetOrCreate(c, key, ttl, staleTtl).0;
             && WellFormed(c1) && key in c1.map_ && LegalRun(c1, es) && Undisturbed(c1, es, key)
             && Run(c1, es).now < c1.entries[c1.map_[key]].expiresAt
    ensures var (c1, p1) := GetOrCreate(c, key, ttl, staleTtl);
            var end := Run(c1, es);
            GetOrCreate(end, key, ttl', staleTtl') == (end, p1)
  {
    var (c1, p1) := GetOrCreate(c, key, ttl, staleTtl);
    InvAfterCall(c, key, ttl, staleTtl);
    StaysFresh(c1, es, key);
    AnsweredFresh(c1, Run(c1, es), key, ttl', staleTtl');
  }

  lemma InvAfterCall(c: Cache, key: Key, ttl: int, staleTtl: int)
    requires Inv(c) && staleTtl >= 0
    ensures var (c1, p1) := GetOrCreate(c, key, ttl, staleTtl);
            Inv(c1) && key in c1.map_ && p1 == c1.entries[c1.map_[key]].value
  {
    StepKeepsInv(c, Call(key, ttl, staleTtl));
  }

  lemma AnsweredFresh(c: Cache, end: Cache, key: Key, ttl: int, staleTtl: int)
    requires WellFormed(c) && WellFormed(end) && key in c.map_ && SameEntry(c, end, key)
             && end.now < c.entries[c.map_[key]].expiresAt
    ensures GetOrCreate(end, key, ttl, staleTtl) == (end, c.entries[c.map_[key]].value)
  {
  }

  /** The failure of a first load touches only an entry that still holds that load's promise. */
  lemma OldFailureKeepsNewer(c: Cache, load: nat, key: Key)
    requires Inv(c) && Runs(c, load)
    ensures var next := LoadRejects(c, load);
            if key in c.map_ && c.loads[load].FirstLoad? && c.entries[c.map_[key]].value == c.loads[load].promise
            then key !in next.map_
            else (key in next.map_ <==> key in c.map_) && (key in c.map_ ==> next.map_[key] == c.map_[key])
  {
    if key in c.map_ && c.loads[load].FirstLoad? && c.entries[c.map_[key]].value == c.loads[load].promise {
      assert c.entries[c.map_[key]].key == c.loads[load].key;
    }
  }

  // ----- a deleted key may come back -----

  ghost predicate RefreshRuns(c: Cache, key: Key) {
    exists l: nat :: Runs(c, l) && c.loads[l].Refresh? && c.loads[l].key == key
  }

  ghost predicate NoCalls(es: seq<Event>, key: Key) {
    forall e :: e in es && e.Call? ==> e.key != key
  }

  lemma AbsentStep(c: Cache, e: Event, key: Key)
    requires Inv(c) && Legal(c, e) && key !in c.map_ && !RefreshRuns(c, key) && (e.Call? ==> e.key != key)
    ensures key !in Next(c, e).map_ && !RefreshRuns(Next(c, e), key)
  {
    var next := Next(c, e);
    forall l: nat | Runs(next, l) && next.loads[l].Refresh? ensures next.loads[l].key != key {
      if l < |c.loads| { assert Runs(c, l); }
    }
  }

  lemma {:induction false} StaysAbsent(c: Cache, es: seq<Event>, key: Key)
    requires Inv(c) && LegalRun(c, es) && key !in c.map_ && !RefreshRuns(c, key) && NoCalls(es, key)
    ensures key !in Run(c, es).map_
    decreases |es|
  {
    if es != [] {
      assert es[0] in es;
      AbsentStep(c, es[0], key);
      StepKeepsInv(c, es[0]);
      assert forall e :: e in es[1..] ==> e in es;
      StaysAbsent(Next(c, es[0]), es[1..], key);
    }
  }

  lemma RefreshReturns(c: Cache, prefix: Key, key: Key)
    requires Inv(c) && prefix <= key && RefreshRuns(c, key) && Inv(DeletePrefix(c, prefix))
    ensures exists es :: LegalRun(DeletePrefix(c, prefix), es) && NoCalls(es, key)
                         && key in Run(DeletePrefix(c, prefix), es).map_
  {
    var d := DeletePrefix(c, prefix);
    var l: nat :| Runs(c, l) && c.loads[l].Refresh? && c.loads[l].key == key;
    DeliveryReturns(d, l, key);
    assert NoCalls([Resolve(l, "")], key);
  }

  lemma DeliveryReturns(d: Cache, l: nat, key: Key)
    requires Inv(d) && Runs(d, l) && d.loads[l].Refresh? && d.loads[l].key == key
    ensures LegalRun(d, [Resolve(l, "")]) && key in Run(d, [Resolve(l, "")]).map_
  {
    ReplaceKeepsRecords(d, l, "");
    OneStep(d, Resolve(l, ""));
  }

  lemma OneStep(c: Cache, e: Event)
    requires WellFormed(c) && Legal(c, e) && WellFormed(Next(c, e))
    ensures LegalRun(c, [e]) && Run(c, [e]) == Next(c, e)
  {
    assert [e][1..] == [] && LegalRun(Next(c, e), []);
  }

  lemma NothingReturns(c: Cache, prefix: Key, key: Key)
    requires Inv(c) && prefix <= key && !RefreshRuns(c, key) && Inv(DeletePrefix(c, prefix))
    ensures forall es :: LegalRun(DeletePrefix(c, prefix), es) && NoCalls(es, key) ==>
                           key !in Run(DeletePrefix(c, prefix), es).map_
  {
    var d := DeletePrefix(c, prefix);
    assert !RefreshRuns(d, key) by {
      if l: nat :| Runs(d, l) && d.loads[l].Refresh? && d.loads[l].key == key { assert Runs(c, l); }
    }
    forall es | LegalRun(d, es) && NoCalls(es, key) ensures key !in Run(d, es).map_ { StaysAbsent(d, es, key); }
  }

  /**
   After a prefix delete a key can come back without being asked for exactly when a refresh of it was running: the
   delete does not cancel the refresh, whose completion installs the key again.
   */
  lemma DeletedKeyReturns(c: Cache, prefix: Key, key: Key)
    requires Inv(c) && prefix <= key
    ensures Inv(DeletePrefix(c, prefix)) && key !in DeletePrefix(c, prefix).map_
    ensures RefreshRuns(c, key) <==>
            exists es :: LegalRun(DeletePrefix(c, prefix), es) && NoCalls(es, key)
                         && key in Run(DeletePrefix(c, prefix), es).map_
  {
    DeletePrefixKeeps(c, prefix);
    if RefreshRuns(c, key) { RefreshReturns(c, prefix, key); }
    if !RefreshRuns(c, key) { NothingReturns(c, prefix, key); }
  }

  // ----- an entry may be replaced uncalled -----

  lemma {:induction false} KeptOrGone(c: Cache, es: seq<Event>, key: Key)
    requires Inv(c) && LegalRun(c, es) && !RefreshRuns(c, key) && NoCalls(es, key) && key in c.map_
    ensures key in Run(c, es).map_ ==> Run(c, es).map_[key] == c.map_[key]
    decreases |es|
  {
    if es != [] {
      var next := Next(c, es[0]);
      assert es[0] in es;
      assert forall e :: e in es[1..] ==> e in es;
      KeptOrGoneStep(c, es[0], key);
      StepKeepsInv(c, es[0]);
      if key in next.map_ { KeptOrGone(next, es[1..], key); } else { StaysAbsent(next, es[1..], key); }
    }
  }

  lemma KeptOrGoneStep(c: Cache, e: Event, key: Key)
    requires Inv(c) && Legal(c, e) && !RefreshRuns(c, key) && (e.Call? ==> e.key != key) && key in c.map_
    ensures !RefreshRuns(Next(c, e), key) && (key in Next(c, e).map_ ==> Next(c, e).map_[key] == c.map_[key])
  {
    var next := Next(c, e);
    forall l: nat | Runs(next, l) && next.loads[l].Refresh? ensures next.loads[l].key != key {
      if l < |c.loads| { assert Runs(c, l); }
    }
    if e.Resolve? && c.loads[e.load].Refresh? { assert c.loads[e.load].key != key; }
  }

  /** A run without calls of the key after which the key has another entry. */
  ghost predicate Replaces(c: Cache, es: seq<Event>, key: Key)
    requires WellFormed(c) && key in c.map_
  {
    LegalRun(c, es) && NoCalls(es, key) && key in Run(c, es).map_ && Run(c, es).map_[key] != c.map_[key]
  }

  /**
   An entry can be replaced without a call exactly when a refresh of its key is running. If the entry has no refresh of
   its own, that refresh was begun for an older entry, and its value overwrites the newer one.
   */
  lemma ReplacedExactly(c: Cache, key: Key)
    requires Inv(c) && key in c.map_
    ensures RefreshRuns(c, key) <==> exists es :: Replaces(c, es, key)
  {
    if l: nat :| Runs(c, l) && c.loads[l].Refresh? && c.loads[l].key == key {
      ReplaceKeepsRecords(c, l, "");
      OneStep(c, Resolve(l, ""));
      assert Replaces(c, [Resolve(l, "")], key);
    } else {
      forall es ensures !Replaces(c, es, key) {
        if LegalRun(c, es) && NoCalls(es, key) { KeptOrGone(c, es, key); }
      }
    }
  }
}
