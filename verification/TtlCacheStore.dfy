/**
 The cache object: its methods and callbacks carry out the steps of TtlCache, which keep the invariants by StepKeepsInv.
 */
module TtlCacheStore {
  import opened Wrappers
  import opened Spec = TtlCache

  class TtlCache {
    var now: int
    var map_: map<Key, nat>
    var entries: seq<Entry>
    var promises: seq<Promise>
    var loads: seq<Load>

    constructor ()
      ensures State() == EMPTY
    {
      now, map_, entries, promises, loads := 0, map[], [], [], [];
    }

    function State(): Cache
      reads this
    {
      Cache(now, map_, entries, promises, loads)
    }

    /** Allocates the promise and the running first load, and the entry that holds the promise. */
    method GetOrCreate(key: Key, ttl: int, staleTtl: int) returns (value: nat)
      requires WellFormed(State())
      modifies this
      ensures old(Spec.GetOrCreate(State(), key, ttl, staleTtl)) == (State(), value)
    {
      if key in map_ && entries[map_[key]].expiresAt > now { return entries[map_[key]].value; }
      if key in map_ && entries[map_[key]].staleAt > now {
        var existing := map_[key];
        if entries[existing].refresh.None? {
          entries := entries[existing := entries[existing].(refresh := Some(|loads|))];
          loads := loads + [Refresh(key, existing, ttl, staleTtl, true, true)];
        }
        return entries[existing].value;
      }
      value := |promises|;
      promises, loads := promises + [Pending], loads + [FirstLoad(key, value, true)];
      map_ := map_[key := |entries|];
      entries := entries + [Entry(key, now + ttl, now + ttl + staleTtl, value, None)];
    }

    /** The callbacks of a load that delivers. */
    method OnResolved(load: nat, data: Data)
      requires WellFormed(State()) && Runs(State(), load)
      modifies this
      ensures State() == old(Spec.LoadResolves(State(), load, data))
    {
      var l := loads[load];
      loads := loads[load := l.(running := false)];
      if l.FirstLoad? {
        promises := promises[l.promise := Resolved(data)];
      } else {
        map_ := map_[l.key := |entries|];
        entries := entries + [Entry(l.key, now + l.ttl, now + l.ttl + l.staleTtl, |promises|, None)];
        promises := promises + [Resolved(data)];
      }
    }

    /** The callbacks of a load that fails. */
    method OnRejected(load: nat)
      requires WellFormed(State()) && Runs(State(), load)
      modifies this
      ensures State() == old(Spec.LoadRejects(State(), load))
    {
      var l := loads[load];
      loads := loads[load := l.(running := false)];
      if l.FirstLoad? {
        promises := promises[l.promise := Rejected];
        if l.key in map_ && entries[map_[l.key]].value == l.promise { map_ := map_ - {l.key}; }
      }
    }

    /** Deletes the refresh of the entry it belongs to. */
    method OnFinally(load: nat)
      requires WellFormed(State()) && Ending(State(), load)
      modifies this
      ensures State() == old(Spec.Detach(State(), load))
    {
      var entry := loads[load].entry;
      entries := entries[entry := entries[entry].(refresh := None)];
      loads := loads[load := loads[load].(attached := false)];
    }

    /** The loop over the keys of the map. */
    method DeletePrefix(prefix: Key)
      modifies this`map_
      ensures State() == old(Spec.DeletePrefix(State(), prefix))
    {
      var keys := map_.Keys;
      while keys != {}
        invariant keys <= old(map_).Keys
        invariant map_ == map k | k in old(map_) && (k in keys || !(prefix <= k)) :: old(map_)[k]
        decreases keys
      {
        var key :| key in keys;
        keys := keys - {key};
        if prefix <= key { map_ := map_ - {key}; }
      }
    }

    method ExtendStale(key: Key, staleTtl: int)
      requires WellFormed(State())
      modifies this`entries
      ensures State() == old(Spec.ExtendStale(State(), key, staleTtl))
    {
      if key in map_ {
        var e := entries[map_[key]];
        entries := entries[map_[key] := e.(staleAt := Max(e.staleAt, now + staleTtl))];
      }
    }
  }
}
