/** Concrete runs of the cache in which a refresh outlives the entry it was begun for. */
module TtlCacheRaces {
  import opened Wrappers
  import opened TtlCache

  ghost predicate Reaches(c: Cache, d: Cache)
    requires WellFormed(c)
  {
    exists es :: LegalRun(c, es) && Run(c, es) == d
  }

  lemma {:induction false} RunSnoc(c: Cache, es: seq<Event>, e: Event)
    requires WellFormed(c) && LegalRun(c, es) && Legal(Run(c, es), e) && WellFormed(Next(Run(c, es), e))
    ensures LegalRun(c, es + [e]) && Run(c, es + [e]) == Next(Run(c, es), e)
    decreases |es|
  {
    if es == [] {
      OneStep(c, e);
      assert es + [e] == [e];
    } else {
      RunSnoc(Next(c, es[0]), es[1..], e);
      assert (es + [e])[0] == es[0] && (es + [e])[1..] == es[1..] + [e];
    }
  }

  lemma Then(c: Cache, d: Cache, e: Event, next: Cache)
    requires WellFormed(c) && Reaches(c, d) && WellFormed(d) && Legal(d, e) && Next(d, e) == next && WellFormed(next)
    ensures Reaches(c, next)
  {
    var es :| LegalRun(c, es) && Run(c, es) == d;
    RunSnoc(c, es, e);
  }

  /** The key has been loaded once. */
  const LOADED := Cache(0, map["k" := 0], [Entry("k", 1, 10, 0, None)], [Resolved("old")], [FirstLoad("k", 0, false)])

  /** Its entry has expired, and a call has begun to refresh it. */
  const REFRESHING := Cache(1, map["k" := 0], [Entry("k", 1, 10, 0, Some(1))], [Resolved("old")],
                            [FirstLoad("k", 0, false), Refresh("k", 0, 1, 9, true, true)])

  /** The key has been deleted, and a call has loaded it again. */
  const RELOADED := Cache(1, map["k" := 1], [Entry("k", 1, 10, 0, Some(1)), Entry("k", 2, 11, 1, None)],
                          [Resolved("old"), Resolved("new")],
                          [FirstLoad("k", 0, false), Refresh("k", 0, 1, 9, true, true), FirstLoad("k", 1, false)])

  /** The refresh that was begun before the delete has overwritten the newer entry. */
  const OVERWRITTEN := Cache(1, map["k" := 2],
                             [Entry("k", 1, 10, 0, Some(1)), Entry("k", 2, 11, 1, None), Entry("k", 2, 11, 2, None)],
                             [Resolved("old"), Resolved("new"), Resolved("outdated")],
                             [FirstLoad("k", 0, false), Refresh("k", 0, 1, 9, false, true), FirstLoad("k", 1, false)])

  const CALLED := LOADED.(promises := [Pending], loads := [FirstLoad("k", 0, true)])
  const DELETED := REFRESHING.(map_ := map[])
  const RECALLED :=
    RELOADED.(promises := [Resolved("old"), Pending], loads := REFRESHING.loads + [FirstLoad("k", 1, true)])

  lemma CallRun()
    ensures Reaches(EMPTY, CALLED)
  {
    assert LegalRun(EMPTY, []) && Run(EMPTY, []) == EMPTY;
    Then(EMPTY, EMPTY, Call("k", 1, 9), CALLED);
  }

  lemma LoadRun()
    ensures Reaches(EMPTY, LOADED)
  {
    CallRun();
    Then(EMPTY, CALLED, Resolve(0, "old"), LOADED);
  }

  lemma LateRun()
    ensures Reaches(EMPTY, LOADED.(now := 1))
  {
    LoadRun();
    Then(EMPTY, LOADED, Tick(1), LOADED.(now := 1));
  }

  /** A reachable state in which a refresh of the key is running. */
  lemma RefreshingHappens()
    ensures Reaches(EMPTY, REFRESHING) && RefreshRuns(REFRESHING, "k")
  {
    LateRun();
    Then(EMPTY, LOADED.(now := 1), Call("k", 1, 9), REFRESHING);
    assert Runs(REFRESHING, 1);
  }

  lemma DeleteRun()
    ensures Reaches(EMPTY, DELETED)
  {
    RefreshingHappens();
    assert DeletePrefix(REFRESHING, "k").map_ == map[];
    Then(EMPTY, REFRESHING, Delete("k"), DELETED);
  }

  lemma RecallRun()
    ensures Reaches(EMPTY, RECALLED)
  {
    DeleteRun();
    Then(EMPTY, DELETED, Call("k", 1, 9), RECALLED);
  }

  lemma ReloadRun()
    ensures Reaches(EMPTY, RELOADED)
  {
    RecallRun();
    Then(EMPTY, RECALLED, Resolve(2, "new"), RELOADED);
  }

  /**
   From a reachable state, the completion of an older refresh replaces a newer, fresh entry that has no refresh of its
   own.
   */
  lemma OlderRefreshOverwrites()
    ensures Reaches(EMPTY, RELOADED) && RELOADED.entries[RELOADED.map_["k"]].refresh == None
            && RefreshRuns(RELOADED, "k")
    ensures WellFormed(RELOADED) && Legal(RELOADED, Resolve(1, "outdated"))
            && Next(RELOADED, Resolve(1, "outdated")) == OVERWRITTEN
  {
    ReloadRun();
    assert Runs(RELOADED, 1);
  }
}
