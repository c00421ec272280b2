/**
 The watchdog over many process lives: each life boots from the disk the previous one left, and may
 end after any cycle. The restart budget holds across all of them.
 */
module WatchdogLives {
  import opened Common
  import opened Settings
  import opened Verdicts
  import opened RestartGuard
  import opened RestartHistory
  import opened Recovery
  import opened WatchdogLoop
  import opened WatchdogRuns

  /** The process of the last of these lives, which began on disk `d`. */
  function Current(cfg: Config, d: Disk, lives: seq<seq<World>>): System
    decreases |lives|, 1
  {
    if lives == [] then Boot(d) else After(cfg, Boot(DiskBefore(cfg, d, lives)), Last(lives))
  }

  /** The disk that the last life found. */
  function DiskBefore(cfg: Config, d: Disk, lives: seq<seq<World>>): Disk
    requires lives != []
    decreases |lives|, 0
  {
    Current(cfg, d, Front(lives)).disk
  }

  /** Every restart Docker carried out in any of the lives. */
  function AllRestarts(cfg: Config, d: Disk, lives: seq<seq<World>>): seq<RestartRecord> {
    if lives == [] then []
    else AllRestarts(cfg, d, Front(lives)) + FullLog(cfg, Boot(DiskBefore(cfg, d, lives)), Last(lives)).records
  }

  predicate RestartsIn(cfg: Config, s: System, w: World) {
    s.progress.None? && Cycle(cfg, s, w).system.progress.Some?
  }

  /** A restarting cycle as the history sees it. */
  function AttemptOf(cfg: Config, s: System, w: World): StoreEvent
    requires RestartsIn(cfg, s, w)
  {
    var f := Cycle(cfg, s, w).system.progress.value.trigger;
    Restart(Attempt(f, Observed(cfg, s, w).databaseStreak, Probe(f, w), w.askedAt, w.recordedAt, true, w.saveSteps, false))
  }

  function LifeEvents(cfg: Config, s: System, ws: seq<World>): seq<StoreEvent> {
    if ws == [] then []
    else
      var before := After(cfg, s, Front(ws));
      LifeEvents(cfg, s, Front(ws)) + if RestartsIn(cfg, before, Last(ws)) then [AttemptOf(cfg, before, Last(ws))] else []
  }

  function StoreEvents(cfg: Config, d: Disk, lives: seq<seq<World>>): seq<StoreEvent> {
    if lives == [] then []
    else
      StoreEvents(cfg, d, Front(lives)) + [Recreate] + LifeEvents(cfg, Boot(DiskBefore(cfg, d, lives)), Last(lives))
  }

  /** The ledger `l` knows what system `s` remembers, and `restarts` are all that happened. */
  ghost predicate Agrees(l: Ledger, s: System, restarts: seq<RestartRecord>) {
    l.memory == s.history && l.disk == s.disk && l.successes == restarts
  }

  lemma CycleIsReplayed(cfg: Config, l: Ledger, s: System, w: World, restarts: seq<RestartRecord>)
    requires cfg.Valid() && SystemInv(cfg, s) && Agrees(l, s, restarts)
    ensures var after := Cycle(cfg, s, w).system;
            if RestartsIn(cfg, s, w)
            then Agrees(LedgerStep(cfg, l, AttemptOf(cfg, s, w)), after,
                        restarts + [RestartRecord(w.recordedAt, after.progress.value.trigger)])
            else Agrees(l, after, restarts)
  {
    CycleRecords(cfg, s, w);
  }

  lemma OneMoreRecord(restarts: seq<RestartRecord>, log: seq<RestartRecord>, r: RestartRecord)
    ensures restarts + log + [r] == restarts + (log + [r])
  {
  }

  lemma {:induction false} LifeIsReplayed(cfg: Config, d: Disk, es: seq<StoreEvent>, s: System, ws: seq<World>, restarts: seq<RestartRecord>)
    requires cfg.Valid() && SystemInv(cfg, s) && Agrees(Replay(cfg, d, es), s, restarts)
    ensures var after := After(cfg, s, ws);
            && SystemInv(cfg, after)
            && Agrees(Replay(cfg, d, es + LifeEvents(cfg, s, ws)), after, restarts + FullLog(cfg, s, ws).records)
  {
    if ws == [] {
      assert es + [] == es && restarts + [] == restarts;
    } else {
      LifeIsReplayed(cfg, d, es, s, Front(ws), restarts);
      var before, w := After(cfg, s, Front(ws)), Last(ws);
      var events := es + LifeEvents(cfg, s, Front(ws));
      SystemInvIsInductive(cfg, before, w);
      CycleIsReplayed(cfg, Replay(cfg, d, events), before, w, restarts + FullLog(cfg, s, Front(ws)).records);
      if RestartsIn(cfg, before, w) {
        var e := AttemptOf(cfg, before, w);
        assert es + LifeEvents(cfg, s, ws) == events + [e];
        assert Front(events + [e]) == events;
        OneMoreRecord(restarts, FullLog(cfg, s, Front(ws)).records,
                      RestartRecord(w.recordedAt, After(cfg, s, ws).progress.value.trigger));
      } else {
        assert es + LifeEvents(cfg, s, ws) == events;
      }
    }
  }

  /** The lives of the watchdog are one replay of the restart history. */
  lemma {:induction false} LivesAreReplayed(cfg: Config, d: Disk, lives: seq<seq<World>>)
    requires cfg.Valid()
    ensures Agrees(Replay(cfg, d, StoreEvents(cfg, d, lives)), Current(cfg, d, lives), AllRestarts(cfg, d, lives))
  {
    if lives != [] {
      LivesAreReplayed(cfg, d, Front(lives));
      var booted := StoreEvents(cfg, d, Front(lives)) + [Recreate];
      assert Front(booted) == StoreEvents(cfg, d, Front(lives));
      LifeIsReplayed(cfg, d, booted, Boot(DiskBefore(cfg, d, lives)), Last(lives), AllRestarts(cfg, d, Front(lives)));
    }
  }

  ghost predicate ClockHoldsInLives(lives: seq<seq<World>>) {
    forall ws | ws in lives :: ClockHoldsInCycles(ws)
  }

  lemma {:induction false} ClockHoldsInLife(cfg: Config, s: System, ws: seq<World>)
    requires ClockHoldsInCycles(ws)
    ensures ClockHolds(LifeEvents(cfg, s, ws))
  {
    if ws != [] {
      assert Last(ws) in ws;
      assert forall w | w in Front(ws) :: w in ws;
      ClockHoldsInLife(cfg, s, Front(ws));
    }
  }

  lemma {:induction false} ClockHoldsInStoreEvents(cfg: Config, d: Disk, lives: seq<seq<World>>)
    requires ClockHoldsInLives(lives)
    ensures ClockHolds(StoreEvents(cfg, d, lives))
  {
    if lives != [] {
      assert Last(lives) in lives;
      assert forall ws | ws in Front(lives) :: ws in lives;
      ClockHoldsInStoreEvents(cfg, d, Front(lives));
      ClockHoldsInLife(cfg, Boot(DiskBefore(cfg, d, lives)), Last(lives));
    }
  }

  // ---- What is lost between lives ----------------------------------------------------------------

  /** The last restart of the life, if any, was saved to the end. */
  predicate EndsClean(cfg: Config, s: System, ws: seq<World>) {
    if ws == [] then true
    else if RestartsIn(cfg, After(cfg, s, Front(ws)), Last(ws)) then Last(ws).saveSteps >= SAVE_STEPS
    else EndsClean(cfg, s, Front(ws))
  }

  /** Every life but the last, which has not ended, ends clean. */
  predicate LivesEndClean(cfg: Config, d: Disk, lives: seq<seq<World>>) {
    |lives| > 1 ==>
      && EndsClean(cfg, Boot(DiskBefore(cfg, d, Front(lives))), Last(Front(lives)))
      && LivesEndClean(cfg, d, Front(lives))
  }

  /** The restarts lost between the lives. */
  function Lost(cfg: Config, d: Disk, lives: seq<seq<World>>): seq<RestartRecord> {
    Replay(cfg, d, StoreEvents(cfg, d, lives)).lost
  }

  /** Within a life nothing is lost, and something is unsaved exactly when it would not end clean. */
  lemma {:induction false} LifeLosesNothing(cfg: Config, d: Disk, es: seq<StoreEvent>, s: System, ws: seq<World>, restarts: seq<RestartRecord>)
    requires cfg.Valid() && SystemInv(cfg, s) && Agrees(Replay(cfg, d, es), s, restarts)
    requires Replay(cfg, d, es).unsaved.records == []
    ensures var l := Replay(cfg, d, es + LifeEvents(cfg, s, ws));
            l.lost == Replay(cfg, d, es).lost && (l.unsaved.records == [] <==> EndsClean(cfg, s, ws))
  {
    if ws == [] {
      assert es + [] == es;
    } else {
      LifeLosesNothing(cfg, d, es, s, Front(ws), restarts);
      LifeIsReplayed(cfg, d, es, s, Front(ws), restarts);
      var before, w := After(cfg, s, Front(ws)), Last(ws);
      var events := es + LifeEvents(cfg, s, Front(ws));
      if RestartsIn(cfg, before, w) {
        var e := AttemptOf(cfg, before, w);
        CycleRecords(cfg, before, w);
        assert es + LifeEvents(cfg, s, ws) == events + [e];
        assert Front(events + [e]) == events;
      } else {
        assert es + LifeEvents(cfg, s, ws) == events;
      }
    }
  }

  lemma {:induction false} CleanLivesLoseNothing(cfg: Config, d: Disk, lives: seq<seq<World>>)
    requires cfg.Valid()
    ensures var l := Replay(cfg, d, StoreEvents(cfg, d, lives));
            && (l.lost == [] <==> LivesEndClean(cfg, d, lives))
            && (l.unsaved.records == [] <==>
                lives == [] || EndsClean(cfg, Boot(DiskBefore(cfg, d, lives)), Last(lives)))
  {
    if lives != [] {
      CleanLivesLoseNothing(cfg, d, Front(lives));
      LivesAreReplayed(cfg, d, Front(lives));
      var booted := StoreEvents(cfg, d, Front(lives)) + [Recreate];
      assert Front(booted) == StoreEvents(cfg, d, Front(lives));
      LifeLosesNothing(cfg, d, booted, Boot(DiskBefore(cfg, d, lives)), Last(lives), AllRestarts(cfg, d, Front(lives)));
    }
  }

  // ---- The budget of all lives -------------------------------------------------------------------

  /**
   The number of restarts stays bounded however often the watchdog is recreated: over all its lives a
   closed window exceeds the budget by at most the restarts lost between them, and there are none of
   those exactly when every earlier life saved its last restart.
   */
  lemma BudgetOverAllLives(cfg: Config, d: Disk, lives: seq<seq<World>>, a: real, b: real)
    requires cfg.Valid() && ClockHoldsInLives(lives) && a <= b
    ensures WithinBudget(cfg, CountIn(AllRestarts(cfg, d, lives), a, b) - CountIn(Lost(cfg, d, lives), a, b), a, b)
    ensures Lost(cfg, d, lives) == [] <==> LivesEndClean(cfg, d, lives)
  {
    ClockHoldsInStoreEvents(cfg, d, lives);
    LivesAreReplayed(cfg, d, lives);
    BudgetSurvivesRecreation(cfg, d, StoreEvents(cfg, d, lives), a, b);
    CleanLivesLoseNothing(cfg, d, lives);
  }

  /**
   While the lives end clean, the guard of the running process answers as if it saw every restart of
   every life, unpruned.
   */
  lemma PruningIsInvisibleAcrossLives(cfg: Config, d: Disk, lives: seq<seq<World>>,
                                      f: State, databaseStreak: nat, reachable: Option<bool>, now: real)
    requires cfg.Valid() && ClockHoldsInLives(lives) && LivesEndClean(cfg, d, lives)
    ensures Guard(cfg, Current(cfg, d, lives).history, f, databaseStreak, reachable, now)
         == Guard(cfg, Loaded(d.main) + AllRestarts(cfg, d, lives), f, databaseStreak, reachable, now)
  {
    ClockHoldsInStoreEvents(cfg, d, lives);
    LivesAreReplayed(cfg, d, lives);
    CleanLivesLoseNothing(cfg, d, lives);
    DecisionsSeeAllKnownRestarts(cfg, d, StoreEvents(cfg, d, lives), f, databaseStreak, reachable, now);
  }
}
