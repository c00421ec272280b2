/** Safety of whole runs of the watchdog: why a restart happens, how often, and when it does not. */
module WatchdogRuns {
  import opened Common
  import opened Settings
  import opened Verdicts
  import opened Confirmation
  import opened RestartGuard
  import opened RestartHistory
  import opened Events
  import opened Recovery
  import opened WatchdogLoop

  // ---- The counters are facts about the trace --------------------------------------------------

  /** Latest cycles in a row that saw a healthy database. */
  function HealthyDatabaseRun(ws: seq<World>): nat {
    if ws == [] || Last(ws).observation.databaseHealthy != Some(true) then 0
    else 1 + HealthyDatabaseRun(Front(ws))
  }

  lemma {:induction false} DatabaseStreakCountsTheRun(cfg: Config, d: Disk, ws: seq<World>)
    ensures After(cfg, Boot(d), ws).databaseStreak == HealthyDatabaseRun(ws)
  {
    if ws != [] {
      DatabaseStreakCountsTheRun(cfg, d, Front(ws));
      CycleSystem(cfg, After(cfg, Boot(d), Front(ws)), Last(ws));
    }
  }

  /** The events of a cycle that forced the machine into a state. */
  predicate Forces(e: Event) {
    e.RestartExecuted? || e.Recovered? || e.ManualIntervention?
  }

  ghost predicate Forced(es: seq<Event>) {
    exists e :: e in es && Forces(e)
  }

  /** The conclusive verdicts the machine has seen since a state was last forced on it. */
  ghost function Evidence(cfg: Config, s: System, ws: seq<World>): seq<Verdict> {
    if ws == [] then []
    else
      var before := After(cfg, s, Front(ws));
      var v := Evaluate(Last(ws).observation);
      if before.progress.Some? || Forced(Cycle(cfg, before, Last(ws)).events) then []
      else if v.inconclusive then Evidence(cfg, s, Front(ws))
      else Evidence(cfg, s, Front(ws)) + [v]
  }

  /** The state that evidence started from: the one forced last, or the initial one. */
  ghost function Base(cfg: Config, s: System, ws: seq<World>): State {
    if ws == [] then s.machine.state
    else
      var before := After(cfg, s, Front(ws));
      if before.progress.Some? || Forced(Cycle(cfg, before, Last(ws)).events) then After(cfg, s, ws).machine.state
      else Base(cfg, s, Front(ws))
  }

  ghost predicate Explained(cfg: Config, s: System, base: State, evidence: seq<Verdict>) {
    && (forall v | v in evidence :: !v.inconclusive)
    && (s.progress.None? ==> base != State.Recovering && s.machine == Run(cfg, Fresh(base), evidence))
  }

  /** A cycle without recovery either forces a fresh machine or lets the machine take its verdict. */
  lemma CycleMovesTheMachine(cfg: Config, s: System, w: World)
    requires cfg.Valid() && SystemInv(cfg, s)
    ensures var r := Cycle(cfg, s, w);
            && SystemInv(cfg, r.system)
            && (s.progress.None? && !Forced(r.events) ==>
                  r.system.progress.None? && r.system.machine == Next(cfg, s.machine, Evaluate(w.observation)))
            && (s.progress.Some? || Forced(r.events) ==>
                  r.system.progress.Some? || r.system.machine == Fresh(r.system.machine.state))
  {
    SystemInvIsInductive(cfg, s, w);
    CycleSystem(cfg, s, w);
    var r, o := Cycle(cfg, s, w), Observed(cfg, s, w);
    if s.progress.None? {
      var f := o.machine.state;
      CycleEvents(cfg, s, w, f, RestartOk(cfg, w));
      if MovesTo(cfg, s, w, f) && GuardAllows(cfg, o, f, w) {
        assert Forces(RestartExecuted(f, RestartOk(cfg, w)));
      } else {
        QuietTransition(cfg, s, w);
      }
    }
  }

  /** Without a restart, a cycle outside recovery forces nothing. */
  lemma QuietTransition(cfg: Config, s: System, w: World)
    requires s.progress.None?
    requires var o := Observed(cfg, s, w); !(o.machine.state != s.machine.state && GuardAllows(cfg, o, o.machine.state, w))
    ensures !Forced(Cycle(cfg, s, w).events)
  {
    var o, es := Observed(cfg, s, w), Cycle(cfg, s, w).events;
    assert o.machine.state != s.machine.state ==> Cycle(cfg, s, w) == OnTransition(cfg, o, o.machine.state, w);
    forall e | Forces(e)
      ensures e !in es
    {
      EventOfTransition(cfg, o, o.machine.state, w, e);
    }
  }

  lemma {:induction false} EvidenceExplainsTheMachine(cfg: Config, d: Disk, ws: seq<World>)
    requires cfg.Valid()
    ensures SystemInv(cfg, After(cfg, Boot(d), ws))
    ensures Explained(cfg, After(cfg, Boot(d), ws), Base(cfg, Boot(d), ws), Evidence(cfg, Boot(d), ws))
  {
    if ws != [] {
      var s0 := Boot(d);
      EvidenceExplainsTheMachine(cfg, d, Front(ws));
      var before, v := After(cfg, s0, Front(ws)), Evaluate(Last(ws).observation);
      CycleMovesTheMachine(cfg, before, Last(ws));
      var evidence := Evidence(cfg, s0, Front(ws));
      assert Front(evidence + [v]) == evidence;
    }
  }

  // ---- Why a restart happens -------------------------------------------------------------------

  /** The last check reports `f`, and with the evidence before it confirms `f`. */
  ghost predicate ConfirmedNow(cfg: Config, evidence: seq<Verdict>, w: World, f: State) {
    var v := Evaluate(w.observation);
    !v.inconclusive && v.state == f && Confirmed(cfg, evidence + [v], |evidence|)
  }

  /** And the state was a different one. */
  ghost predicate NewlyConfirmed(cfg: Config, s: System, evidence: seq<Verdict>, w: World, f: State) {
    s.machine.state != f && ConfirmedNow(cfg, evidence, w, f)
  }

  ghost predicate RestartCanHelp(cfg: Config, w: World, f: State) {
    && cfg.autoRestart
    && f in {LoggerUnhealthy, TeslamateUnreachable, LoggedOut}
    && (f == LoggedOut ==> cfg.loggedOutRestart && w.authProbe)
  }

  /** This check and the one before it saw a healthy database. */
  ghost predicate DatabaseSeenHealthyTwice(ws: seq<World>) {
    && |ws| >= 2
    && ws[|ws| - 1].observation.databaseHealthy == Some(true)
    && ws[|ws| - 2].observation.databaseHealthy == Some(true)
  }

  /** The facts about the trace that justify restarting for `f` in the last cycle of `ws`. */
  ghost predicate Justified(cfg: Config, s0: System, ws: seq<World>, f: State)
    requires ws != []
  {
    var s, w := After(cfg, s0, Front(ws)), Last(ws);
    && s.progress.None?
    && NewlyConfirmed(cfg, s, Evidence(cfg, s0, Front(ws)), w, f)
    && RestartCanHelp(cfg, w, f)
    && DatabaseSeenHealthyTwice(ws)
    && BudgetIsClear(cfg, s.history, w.askedAt)
  }

  lemma TwoHealthyChecks(ws: seq<World>)
    requires ws != []
    ensures HealthyDatabaseRun(ws) >= 2 <==> DatabaseSeenHealthyTwice(ws)
  {
    if |ws| >= 2 {
      assert Last(Front(ws)) == ws[|ws| - 2];
    }
  }

  predicate Restarts(es: seq<Event>, f: State) {
    RestartExecuted(f, true) in es || RestartExecuted(f, false) in es
  }

  lemma GuardIsTheJustification(cfg: Config, s: System, f: State, w: World)
    ensures GuardAllows(cfg, s, f, w) <==>
            RestartCanHelp(cfg, w, f) && s.databaseStreak >= 2 && BudgetIsClear(cfg, s.history, w.askedAt)
  {
  }

  /** What moved the machine to a failure, in terms of the evidence. */
  lemma MoveIsConfirmed(cfg: Config, s: System, base: State, evidence: seq<Verdict>, w: World, f: State)
    requires cfg.Valid() && SystemInv(cfg, s) && s.progress.None? && Explained(cfg, s, base, evidence)
    requires IsFailureVerdict(f)
    ensures var m := Next(cfg, s.machine, Evaluate(w.observation));
            m.state == f && f != s.machine.state <==> NewlyConfirmed(cfg, s, evidence, w, f)
  {
    var v := Evaluate(w.observation);
    if !v.inconclusive && v.state != Healthy {
      TransitionNeedsConfirmation(cfg, base, evidence, v);
      assert Next(cfg, s.machine, v).state in {s.machine.state, v.state};
    }
  }

  /** Over every run, the watchdog calls for a restart exactly when the trace justifies it. */
  lemma RestartsAreJustified(cfg: Config, d: Disk, ws: seq<World>, f: State)
    requires cfg.Valid() && ws != []
    ensures var r := Cycle(cfg, After(cfg, Boot(d), Front(ws)), Last(ws));
            Restarts(r.events, f) <==> Justified(cfg, Boot(d), ws, f)
  {
    var s0 := Boot(d);
    var s, w := After(cfg, s0, Front(ws)), Last(ws);
    var evidence := Evidence(cfg, s0, Front(ws));
    EvidenceExplainsTheMachine(cfg, d, Front(ws));
    CycleEvents(cfg, s, w, f, true);
    CycleEvents(cfg, s, w, f, false);
    GuardIsTheJustification(cfg, Observed(cfg, s, w), f, w);
    DatabaseStreakCountsTheRun(cfg, d, ws);
    CycleSystem(cfg, s, w);
    TwoHealthyChecks(ws);
    if s.progress.None? && IsFailureVerdict(f) {
      MoveIsConfirmed(cfg, s, Base(cfg, s0, Front(ws)), evidence, w, f);
    }
  }

  // ---- How often it restarts -------------------------------------------------------------------

  /** Every restart of the run that Docker carried out, unpruned. */
  function FullLog(cfg: Config, s: System, ws: seq<World>): RestartLog {
    if ws == [] then RestartLog([], [])
    else
      var log, w := FullLog(cfg, s, Front(ws)), Last(ws);
      var before, after := After(cfg, s, Front(ws)), After(cfg, s, ws);
      if before.progress.None? && after.progress.Some?
      then RestartLog(log.records + [RestartRecord(w.recordedAt, after.progress.value.trigger)], log.asked + [w.askedAt])
      else log
  }

  /** The wall clock may jump anywhere between cycles, but not back between asking and recording. */
  ghost predicate ClockHoldsInCycles(ws: seq<World>) {
    forall w | w in ws :: w.askedAt <= w.recordedAt
  }

  /** What a cycle does to the history: nothing, or it records one guarded restart. */
  lemma CycleRecords(cfg: Config, s: System, w: World)
    requires cfg.Valid() && SystemInv(cfg, s)
    ensures var after := Cycle(cfg, s, w).system;
            if s.progress.None? && after.progress.Some? then
              var f := after.progress.value.trigger;
              && GuardAllows(cfg, Observed(cfg, s, w), f, w)
              && RestartOk(cfg, w)
              && after.history == Recorded(s.history, RestartRecord(w.recordedAt, f))
              && after.disk == SaveUpTo(s.disk, after.history, w.saveSteps)
            else after.history == s.history && after.disk == s.disk
  {
    CycleSystem(cfg, s, w);
  }

  /** The history a run knows, unpruned: what its process found on disk, then every restart of its own. */
  function FullHistory(cfg: Config, d: Disk, ws: seq<World>): seq<RestartRecord> {
    Loaded(d.main) + FullLog(cfg, Boot(d), ws).records
  }

  /** From whatever disk: every restart of the run is granted, and the kept history is the full one without aged records. */
  lemma {:induction false} RunsAreGuarded(cfg: Config, d: Disk, ws: seq<World>)
    requires cfg.Valid() && ClockHoldsInCycles(ws)
    ensures var s, log := After(cfg, Boot(d), ws), FullLog(cfg, Boot(d), ws);
            && SystemInv(cfg, s)
            && GuardedLog(cfg, log.records, log.asked)
            && PrunedFrom(s.history, FullHistory(cfg, d, ws))
  {
    var s0, base := Boot(d), Loaded(d.main);
    if ws == [] {
      LoadingIsExact(d.main, 0.0);
      assert base + [] == base;
    } else {
      assert Last(ws) in ws;
      assert forall w | w in Front(ws) :: w in ws;
      RunsAreGuarded(cfg, d, Front(ws));
      var s, log, w := After(cfg, s0, Front(ws)), FullLog(cfg, s0, Front(ws)), Last(ws);
      SystemInvIsInductive(cfg, s, w);
      CycleRecords(cfg, s, w);
      var after := After(cfg, s0, ws);
      if s.progress.None? && after.progress.Some? {
        var f := after.progress.value.trigger;
        AllowedIsGranted(cfg, s.history, base, log.records, log.asked, f,
                         Observed(cfg, s, w).databaseStreak, Probe(f, w), w.askedAt, RestartRecord(w.recordedAt, f));
      }
    }
  }

  /** The restart budget holds for every run, whatever the process found on disk and the clock does between cycles. */
  lemma WatchdogBudget(cfg: Config, d: Disk, ws: seq<World>, a: real, b: real)
    requires cfg.Valid() && ClockHoldsInCycles(ws) && a <= b
    ensures var log := FullLog(cfg, Boot(d), ws).records;
            && Spaced(cfg, log)
            && (forall i: nat | i + cfg.maxRestartsPerDay < |log| :: log[i].at + 86400.0 < log[i + cfg.maxRestartsPerDay].at)
            && WithinBudget(cfg, CountIn(log, a, b), a, b)
  {
    RunsAreGuarded(cfg, d, ws);
    var log := FullLog(cfg, Boot(d), ws);
    GuardedKeepsTheBudget(cfg, log.records, log.asked);
    RestartBudget(cfg, log.records, log.asked, a, b);
    forall i: nat | i + cfg.maxRestartsPerDay < |log.records|
      ensures log.records[i].at + 86400.0 < log.records[i + cfg.maxRestartsPerDay].at
    {
      RestartsBeyondTheCapAreADayApart(cfg, log.records, log.asked, i);
    }
  }

  /** After every run the guard answers every later question as if nothing had been pruned since the process started. */
  lemma WatchdogPruningIsInvisible(cfg: Config, d: Disk, ws: seq<World>,
                                   f: State, databaseStreak: nat, reachable: Option<bool>, now: real)
    requires cfg.Valid() && ClockHoldsInCycles(ws)
    ensures Guard(cfg, After(cfg, Boot(d), ws).history, f, databaseStreak, reachable, now)
         == Guard(cfg, FullHistory(cfg, d, ws), f, databaseStreak, reachable, now)
  {
    RunsAreGuarded(cfg, d, ws);
    PruningIsInvisible(cfg, After(cfg, Boot(d), ws).history, FullHistory(cfg, d, ws), f, databaseStreak, reachable, now);
  }

  /** The budget part of the justification is a fact about the full history, not only about the kept one. */
  lemma BudgetIsAboutTheWholeRun(cfg: Config, d: Disk, ws: seq<World>, now: real)
    requires cfg.Valid() && ClockHoldsInCycles(ws)
    ensures BudgetIsClear(cfg, After(cfg, Boot(d), ws).history, now) <==> BudgetIsClear(cfg, FullHistory(cfg, d, ws), now)
  {
    RunsAreGuarded(cfg, d, ws);
    PruningKeepsTheBudgetClear(cfg, After(cfg, Boot(d), ws).history, FullHistory(cfg, d, ws), now);
  }

  // ---- How a recovery goes in a run ------------------------------------------------------------

  /** The checks of a run as the recovery sees them. */
  function Checks(ws: seq<World>): (cs: seq<Check>)
    ensures |cs| == |ws|
  {
    seq(|ws|, i requires 0 <= i < |ws| => Check(ws[i].monotonic, Evaluate(ws[i].observation)))
  }

  /**
   While a recovery is active a run of the watchdog is a run of the recovery: it holds the machine
   until the outcome, and the cycle that decides forces the state and publishes the one event.
   */
  lemma {:induction false} RunsFollowTheRecovery(cfg: Config, s: System, ws: seq<World>)
    requires s.progress.Some? && s.machine == Fresh(State.Recovering) && ws != []
    requires Drive(cfg, s.progress.value, Checks(Front(ws))).Running?
    ensures var after, events := After(cfg, s, ws), Trace(cfg, s, ws);
            match Drive(cfg, s.progress.value, Checks(ws))
            case Running(q) =>
              && after.progress == Some(q) && after.machine == Fresh(State.Recovering) && events == []
              && after.status == if Last(ws).monotonic < s.progress.value.deadline then StatusWaiting else StatusConfirming
            case EndedHealthy =>
              && after.progress == None && after.machine == Fresh(Healthy) && after.status == StatusRecovered
              && events == [Recovered(s.progress.value.trigger)]
            case EndedManual =>
              && after.progress == None && after.machine == Fresh(ManualInterventionRequired) && after.status == StatusManual
              && events == [ManualIntervention]
    decreases |ws|
  {
    assert Front(Checks(ws)) == Checks(Front(ws));
    if |ws| > 1 {
      var front := Front(ws);
      assert Front(Checks(front)) == Checks(Front(front));
      RunsFollowTheRecovery(cfg, s, front);
    } else {
      assert Front(ws) == [];
    }
    SettleKeepsTheDeadline(cfg, s.progress.value, Counted(Checks(Front(ws)), s.progress.value.deadline));
    OnlyCountedChecksMatter(cfg, s.progress.value, Checks(Front(ws)));
  }

  /** The conclusive verdicts of the checks at or after `from`. */
  function VerdictsFrom(ws: seq<World>, from: real): seq<Verdict> {
    if ws == [] then []
    else
      var v := Evaluate(Last(ws).observation);
      VerdictsFrom(Front(ws), from) + if Last(ws).monotonic >= from && !v.inconclusive then [v] else []
  }

  lemma {:induction false} VerdictsFromAreCounted(ws: seq<World>, from: real)
    ensures VerdictsFrom(ws, from) == Counted(Checks(ws), from)
  {
    if ws != [] {
      VerdictsFromAreCounted(Front(ws), from);
      assert Front(Checks(ws)) == Checks(Front(ws));
    }
  }

  ghost predicate NoEnd(cfg: Config, vs: seq<Verdict>) {
    forall k: nat | k < |vs| :: !EndsAt(cfg, vs, k)
  }

  /** Recovering from `f`, with streaks that are the trailing runs of `vs`, and nothing published. */
  ghost predicate StillRecovering(f: State, vs: seq<Verdict>, after: System, events: seq<Event>) {
    && events == []
    && after.machine == Fresh(State.Recovering)
    && after.progress.Some? && after.progress.value.trigger == f
    && TailPolarity(vs, true, after.progress.value.healthyStreak)
    && TailPolarity(vs, false, after.progress.value.failureStreak)
  }

  ghost predicate DecidedBy(v: Verdict, f: State, after: System, events: seq<Event>) {
    && after.progress == None
    && if v.state == Healthy
       then after.machine == Fresh(Healthy) && after.status == StatusRecovered && events == [Recovered(f)]
       else after.machine == Fresh(ManualInterventionRequired) && after.status == StatusManual && events == [ManualIntervention]
  }

  /**
   While no long enough run has ended among the conclusive checks since `from`, the watchdog publishes
   nothing, holds RECOVERING and counts those checks from zero; the check that ends the first run decides.
   */
  ghost predicate WaitsThenDecides(cfg: Config, s: System, f: State, from: real, ws: seq<World>) {
    var vs, after, events := VerdictsFrom(ws, from), After(cfg, s, ws), Trace(cfg, s, ws);
    if NoEnd(cfg, vs) then
      && StillRecovering(f, vs, after, events)
      && (ws != [] ==> after.status == if Last(ws).monotonic < from then StatusWaiting else StatusConfirming)
    else NoEnd(cfg, VerdictsFrom(Front(ws), from)) ==> DecidedBy(Last(vs), f, after, events)
  }

  lemma RecoveryFromZero(cfg: Config, s: System, f: State, from: real, ws: seq<World>)
    requires cfg.Valid() && s.machine == Fresh(State.Recovering) && s.progress == Some(Progress(f, from, 0, 0))
    ensures WaitsThenDecides(cfg, s, f, from, ws)
  {
    DriveFromZero(cfg, f, from, ws);
    if ws != [] {
      if NoEnd(cfg, VerdictsFrom(ws, from)) {
        NoEndBefore(cfg, ws, from);
      }
      if NoEnd(cfg, VerdictsFrom(Front(ws), from)) {
        DriveFromZero(cfg, f, from, Front(ws));
        RunsFollowTheRecovery(cfg, s, ws);
      }
    }
  }

  lemma NoEndBefore(cfg: Config, ws: seq<World>, from: real)
    requires ws != [] && NoEnd(cfg, VerdictsFrom(ws, from))
    ensures NoEnd(cfg, VerdictsFrom(Front(ws), from))
  {
    var before, v := VerdictsFrom(Front(ws), from), Evaluate(Last(ws).observation);
    forall k: nat | k < |before|
      ensures EndsAt(cfg, before + [v], k) <==> EndsAt(cfg, before, k)
    {
      EndsAtInPrefix(cfg, before, v, k);
    }
    assert before + [] == before;
  }

  /** Cycle `w` carries out a restart for `f` and leaves the system at `s`. */
  ghost predicate RestartedIn(cfg: Config, before: System, w: World, f: State, s: System) {
    RestartExecuted(f, true) in Cycle(cfg, before, w).events && s == Cycle(cfg, before, w).system
  }

  /** A restart carried out in a cycle starts a recovery with empty streaks. */
  lemma RestartedIsRecovering(cfg: Config, before: System, w: World, f: State, s: System)
    ensures RestartedIn(cfg, before, w, f, s) ==>
              && s.machine == Fresh(State.Recovering)
              && s.progress == Some(Progress(f, w.monotonic + cfg.postRestartWaitSeconds as real, 0, 0))
  {
    if RestartedIn(cfg, before, w, f, s) {
      CycleEvents(cfg, before, w, f, true);
      CycleSystem(cfg, before, w);
      BegunSystem(cfg, Observed(cfg, before, w), f, w);
    }
  }

  /** Every run that goes on from `s` waits until `from`, then decides. */
  ghost predicate RecoversFrom(cfg: Config, s: System, f: State, from: real) {
    forall ws: seq<World> :: WaitsThenDecides(cfg, s, f, from, ws)
  }

  lemma FreshRecoveryRecovers(cfg: Config, s: System, f: State, from: real)
    requires cfg.Valid() && s.machine == Fresh(State.Recovering) && s.progress == Some(Progress(f, from, 0, 0))
    ensures RecoversFrom(cfg, s, f, from)
  {
    forall ws: seq<World>
      ensures WaitsThenDecides(cfg, s, f, from, ws)
    {
      RecoveryFromZero(cfg, s, f, from, ws);
    }
  }

  /** What follows a restart that Docker carried out: the configured wait is over at `from`. */
  lemma RecoveryWaitsThenDecides(cfg: Config, before: System, w: World, f: State, s: System, from: real)
    requires cfg.Valid() && from == w.monotonic + cfg.postRestartWaitSeconds as real
    ensures RestartedIn(cfg, before, w, f, s) ==> RecoversFrom(cfg, s, f, from)
  {
    if RestartedIn(cfg, before, w, f, s) {
      RestartedIsRecovering(cfg, before, w, f, s);
      FreshRecoveryRecovers(cfg, s, f, from);
    }
  }

  lemma DriveFromZero(cfg: Config, f: State, deadline: real, ws: seq<World>)
    requires cfg.Valid()
    ensures var vs, o := VerdictsFrom(ws, deadline), Drive(cfg, Progress(f, deadline, 0, 0), Checks(ws));
            && (NoEnd(cfg, vs) ==>
                  && o.Running? && o.progress.trigger == f
                  && TailPolarity(vs, true, o.progress.healthyStreak) && TailPolarity(vs, false, o.progress.failureStreak))
            && (!NoEnd(cfg, vs) && NoEnd(cfg, VerdictsFrom(Front(ws), deadline)) ==>
                  o == if Last(vs).state == Healthy then EndedHealthy else EndedManual)
  {
    var p, vs := Progress(f, deadline, 0, 0), VerdictsFrom(ws, deadline);
    VerdictsFromAreCounted(ws, deadline);
    OnlyCountedChecksMatter(cfg, p, Checks(ws));
    SettleIsExact(cfg, f, deadline, vs);
    SettleKeepsTheDeadline(cfg, p, vs);
    if !NoEnd(cfg, vs) && NoEnd(cfg, VerdictsFrom(Front(ws), deadline)) {
      EndIsLast(cfg, ws, deadline);
    }
  }

  /** Where the checks so far ended nothing, only the last verdict can. */
  lemma EndIsLast(cfg: Config, ws: seq<World>, from: real)
    requires ws != [] && NoEnd(cfg, VerdictsFrom(Front(ws), from))
    ensures var vs := VerdictsFrom(ws, from); forall k: nat | FirstEnd(cfg, vs, k) :: k == |vs| - 1
  {
    var before, v := VerdictsFrom(Front(ws), from), Evaluate(Last(ws).observation);
    forall k: nat | k < |before|
      ensures !EndsAt(cfg, before + [v], k)
    {
      EndsAtInPrefix(cfg, before, v, k);
    }
    assert before + [] == before;
  }

  /** Checks before the wait is over change nothing, whatever they report. */
  lemma EarlyChecksAreIgnored(cfg: Config, before: System, w: World, f: State, s: System, from: real, ws: seq<World>)
    requires cfg.Valid() && from == w.monotonic + cfg.postRestartWaitSeconds as real
    requires forall early | early in ws :: early.monotonic < from
    ensures RestartedIn(cfg, before, w, f, s) ==> StillRecovering(f, [], After(cfg, s, ws), Trace(cfg, s, ws))
  {
    if RestartedIn(cfg, before, w, f, s) {
      RecoveryWaitsThenDecides(cfg, before, w, f, s, from);
      NoVerdictsBefore(ws, from);
      WaitingOn(cfg, s, f, from, ws);
    }
  }

  lemma WaitingOn(cfg: Config, s: System, f: State, from: real, ws: seq<World>)
    requires RecoversFrom(cfg, s, f, from) && VerdictsFrom(ws, from) == []
    ensures StillRecovering(f, [], After(cfg, s, ws), Trace(cfg, s, ws))
  {
    assert WaitsThenDecides(cfg, s, f, from, ws);
  }

  lemma {:induction false} NoVerdictsBefore(ws: seq<World>, from: real)
    requires forall early | early in ws :: early.monotonic < from
    ensures VerdictsFrom(ws, from) == []
  {
    if ws != [] {
      assert Last(ws) in ws;
      assert forall early | early in Front(ws) :: early in ws;
      NoVerdictsBefore(Front(ws), from);
    }
  }

  // ---- When it does not ------------------------------------------------------------------------

  /**
   A restart withheld when the state was entered is not reconsidered: while the checks keep agreeing
   with the state (or say nothing), no event is published and no restart recorded, however the
   network, the database, the clock or the budget change.
   */
  lemma {:induction false} WithheldRestartIsNotRetried(cfg: Config, s: System, ws: seq<World>)
    requires cfg.Valid() && s.progress.None? && IsFailureVerdict(s.machine.state)
    requires forall w | w in ws ::
               var v := Evaluate(w.observation); v.inconclusive || v.state == s.machine.state
    ensures var after := After(cfg, s, ws);
            && after.machine.state == s.machine.state
            && after.progress.None?
            && after.history == s.history
            && Trace(cfg, s, ws) == []
  {
    if ws != [] {
      assert Last(ws) in ws;
      assert forall w | w in Front(ws) :: w in ws;
      WithheldRestartIsNotRetried(cfg, s, Front(ws));
    }
  }

  /**
   Everything the documentation asks before a restart for `f`: the checks confirm `f` by now, a restart
   can help and the network is back, the database is up, the budget is clear, no recovery is active.
   */
  ghost predicate RestartIsDue(cfg: Config, s0: System, ws: seq<World>, f: State)
    requires ws != []
  {
    var s, w := After(cfg, s0, Front(ws)), Last(ws);
    && s.progress.None?
    && ConfirmedNow(cfg, Evidence(cfg, s0, Front(ws)), w, f)
    && RestartCanHelp(cfg, w, f)
    && DatabaseSeenHealthyTwice(ws)
    && BudgetIsClear(cfg, s.history, w.askedAt)
  }

  /**
   "Restarts once the auth host is reachable again" holds, of a restart that is due, exactly when the
   check before this one had left the watchdog in another state.
   */
  lemma DueRestartsHappenOnEntry(cfg: Config, d: Disk, ws: seq<World>, f: State)
    requires cfg.Valid() && ws != [] && RestartIsDue(cfg, Boot(d), ws, f)
    ensures Restarts(Cycle(cfg, After(cfg, Boot(d), Front(ws)), Last(ws)).events, f) <==>
            After(cfg, Boot(d), Front(ws)).machine.state != f
  {
    RestartsAreJustified(cfg, d, ws, f);
  }

  /**
   The promise fails: the auth host is unreachable when the logout is confirmed and back at the next
   check; the guard would then allow the restart, and the watchdog does nothing.
   */
  lemma ReturningHostIsNotNoticed(cfg: Config, d: Disk)
    requires cfg.Valid() && cfg.failureConfirmations == 1
    requires cfg.autoRestart && cfg.loggedOutRestart && cfg.maxRestartsPerDay > 0 && Loaded(d.main) == []
    ensures var ws := [CheckOf(Authenticated, true), CheckOf(SignInPage, false), CheckOf(SignInPage, true)];
            var s, w := After(cfg, Boot(d), Front(ws)), Last(ws);
            && Observed(cfg, s, w).machine.state == s.machine.state == LoggedOut
            && GuardAllows(cfg, Observed(cfg, s, w), LoggedOut, w)
            && Cycle(cfg, s, w).events == []
  {
    var a, b, c := CheckOf(Authenticated, true), CheckOf(SignInPage, false), CheckOf(SignInPage, true);
    assert Front([a, b, c]) == [a, b] && Front([a, b]) == [a] && Front([a]) == [];
    var s1 := Cycle(cfg, Boot(d), a).system;
    FirstGoodCheck(cfg, d, true);
    SignInPageConfirms(cfg, s1, false);
    var s2 := Cycle(cfg, s1, b).system;
    CycleSystem(cfg, s1, b);
    assert s2.machine.state == LoggedOut && s2.databaseStreak == 2 && s2.progress.None? && s2.history == [];
    assert After(cfg, Boot(d), [a]) == s1;
    assert After(cfg, Boot(d), [a, b]) == s2;
  }
}
