/**
 One check cycle of the watchdog (src/main.py, `Watchdog`): the database streak, the hand-over
 between machine and recovery, the transition handling and the order of events. `Cycle` is the
 step on values, the class carries it out, and the lemmas are about every run.
 */
module WatchdogLoop {
  import opened Common
  import opened Settings
  import opened Verdicts
  import opened Confirmation
  import opened RestartGuard
  import opened RestartHistory
  import opened Docker
  import opened Events
  import opened Recovery

  datatype Considered = Considered(system: System, events: seq<Event>, restarting: bool)

  function DatabaseStreak(streak: nat, o: Observation): nat {
    if o.databaseHealthy == Some(true) then streak + 1 else 0
  }

  function Bundle(state: State, w: World): seq<Event> {
    if w.captured then [DiagnosticsCaptured(state)] else []
  }

  function Probe(state: State, w: World): Option<bool> {
    if NeedsTeslaAuth(state) then Some(w.authProbe) else None
  }

  function ConsiderRecovery(cfg: Config, s: System, state: State, w: World): Considered {
    if !RestartAllowed(state) then Considered(s, Bundle(state, w), false)
    else if Guard(cfg, s.history, state, s.databaseStreak, Probe(state, w), w.askedAt).Refused? then
      Considered(s, Bundle(state, w), false)
    else
      var r := BeginRecovery(cfg, s, state, w);
      Considered(r.system, Bundle(state, w) + r.events, RestartOk(cfg, w))
  }

  function Advice(state: State, restarting: bool): seq<Event> {
    if IsAuthState(state) && !restarting then [AuthenticationRequired(state)]
    else if state == DatabaseUnhealthy then [DatabaseUnhealthyReported]
    else []
  }

  function OnTransition(cfg: Config, s: System, state: State, w: World): Stepped {
    if !IsFailureState(state) then Stepped(s, [])
    else
      var c := ConsiderRecovery(cfg, s, state, w);
      Stepped(c.system, [FailureDetected(state)] + c.events + Advice(state, c.restarting))
  }

  function Cycle(cfg: Config, s: System, w: World): Stepped {
    var observed := s.(databaseStreak := DatabaseStreak(s.databaseStreak, w.observation));
    if s.progress.Some? then StepRecovery(cfg, observed, w)
    else
      var m := Next(cfg, s.machine, Evaluate(w.observation));
      var moved := observed.(machine := m);
      if m.state == s.machine.state then Stepped(moved, []) else OnTransition(cfg, moved, m.state, w)
  }

  lemma Regroup(a: seq<Event>, b: seq<Event>, c: seq<Event>, d: seq<Event>)
    ensures a + b + c + d == a + (b + c + d)
  {
  }

  class Watchdog {
    const config: Config
    const machine: StateMachine
    const restarts: RestartManager
    const recovery: RecoveryController
    const log: EventLog
    var databaseHealthyStreak: nat

    /** `build_watchdog`: a starting machine and a manager that loads the history file. */
    constructor (config: Config, file: HistoryFile)
      ensures this.config == config && Wired() && fresh(machine) && fresh(restarts) && fresh(recovery) && fresh(log)
      ensures restarts.file == file
      ensures View() == Boot(file.View()) && log.events == []
    {
      var stateMachine := new StateMachine(config, Starting);
      var manager := new RestartManager(config, file);
      var events := new EventLog();
      var controller := new RecoveryController(config, stateMachine, manager, events);
      this.config := config;
      machine := stateMachine;
      restarts := manager;
      recovery := controller;
      log := events;
      databaseHealthyStreak := 0;
    }

    predicate Wired() {
      && machine.config == config
      && restarts.config == config
      && recovery.config == config
      && recovery.machine == machine
      && recovery.restarts == restarts
      && recovery.log == log
    }

    ghost function View(): System
      reads this, machine, recovery, recovery.machine, recovery.restarts, recovery.restarts.file
    {
      recovery.View(databaseHealthyStreak)
    }

    method CheckOnce(w: World)
      requires Wired()
      modifies this, machine, recovery, restarts, restarts.file, log
      ensures var r := Cycle(config, old(View()), w);
              View() == r.system && log.events == old(log.events) + r.events
    {
      databaseHealthyStreak :=
        if w.observation.databaseHealthy == Some(true) then databaseHealthyStreak + 1 else 0;
      if recovery.progress.Some? {
        recovery.Step(w, databaseHealthyStreak);
      } else {
        var transition := machine.Step(w.observation);
        if transition.Some? {
          HandleTransition(transition.value.current, w);
        }
      }
    }

    method HandleTransition(state: State, w: World)
      requires Wired()
      modifies this, machine, recovery, restarts, restarts.file, log
      ensures var r := OnTransition(config, old(View()), state, w);
              View() == r.system && log.events == old(log.events) + r.events
    {
      if !IsFailureState(state) {
        return;
      }
      ghost var before, c := log.events, ConsiderRecovery(config, View(), state, w);
      log.Publish(FailureDetected(state));
      var restarting := Consider(state, w);
      if IsAuthState(state) && !restarting {
        log.Publish(AuthenticationRequired(state));
      } else if state == DatabaseUnhealthy {
        log.Publish(DatabaseUnhealthyReported);
      }
      Regroup(before, [FailureDetected(state)], c.events, Advice(state, c.restarting));
    }

    method Consider(state: State, w: World) returns (restarting: bool)
      requires Wired()
      modifies this, machine, recovery, restarts, restarts.file, log
      ensures var c := ConsiderRecovery(config, old(View()), state, w);
              View() == c.system && log.events == old(log.events) + c.events && restarting == c.restarting
    {
      if !RestartAllowed(state) {
        recovery.Capture(state, w.captured);
        return false;
      }
      var reachable: Option<bool> := None;
      if NeedsTeslaAuth(state) {
        reachable := Some(w.authProbe);
      }
      ghost var s := View();
      var decision := restarts.Decide(state, databaseHealthyStreak, reachable, w.askedAt);
      recovery.Capture(state, w.captured);
      if decision.Refused? {
        return false;
      }
      assert View() == s;
      ghost var before, begun := log.events, BeginRecovery(config, s, state, w).events;
      restarting := recovery.Begin(state, w, databaseHealthyStreak);
      assert log.events == before + begun;
    }
  }

  // ---- Runs ------------------------------------------------------------------------------------

  /** A process just started on the data volume `d`. */
  function Boot(d: Disk): System {
    System(Fresh(Starting), None, StatusIdle, Loaded(d.main), d, 0)
  }

  const EMPTY_DISK: Disk := Disk(Absent, Absent)

  function After(cfg: Config, s: System, ws: seq<World>): System {
    if ws == [] then s else Cycle(cfg, After(cfg, s, Front(ws)), Last(ws)).system
  }

  function Trace(cfg: Config, s: System, ws: seq<World>): seq<Event> {
    if ws == [] then []
    else Trace(cfg, s, Front(ws)) + Cycle(cfg, After(cfg, s, Front(ws)), Last(ws)).events
  }

  /** A check that sees this page and this answer from the auth host, with all else well and Docker not answering. */
  function CheckOf(http: HttpCategory, authProbe: bool): World {
    World(Observation(http, None, false, Some(true), Some(true), None), 0.0, 0.0, 0.0, authProbe, None, TimedOut, false, 0)
  }

  /** The first check of a process, if it is a good one, confirms nothing but health and the database once. */
  lemma FirstGoodCheck(cfg: Config, d: Disk, authProbe: bool)
    ensures var s := Cycle(cfg, Boot(d), CheckOf(Authenticated, authProbe)).system;
            && s.machine.state in {Starting, Healthy} && s.machine.candidate == None
            && s.progress == None && s.databaseStreak == 1 && s.history == Loaded(d.main)
  {
    assert Evaluate(CheckOf(Authenticated, authProbe).observation) == Evaluation(Healthy, false, false);
  }

  /** A sign-in page moves any machine but a logged-out or held one if one confirmation is configured. */
  lemma SignInPageConfirms(cfg: Config, s: System, authProbe: bool)
    requires cfg.failureConfirmations == 1 && s.progress.None? && s.machine.state !in {LoggedOut, State.Recovering}
    ensures MovesTo(cfg, s, CheckOf(SignInPage, authProbe), LoggedOut)
  {
    assert Evaluate(CheckOf(SignInPage, authProbe).observation) == Evaluation(LoggedOut, false, false);
  }

  // ---- Which events a cycle publishes ----------------------------------------------------------

  predicate GuardAllows(cfg: Config, s: System, f: State, w: World) {
    Guard(cfg, s.history, f, s.databaseStreak, Probe(f, w), w.askedAt).Allowed?
  }

  /** The system as the transition handler finds it: streak and machine updated. */
  function Observed(cfg: Config, s: System, w: World): System {
    s.(databaseStreak := DatabaseStreak(s.databaseStreak, w.observation),
       machine := Next(cfg, s.machine, Evaluate(w.observation)))
  }

  /** The cycle's check moves the machine to `f`. */
  predicate MovesTo(cfg: Config, s: System, w: World, f: State) {
    s.progress.None? && Observed(cfg, s, w).machine.state == f && f != s.machine.state
  }

  lemma InConcat(a: seq<Event>, b: seq<Event>, e: Event)
    ensures e in a + b <==> e in a || e in b
  {
  }

  lemma BegunEvents(cfg: Config, s: System, state: State, w: World, e: Event)
    ensures e in BeginRecovery(cfg, s, state, w).events <==>
            || e == RecoveryStarted(state)
            || e == RestartExecuted(state, RestartOk(cfg, w))
            || (e == ManualIntervention && !RestartOk(cfg, w))
  {
    var begun := BeginRecovery(cfg, s, state, w).events;
    assert begun[0] in begun && begun[1] in begun && begun[|begun| - 1] in begun;
  }

  lemma EventOfTransition(cfg: Config, s: System, state: State, w: World, e: Event)
    requires e.RestartExecuted? || e.ManualIntervention? || e.AuthenticationRequired? || e.Recovered?
    ensures e in OnTransition(cfg, s, state, w).events <==>
            || (GuardAllows(cfg, s, state, w)
                && (e == RestartExecuted(state, RestartOk(cfg, w)) || (e == ManualIntervention && !RestartOk(cfg, w))))
            || (e == AuthenticationRequired(state) && IsAuthState(state)
                && !(GuardAllows(cfg, s, state, w) && RestartOk(cfg, w)))
  {
    if IsFailureState(state) {
      var c := ConsiderRecovery(cfg, s, state, w);
      InConcat([FailureDetected(state)] + c.events, Advice(state, c.restarting), e);
      InConcat([FailureDetected(state)], c.events, e);
      if GuardAllows(cfg, s, state, w) {
        InConcat(Bundle(state, w), BeginRecovery(cfg, s, state, w).events, e);
        BegunEvents(cfg, s, state, w, e);
      }
    }
  }

  lemma TransitionEvents(cfg: Config, s: System, state: State, w: World, f: State, ok: bool)
    ensures var es := OnTransition(cfg, s, state, w).events;
            && (RestartExecuted(f, ok) in es <==> f == state && ok == RestartOk(cfg, w) && GuardAllows(cfg, s, state, w))
            && (ManualIntervention in es <==> !RestartOk(cfg, w) && GuardAllows(cfg, s, state, w))
            && (AuthenticationRequired(f) in es <==>
                f == state && IsAuthState(state) && !(RestartOk(cfg, w) && GuardAllows(cfg, s, state, w)))
            && Recovered(f) !in es
  {
    EventOfTransition(cfg, s, state, w, RestartExecuted(f, ok));
    EventOfTransition(cfg, s, state, w, ManualIntervention);
    EventOfTransition(cfg, s, state, w, AuthenticationRequired(f));
    EventOfTransition(cfg, s, state, w, Recovered(f));
  }

  /** When a cycle restarts, and when it asks for fresh tokens. */
  lemma CycleEvents(cfg: Config, s: System, w: World, f: State, ok: bool)
    ensures var es, o := Cycle(cfg, s, w).events, Observed(cfg, s, w);
            && (RestartExecuted(f, ok) in es <==>
                MovesTo(cfg, s, w, f) && GuardAllows(cfg, o, f, w) && ok == RestartOk(cfg, w))
            && (AuthenticationRequired(f) in es <==>
                MovesTo(cfg, s, w, f) && IsAuthState(f) && !(GuardAllows(cfg, o, f, w) && RestartOk(cfg, w)))
  {
    var o := Observed(cfg, s, w);
    if s.progress.None? && o.machine.state != s.machine.state {
      TransitionEvents(cfg, o, o.machine.state, w, f, ok);
      assert Cycle(cfg, s, w) == OnTransition(cfg, o, o.machine.state, w);
    }
  }

  lemma AnnouncementsOfTransition(cfg: Config, s: System, state: State, w: World, e: Event)
    requires e.FailureDetected? || e.DiagnosticsCaptured? || e.DatabaseUnhealthyReported? || e.RecoveryStarted?
    ensures e in OnTransition(cfg, s, state, w).events <==>
            && state in {LoggedOut, LoggerUnhealthy, TeslamateUnreachable, DatabaseUnhealthy, AuthRefreshFailed, ManualInterventionRequired}
            && match e
               case FailureDetected(f) => f == state
               case DiagnosticsCaptured(f) => f == state && w.captured
               case RecoveryStarted(f) => f == state && GuardAllows(cfg, s, state, w)
               case _ => state == DatabaseUnhealthy
  {
    if IsFailureState(state) {
      var c := ConsiderRecovery(cfg, s, state, w);
      InConcat([FailureDetected(state)] + c.events, Advice(state, c.restarting), e);
      InConcat([FailureDetected(state)], c.events, e);
      if GuardAllows(cfg, s, state, w) {
        InConcat(Bundle(state, w), BeginRecovery(cfg, s, state, w).events, e);
        BegunEvents(cfg, s, state, w, e);
      }
    }
  }

  /**
   What a cycle announces besides restarts: a failure exactly when its check moves the machine to one,
   then a bundle if one could be written, and for each kind of failure the advice meant for it.
   */
  lemma Announcements(cfg: Config, s: System, w: World, f: State)
    requires cfg.Valid() && SystemInv(cfg, s)
    ensures var es, o := Cycle(cfg, s, w).events, Observed(cfg, s, w);
            var failed := MovesTo(cfg, s, w, f) && f in {LoggedOut, LoggerUnhealthy, TeslamateUnreachable, DatabaseUnhealthy, AuthRefreshFailed};
            && (FailureDetected(f) in es <==> failed)
            && (DiagnosticsCaptured(f) in es <==> failed && w.captured)
            && (RecoveryStarted(f) in es <==> failed && GuardAllows(cfg, o, f, w))
            && (DatabaseUnhealthyReported in es <==> MovesTo(cfg, s, w, DatabaseUnhealthy))
            && (AuthenticationRequired(f) in es <==>
                failed && f in {LoggedOut, AuthRefreshFailed} && !(GuardAllows(cfg, o, f, w) && RestartOk(cfg, w)))
  {
    var o := Observed(cfg, s, w);
    MachineInvIsInductive(cfg, s.machine, Evaluate(w.observation));
    CycleEvents(cfg, s, w, f, true);
    if s.progress.None? && o.machine.state != s.machine.state {
      assert Cycle(cfg, s, w) == OnTransition(cfg, o, o.machine.state, w);
      AnnouncementsOfTransition(cfg, o, o.machine.state, w, FailureDetected(f));
      AnnouncementsOfTransition(cfg, o, o.machine.state, w, DiagnosticsCaptured(f));
      AnnouncementsOfTransition(cfg, o, o.machine.state, w, RecoveryStarted(f));
      AnnouncementsOfTransition(cfg, o, o.machine.state, w, DatabaseUnhealthyReported);
    }
  }

  /** What a cycle does to the system besides its events. */
  lemma CycleSystem(cfg: Config, s: System, w: World)
    ensures var after, o := Cycle(cfg, s, w).system, Observed(cfg, s, w);
            && after.databaseStreak == o.databaseStreak
            && (s.progress.None? ==>
                  if o.machine.state != s.machine.state && GuardAllows(cfg, o, o.machine.state, w)
                  then after == BeginRecovery(cfg, o, o.machine.state, w).system
                  else after == o)
  {
  }

  // ---- The joint invariant ---------------------------------------------------------------------

  ghost predicate SystemInv(cfg: Config, s: System) {
    && MachineInv(cfg, s.machine)
    && (s.progress.Some? <==> s.machine.state == State.Recovering)
    && (s.progress.Some? <==> s.status in {StatusWaiting, StatusConfirming})
    && (s.progress.Some? ==> ProgressInv(cfg, s.progress.value) && RestartAllowed(s.progress.value.trigger))
  }

  lemma SystemInvIsInductive(cfg: Config, s: System, w: World)
    requires cfg.Valid() && SystemInv(cfg, s)
    ensures SystemInv(cfg, Cycle(cfg, s, w).system)
  {
    MachineInvIsInductive(cfg, s.machine, Evaluate(w.observation));
  }

  /** At every cycle boundary of every run the machine, the streaks and the recovery agree. */
  lemma {:induction false} SystemInvHolds(cfg: Config, d: Disk, ws: seq<World>)
    requires cfg.Valid()
    ensures SystemInv(cfg, After(cfg, Boot(d), ws))
  {
    if ws != [] {
      SystemInvHolds(cfg, d, Front(ws));
      SystemInvIsInductive(cfg, After(cfg, Boot(d), Front(ws)), Last(ws));
    }
  }

  /** The manual state is forced exactly by a failed restart or by a recovery that ends so. */
  lemma ManualEvents(cfg: Config, s: System, w: World)
    requires cfg.Valid() && SystemInv(cfg, s)
    ensures var r := Cycle(cfg, s, w);
            ManualIntervention in r.events <==>
            && r.system.machine.state == ManualInterventionRequired
            && (s.progress.Some? || exists f :: RestartExecuted(f, false) in r.events)
    ensures var r := Cycle(cfg, s, w);
            r.system.machine.state == ManualInterventionRequired && s.machine.state != ManualInterventionRequired ==>
            ManualIntervention in r.events
  {
    var r, o := Cycle(cfg, s, w), Observed(cfg, s, w);
    MachineInvIsInductive(cfg, s.machine, Evaluate(w.observation));
    CycleSystem(cfg, s, w);
    if s.progress.None? {
      var f := o.machine.state;
      CycleEvents(cfg, s, w, f, false);
      if f != s.machine.state {
        TransitionEvents(cfg, o, f, w, f, false);
        assert r == OnTransition(cfg, o, f, w);
      }
      forall g | RestartExecuted(g, false) in r.events
        ensures g == f
      {
        CycleEvents(cfg, s, w, g, false);
      }
    }
  }

  /** RECOVERING is entered exactly by a restart that Docker carried out. */
  lemma OnlyRestartsReachRecovery(cfg: Config, s: System, w: World)
    requires cfg.Valid() && SystemInv(cfg, s)
    ensures var r := Cycle(cfg, s, w);
            (exists f :: RestartExecuted(f, true) in r.events) <==>
            r.system.machine.state == State.Recovering && s.machine.state != State.Recovering
  {
    var r, f := Cycle(cfg, s, w), Observed(cfg, s, w).machine.state;
    MachineInvIsInductive(cfg, s.machine, Evaluate(w.observation));
    CycleSystem(cfg, s, w);
    CycleEvents(cfg, s, w, f, true);
    forall g | RestartExecuted(g, true) in r.events
      ensures g == f
    {
      CycleEvents(cfg, s, w, g, true);
    }
  }
}
