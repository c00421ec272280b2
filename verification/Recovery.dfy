/**
 The recovery controller (src/recovery.py): it issues the restart, holds the machine at
 RECOVERING, and decides from later checks how the recovery ends.
 */
module Recovery {
  import opened Common
  import opened Settings
  import opened Verdicts
  import opened Confirmation
  import opened RestartGuard
  import opened RestartHistory
  import opened Docker
  import opened Events

  datatype RecoveryStatus = StatusIdle | StatusWaiting | StatusConfirming | StatusRecovered | StatusManual

  datatype Progress = Progress(trigger: State, deadline: real, healthyStreak: nat, failureStreak: nat)

  /** What one cycle meets outside the watchdog: the observation, three clock readings, and the answers it would get. */
  datatype World = World(
    observation: Observation,
    askedAt: real,
    recordedAt: real,
    monotonic: real,
    authProbe: bool,
    listing: Option<seq<ContainerEntry>>,
    reply: Reply,
    captured: bool,
    saveSteps: nat)

  /** Everything the control kernel remembers between cycles. */
  datatype System = System(
    machine: Machine,
    progress: Option<Progress>,
    status: RecoveryStatus,
    history: seq<RestartRecord>,
    disk: Disk,
    databaseStreak: nat)

  datatype Stepped = Stepped(system: System, events: seq<Event>)

  /** How a recovery stands after a check. */
  datatype Outcome = Running(progress: Progress) | EndedHealthy | EndedManual

  /** One conclusive verdict after the deadline. */
  function Count(cfg: Config, p: Progress, v: Verdict): Outcome {
    if v.state == Healthy then
      if p.healthyStreak + 1 >= cfg.recoveryConfirmations then EndedHealthy
      else Running(p.(healthyStreak := p.healthyStreak + 1, failureStreak := 0))
    else
      if p.failureStreak + 1 >= cfg.failureConfirmations then EndedManual
      else Running(p.(failureStreak := p.failureStreak + 1, healthyStreak := 0))
  }

  function Advance(cfg: Config, p: Progress, now: real, v: Verdict): Outcome {
    if now < p.deadline || v.inconclusive then Running(p) else Count(cfg, p, v)
  }

  function RestartOk(cfg: Config, w: World): bool {
    RestartContainer(cfg, cfg.teslamateContainer, w.listing, w.reply).ok
  }

  function BeginRecovery(cfg: Config, s: System, state: State, w: World): Stepped {
    if !RestartOk(cfg, w) then
      Stepped(s.(machine := Fresh(ManualInterventionRequired), status := StatusManual),
              [RecoveryStarted(state), RestartExecuted(state, false), ManualIntervention])
    else
      var history := Recorded(s.history, RestartRecord(w.recordedAt, state));
      Stepped(s.(machine := Fresh(State.Recovering),
                 progress := Some(Progress(state, w.monotonic + cfg.postRestartWaitSeconds as real, 0, 0)),
                 status := StatusWaiting,
                 history := history,
                 disk := SaveUpTo(s.disk, history, w.saveSteps)),
              [RecoveryStarted(state), RestartExecuted(state, true)])
  }

  lemma BegunSystem(cfg: Config, s: System, state: State, w: World)
    requires RestartOk(cfg, w)
    ensures var after := BeginRecovery(cfg, s, state, w).system;
            && after.machine == Fresh(State.Recovering)
            && after.progress == Some(Progress(state, w.monotonic + cfg.postRestartWaitSeconds as real, 0, 0))
  {
  }

  function StepRecovery(cfg: Config, s: System, w: World): Stepped
    requires s.progress.Some?
  {
    var p := s.progress.value;
    if w.monotonic < p.deadline then Stepped(s.(status := StatusWaiting), [])
    else
      match Advance(cfg, p, w.monotonic, Evaluate(w.observation))
      case Running(q) => Stepped(s.(progress := Some(q), status := StatusConfirming), [])
      case EndedHealthy =>
        Stepped(s.(machine := Fresh(Healthy), progress := None, status := StatusRecovered), [Recovered(p.trigger)])
      case EndedManual =>
        Stepped(s.(machine := Fresh(ManualInterventionRequired), progress := None, status := StatusManual), [ManualIntervention])
  }

  class RecoveryController {
    const config: Config
    const machine: StateMachine
    const restarts: RestartManager
    const log: EventLog
    var progress: Option<Progress>
    var status: RecoveryStatus

    constructor (config: Config, machine: StateMachine, restarts: RestartManager, log: EventLog)
      requires machine.config == config && restarts.config == config
      ensures this.config == config && this.machine == machine && this.restarts == restarts && this.log == log
      ensures Wired() && progress == None && status == StatusIdle
    {
      this.config := config;
      this.machine := machine;
      this.restarts := restarts;
      this.log := log;
      progress := None;
      status := StatusIdle;
    }

    predicate Wired() {
      machine.config == config && restarts.config == config
    }

    ghost function View(databaseStreak: nat): System
      reads this, machine, restarts, restarts.file
    {
      System(machine.View(), progress, status, restarts.history, restarts.file.View(), databaseStreak)
    }

    /** Announce a diagnostics bundle, if one could be written. */
    method Capture(state: State, captured: bool)
      modifies log
      ensures log.events == old(log.events) + if captured then [DiagnosticsCaptured(state)] else []
    {
      if captured {
        log.Publish(DiagnosticsCaptured(state));
      }
    }

    method Begin(state: State, w: World, ghost databaseStreak: nat) returns (started: bool)
      requires Wired()
      modifies this, machine, restarts, restarts.file, log
      ensures var r := BeginRecovery(config, old(View(databaseStreak)), state, w);
              View(databaseStreak) == r.system && log.events == old(log.events) + r.events
      ensures started == RestartOk(config, w)
    {
      log.Publish(RecoveryStarted(state));
      var result := RestartContainer(config, config.teslamateContainer, w.listing, w.reply);
      log.Publish(RestartExecuted(state, result.ok));
      if !result.ok {
        status := StatusManual;
        var _ := machine.ForceState(ManualInterventionRequired);
        log.Publish(ManualIntervention);
        return false;
      }
      var _ := restarts.Record(state, w.recordedAt, w.saveSteps);
      progress := Some(Progress(state, w.monotonic + config.postRestartWaitSeconds as real, 0, 0));
      status := StatusWaiting;
      var _ := machine.ForceState(State.Recovering);
      return true;
    }

    method Step(w: World, ghost databaseStreak: nat)
      requires Wired()
      modifies this, machine, log
      ensures var r := if old(progress).None? then Stepped(old(View(databaseStreak)), [])
                       else StepRecovery(config, old(View(databaseStreak)), w);
              View(databaseStreak) == r.system && log.events == old(log.events) + r.events
    {
      if progress == None {
        return;
      }
      var p := progress.value;
      if w.monotonic < p.deadline {
        status := StatusWaiting;
        return;
      }
      status := StatusConfirming;
      var result := Evaluate(w.observation);
      if result.inconclusive {
        return;
      }
      if result.state == Healthy {
        p := p.(healthyStreak := p.healthyStreak + 1, failureStreak := 0);
        progress := Some(p);
        if p.healthyStreak >= config.recoveryConfirmations {
          Finish(StatusRecovered, Healthy, Recovered(p.trigger));
        }
        return;
      }
      p := p.(failureStreak := p.failureStreak + 1, healthyStreak := 0);
      progress := Some(p);
      if p.failureStreak >= config.failureConfirmations {
        Finish(StatusManual, ManualInterventionRequired, ManualIntervention);
      }
    }

    /** The shared shape of `_finish_recovered` and `_finish_manual`. */
    method Finish(status: RecoveryStatus, state: State, e: Event)
      modifies this, machine, log
      ensures progress == None && this.status == status
      ensures machine.View() == Fresh(state)
      ensures log.events == old(log.events) + [e]
    {
      progress := None;
      this.status := status;
      var _ := machine.ForceState(state);
      log.Publish(e);
    }
  }

  // ---- How a recovery ends ---------------------------------------------------------------------

  /** One check while recovery is active. */
  datatype Check = Check(now: real, verdict: Verdict)

  function Drive(cfg: Config, p: Progress, cs: seq<Check>): Outcome {
    if cs == [] then Running(p)
    else
      match Drive(cfg, p, Front(cs))
      case Running(q) => Advance(cfg, q, Last(cs).now, Last(cs).verdict)
      case ended => ended
  }

  predicate Counts(c: Check, deadline: real) {
    c.now >= deadline && !c.verdict.inconclusive
  }

  /** The verdicts that count: conclusive, and not before the deadline. */
  function Counted(cs: seq<Check>, deadline: real): seq<Verdict> {
    if cs == [] then []
    else Counted(Front(cs), deadline) + if Counts(Last(cs), deadline) then [Last(cs).verdict] else []
  }

  function Settle(cfg: Config, p: Progress, vs: seq<Verdict>): Outcome {
    if vs == [] then Running(p)
    else
      match Settle(cfg, p, Front(vs))
      case Running(q) => Count(cfg, q, Last(vs))
      case ended => ended
  }

  lemma {:induction false} SettleKeepsTheDeadline(cfg: Config, p: Progress, vs: seq<Verdict>)
    ensures var o := Settle(cfg, p, vs);
            o.Running? ==> o.progress.deadline == p.deadline && o.progress.trigger == p.trigger
  {
    if vs != [] {
      SettleKeepsTheDeadline(cfg, p, Front(vs));
    }
  }

  /** Checks before the deadline and inconclusive ones are stutter steps of a recovery. */
  lemma {:induction false} OnlyCountedChecksMatter(cfg: Config, p: Progress, cs: seq<Check>)
    ensures Drive(cfg, p, cs) == Settle(cfg, p, Counted(cs, p.deadline))
  {
    if cs != [] {
      OnlyCountedChecksMatter(cfg, p, Front(cs));
      var vs := Counted(Front(cs), p.deadline);
      SettleKeepsTheDeadline(cfg, p, vs);
      assert Front(vs + [Last(cs).verdict]) == vs;
      assert vs + [] == vs;
    }
  }

  /** The `n` verdicts up to `k` are all healthy, or all not. */
  ghost predicate PolarityRun(vs: seq<Verdict>, k: nat, n: nat, healthy: bool)
    requires k < |vs|
  {
    n <= k + 1 && forall j | k + 1 - n <= j <= k :: (vs[j].state == Healthy) == healthy
  }

  ghost predicate EndsAt(cfg: Config, vs: seq<Verdict>, k: nat)
    requires k < |vs|
  {
    PolarityRun(vs, k, cfg.recoveryConfirmations, true) || PolarityRun(vs, k, cfg.failureConfirmations, false)
  }

  ghost predicate FirstEnd(cfg: Config, vs: seq<Verdict>, k: nat) {
    k < |vs| && EndsAt(cfg, vs, k) && forall j: nat | j < k :: !EndsAt(cfg, vs, j)
  }

  /** `streak` is the length of the trailing run of the given polarity. */
  ghost predicate TailPolarity(vs: seq<Verdict>, healthy: bool, streak: nat) {
    && streak <= |vs|
    && (forall j | |vs| - streak <= j < |vs| :: (vs[j].state == Healthy) == healthy)
    && (streak < |vs| ==> (vs[|vs| - streak - 1].state == Healthy) != healthy)
  }

  lemma TailPolarityIsARun(vs: seq<Verdict>, healthy: bool, streak: nat, n: nat)
    requires vs != [] && TailPolarity(vs, healthy, streak)
    ensures streak >= n <==> PolarityRun(vs, |vs| - 1, n, healthy)
  {
    var k := |vs| - 1;
    if streak < n <= k + 1 {
      assert (vs[k - streak].state == Healthy) != healthy;
    }
  }

  lemma TailPolarityStep(vs: seq<Verdict>, v: Verdict, healthy: bool, streak: nat)
    requires TailPolarity(vs, healthy, streak)
    ensures TailPolarity(vs + [v], healthy, if (v.state == Healthy) == healthy then streak + 1 else 0)
  {
  }

  lemma EndsAtInPrefix(cfg: Config, vs: seq<Verdict>, v: Verdict, k: nat)
    requires k < |vs|
    ensures EndsAt(cfg, vs + [v], k) <==> EndsAt(cfg, vs, k)
  {
    var longer := vs + [v];
    assert forall j | 0 <= j <= k :: longer[j] == vs[j];
  }

  ghost predicate SettledAs(cfg: Config, vs: seq<Verdict>, o: Outcome) {
    match o
    case Running(q) =>
      && (forall k: nat | k < |vs| :: !EndsAt(cfg, vs, k))
      && TailPolarity(vs, true, q.healthyStreak)
      && TailPolarity(vs, false, q.failureStreak)
    case EndedHealthy => exists k: nat :: FirstEnd(cfg, vs, k) && vs[k].state == Healthy
    case EndedManual => exists k: nat :: FirstEnd(cfg, vs, k) && vs[k].state != Healthy
  }

  lemma SettledAsStep(cfg: Config, vs: seq<Verdict>, v: Verdict, o: Outcome)
    requires cfg.Valid() && SettledAs(cfg, vs, o)
    ensures SettledAs(cfg, vs + [v], if o.Running? then Count(cfg, o.progress, v) else o)
  {
    var longer := vs + [v];
    forall k: nat | k < |vs|
      ensures EndsAt(cfg, longer, k) <==> EndsAt(cfg, vs, k)
    {
      EndsAtInPrefix(cfg, vs, v, k);
    }
    match o
    case Running(q) =>
      TailPolarityStep(vs, v, true, q.healthyStreak);
      TailPolarityStep(vs, v, false, q.failureStreak);
      var up := if v.state == Healthy then q.healthyStreak + 1 else 0;
      var down := if v.state == Healthy then 0 else q.failureStreak + 1;
      TailPolarityIsARun(longer, true, up, cfg.recoveryConfirmations);
      TailPolarityIsARun(longer, false, down, cfg.failureConfirmations);
      assert EndsAt(cfg, longer, |vs|) <==> up >= cfg.recoveryConfirmations || down >= cfg.failureConfirmations;
      assert EndsAt(cfg, longer, |vs|) ==> FirstEnd(cfg, longer, |vs|);
    case EndedHealthy =>
      var k: nat :| FirstEnd(cfg, vs, k) && vs[k].state == Healthy;
      assert FirstEnd(cfg, longer, k) && longer[k] == vs[k];
    case EndedManual =>
      var k: nat :| FirstEnd(cfg, vs, k) && vs[k].state != Healthy;
      assert FirstEnd(cfg, longer, k) && longer[k] == vs[k];
  }

  lemma {:induction false} SettleIsExact(cfg: Config, trigger: State, deadline: real, vs: seq<Verdict>)
    requires cfg.Valid()
    ensures SettledAs(cfg, vs, Settle(cfg, Progress(trigger, deadline, 0, 0), vs))
  {
    if vs != [] {
      SettleIsExact(cfg, trigger, deadline, Front(vs));
      SettledAsStep(cfg, Front(vs), Last(vs), Settle(cfg, Progress(trigger, deadline, 0, 0), Front(vs)));
      assert vs == Front(vs) + [Last(vs)];
    }
  }

  /**
   A recovery ends healthy exactly when the first long enough run among the counted verdicts is
   healthy, in manual intervention exactly when it is not, and goes on exactly while there is none.
   */
  lemma RecoveryOutcomeIsExact(cfg: Config, trigger: State, deadline: real, cs: seq<Check>)
    requires cfg.Valid()
    ensures var vs := Counted(cs, deadline);
            var o := Drive(cfg, Progress(trigger, deadline, 0, 0), cs);
            && (o.EndedHealthy? <==> exists k: nat :: FirstEnd(cfg, vs, k) && vs[k].state == Healthy)
            && (o.EndedManual? <==> exists k: nat :: FirstEnd(cfg, vs, k) && vs[k].state != Healthy)
            && (o.Running? <==> forall k: nat | k < |vs| :: !EndsAt(cfg, vs, k))
  {
    OnlyCountedChecksMatter(cfg, Progress(trigger, deadline, 0, 0), cs);
    var vs := Counted(cs, deadline);
    SettleIsExact(cfg, trigger, deadline, vs);
    forall i: nat, j: nat | FirstEnd(cfg, vs, i) && FirstEnd(cfg, vs, j)
      ensures i == j
    {
    }
  }

  ghost predicate ProgressInv(cfg: Config, p: Progress) {
    && p.healthyStreak < cfg.recoveryConfirmations
    && p.failureStreak < cfg.failureConfirmations
    && !(p.healthyStreak > 0 && p.failureStreak > 0)
  }

  /** How many more counted verdicts of this polarity a recovery can take without ending. */
  function Left(cfg: Config, p: Progress, healthy: bool): int {
    if healthy then cfg.recoveryConfirmations - p.healthyStreak else cfg.failureConfirmations - p.failureStreak
  }

  ghost predicate OnePolarity(vs: seq<Verdict>, healthy: bool) {
    forall v | v in vs :: (v.state == Healthy) == healthy
  }

  lemma {:induction false} EachVerdictUsesOneUp(cfg: Config, p: Progress, vs: seq<Verdict>, healthy: bool)
    requires cfg.Valid() && ProgressInv(cfg, p) && OnePolarity(vs, healthy)
    ensures match Settle(cfg, p, vs)
            case Running(q) => ProgressInv(cfg, q) && Left(cfg, q, healthy) + |vs| == Left(cfg, p, healthy)
            case EndedHealthy => healthy
            case EndedManual => !healthy
  {
    if vs != [] {
      assert Last(vs) in vs;
      assert forall v | v in Front(vs) :: v in vs;
      EachVerdictUsesOneUp(cfg, p, Front(vs), healthy);
    }
  }

  /**
   Once the polarity settles, each counted check uses up the measure, and the end has that polarity,
   whatever inconclusive or early checks come between.
   */
  lemma SettledPolarityConsumesTheMeasure(cfg: Config, p: Progress, cs: seq<Check>, healthy: bool)
    requires cfg.Valid() && ProgressInv(cfg, p) && OnePolarity(Counted(cs, p.deadline), healthy)
    ensures match Drive(cfg, p, cs)
            case Running(q) =>
              && ProgressInv(cfg, q) && q.deadline == p.deadline
              && Left(cfg, q, healthy) + |Counted(cs, p.deadline)| == Left(cfg, p, healthy)
            case EndedHealthy => healthy
            case EndedManual => !healthy
  {
    OnlyCountedChecksMatter(cfg, p, cs);
    SettleKeepsTheDeadline(cfg, p, Counted(cs, p.deadline));
    EachVerdictUsesOneUp(cfg, p, Counted(cs, p.deadline), healthy);
  }

  /** Exit is bounded: enough further counted checks of one polarity end the recovery that way, wherever it stood. */
  lemma SettledPolarityEndsRecovery(cfg: Config, p: Progress, cs: seq<Check>, healthy: bool)
    requires cfg.Valid() && ProgressInv(cfg, p) && OnePolarity(Counted(cs, p.deadline), healthy)
    requires |Counted(cs, p.deadline)| >= if healthy then cfg.recoveryConfirmations else cfg.failureConfirmations
    ensures Drive(cfg, p, cs) == if healthy then EndedHealthy else EndedManual
  {
    SettledPolarityConsumesTheMeasure(cfg, p, cs, healthy);
  }
}
