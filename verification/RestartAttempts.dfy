/**
 Attempts to restart, whether or not Docker carries them out. A failed one leaves no record, so the
 budget of the recorded restarts is a budget of the attempts only where none fails.
 */
module RestartAttempts {
  import opened Common
  import opened Settings
  import opened Verdicts
  import opened RestartGuard
  import opened RestartHistory
  import opened Docker
  import opened Events
  import opened Recovery
  import opened WatchdogLoop
  import opened WatchdogRuns

  ghost predicate Attempts(cfg: Config, s: System, w: World) {
    exists f, ok :: RestartExecuted(f, ok) in Cycle(cfg, s, w).events
  }

  /** The state a cycle attempts a restart for is the one its check moves the machine to. */
  ghost function Target(cfg: Config, s: System, w: World): State {
    Observed(cfg, s, w).machine.state
  }

  lemma AttemptsAreGuardedMoves(cfg: Config, s: System, w: World)
    ensures var f := Target(cfg, s, w);
            Attempts(cfg, s, w) <==> MovesTo(cfg, s, w, f) && GuardAllows(cfg, Observed(cfg, s, w), f, w)
  {
    var f := Target(cfg, s, w);
    CycleEvents(cfg, s, w, f, RestartOk(cfg, w));
    forall g, ok | RestartExecuted(g, ok) in Cycle(cfg, s, w).events
      ensures g == f && MovesTo(cfg, s, w, f) && GuardAllows(cfg, Observed(cfg, s, w), f, w)
    {
      CycleEvents(cfg, s, w, g, ok);
    }
  }

  /** Attempts by how they go; a request that went out may restart TeslaMate whatever the answer. */
  datatype Kind = Every | CarriedOut | Failed | Posted | PostedAndFailed

  predicate IsOf(cfg: Config, k: Kind, w: World) {
    var r := RestartContainer(cfg, cfg.teslamateContainer, w.listing, w.reply);
    match k
    case Every => true
    case CarriedOut => r.ok
    case Failed => !r.ok
    case Posted => r.posted.Some?
    case PostedAndFailed => r.posted.Some? && !r.ok
  }

  /** The attempts of one kind that a run makes, dated as a record of them would be. */
  ghost function AttemptLog(cfg: Config, s: System, ws: seq<World>, k: Kind): seq<RestartRecord> {
    if ws == [] then []
    else
      var before, w := After(cfg, s, Front(ws)), Last(ws);
      var log := AttemptLog(cfg, s, Front(ws), k);
      if Attempts(cfg, before, w) && IsOf(cfg, k, w)
      then log + [RestartRecord(w.recordedAt, Target(cfg, before, w))]
      else log
  }

  // ---- What is recorded of them ------------------------------------------------------------------

  /** The recorded restarts are the attempts that Docker carried out. */
  lemma {:induction false} CarriedOutAttemptsAreRecorded(cfg: Config, s: System, ws: seq<World>)
    ensures AttemptLog(cfg, s, ws, CarriedOut) == FullLog(cfg, s, ws).records
  {
    if ws != [] {
      CarriedOutAttemptsAreRecorded(cfg, s, Front(ws));
      var before, w := After(cfg, s, Front(ws)), Last(ws);
      AttemptsAreGuardedMoves(cfg, before, w);
      CycleSystem(cfg, before, w);
    }
  }

  lemma OneMoreInWindow(log: seq<RestartRecord>, r: RestartRecord, a: real, b: real)
    ensures CountIn(log + [r], a, b) == CountIn(log, a, b) + if a <= r.at <= b then 1 else 0
  {
    assert Front(log + [r]) == log;
  }

  /** What the last cycle of a run adds to a window: one if it attempts a restart of this kind then. */
  lemma LastAttempt(cfg: Config, s: System, ws: seq<World>, k: Kind, a: real, b: real)
    requires ws != []
    ensures CountIn(AttemptLog(cfg, s, ws, k), a, b)
         == CountIn(AttemptLog(cfg, s, Front(ws), k), a, b)
            + if Attempts(cfg, After(cfg, s, Front(ws)), Last(ws)) && IsOf(cfg, k, Last(ws)) && a <= Last(ws).recordedAt <= b
              then 1 else 0
  {
    var before, w := After(cfg, s, Front(ws)), Last(ws);
    OneMoreInWindow(AttemptLog(cfg, s, Front(ws), k), RestartRecord(w.recordedAt, Target(cfg, before, w)), a, b);
  }

  /** The attempts of kind `k` in a window are those carried out and those of kind `failed`. */
  ghost predicate Splits(cfg: Config, s: System, ws: seq<World>, k: Kind, failed: Kind, a: real, b: real) {
    CountIn(AttemptLog(cfg, s, ws, k), a, b)
    == CountIn(AttemptLog(cfg, s, ws, CarriedOut), a, b) + CountIn(AttemptLog(cfg, s, ws, failed), a, b)
  }

  lemma {:induction false} AttemptsSplit(cfg: Config, s: System, ws: seq<World>, k: Kind, failed: Kind, a: real, b: real)
    requires (k == Every && failed == Failed) || (k == Posted && failed == PostedAndFailed)
    ensures Splits(cfg, s, ws, k, failed, a, b)
  {
    if ws != [] {
      AttemptsSplit(cfg, s, Front(ws), k, failed, a, b);
      LastAttempt(cfg, s, ws, k, a, b);
      LastAttempt(cfg, s, ws, CarriedOut, a, b);
      LastAttempt(cfg, s, ws, failed, a, b);
      KindsSplit(cfg, Last(ws));
    }
  }

  lemma KindsSplit(cfg: Config, w: World)
    ensures !(IsOf(cfg, CarriedOut, w) && IsOf(cfg, Failed, w))
    ensures IsOf(cfg, CarriedOut, w) || IsOf(cfg, Failed, w)
    ensures !(IsOf(cfg, CarriedOut, w) && IsOf(cfg, PostedAndFailed, w))
    ensures IsOf(cfg, Posted, w) <==> IsOf(cfg, CarriedOut, w) || IsOf(cfg, PostedAndFailed, w)
  {
  }

  /** In every window of every run the attempts exceed the budget by at most the failed ones in it, and so do those posted. */
  lemma AttemptsExceedByFailures(cfg: Config, d: Disk, ws: seq<World>, a: real, b: real)
    requires cfg.Valid() && ClockHoldsInCycles(ws) && a <= b
    ensures var failed := CountIn(AttemptLog(cfg, Boot(d), ws, Failed), a, b);
            WithinBudget(cfg, CountIn(AttemptLog(cfg, Boot(d), ws, Every), a, b) - failed, a, b)
    ensures var failed := CountIn(AttemptLog(cfg, Boot(d), ws, PostedAndFailed), a, b);
            WithinBudget(cfg, CountIn(AttemptLog(cfg, Boot(d), ws, Posted), a, b) - failed, a, b)
  {
    AttemptsSplit(cfg, Boot(d), ws, Every, Failed, a, b);
    AttemptsSplit(cfg, Boot(d), ws, Posted, PostedAndFailed, a, b);
    CarriedOutAttemptsAreRecorded(cfg, Boot(d), ws);
    WatchdogBudget(cfg, d, ws, a, b);
  }

  // ---- Nothing bounds the failed ones --------------------------------------------------------------

  /** A check at time 0 with a healthy database, the container running or not, and these answers from Docker. */
  function DockerCheck(running: bool, listing: Option<seq<ContainerEntry>>, reply: Reply): World {
    World(Observation(Authenticated, None, false, Some(true), Some(running), None), 0.0, 0.0, 0.0, false, listing, reply, false, 0)
  }

  /** One good check, then `n` with the container stopped. */
  function StoppedFor(n: nat, listing: Option<seq<ContainerEntry>>, reply: Reply): seq<World> {
    if n == 0 then [DockerCheck(true, listing, reply)]
    else StoppedFor(n - 1, listing, reply) + [DockerCheck(false, listing, reply)]
  }

  lemma {:induction false} StoppedForMeets(n: nat, listing: Option<seq<ContainerEntry>>, reply: Reply)
    ensures Meets(StoppedFor(n, listing, reply), listing, reply) && ClockHoldsInCycles(StoppedFor(n, listing, reply))
  {
    if n > 0 {
      StoppedForMeets(n - 1, listing, reply);
    }
  }

  /** Nothing is recorded, and the next stopped container is a transition. */
  ghost predicate ReadyToFail(s: System) {
    && s.progress.None?
    && s.machine.state !in {TeslamateUnreachable, State.Recovering}
    && s.history == []
    && s.databaseStreak >= 1
  }

  lemma FirstCheckIsReady(cfg: Config, listing: Option<seq<ContainerEntry>>, reply: Reply)
    requires cfg.Valid()
    ensures ReadyToFail(After(cfg, Boot(EMPTY_DISK), StoppedFor(0, listing, reply)))
  {
    var s, w := Boot(EMPTY_DISK), DockerCheck(true, listing, reply);
    assert Front([w]) == [];
    assert After(cfg, s, [w]) == Cycle(cfg, s, w).system;
    assert Evaluate(w.observation) == Evaluation(Healthy, false, false);
    assert Target(cfg, s, w) in {Starting, Healthy};
    CycleSystem(cfg, s, w);
  }

  /** A failed attempt leaves the watchdog ready to fail again at once. */
  lemma FailedAttemptComesBack(cfg: Config, s: System, listing: Option<seq<ContainerEntry>>, reply: Reply)
    requires cfg.Valid() && cfg.autoRestart && cfg.maxRestartsPerDay > 0 && ReadyToFail(s)
    requires !RestartContainer(cfg, cfg.teslamateContainer, listing, reply).ok
    ensures var w := DockerCheck(false, listing, reply);
            Attempts(cfg, s, w) && ReadyToFail(Cycle(cfg, s, w).system)
  {
    var w := DockerCheck(false, listing, reply);
    assert Evaluate(w.observation) == Evaluation(TeslamateUnreachable, true, false);
    AttemptsAreGuardedMoves(cfg, s, w);
    CycleSystem(cfg, s, w);
  }

  /** Any number of attempts at one instant, whatever the cooldown, while Docker carries none of them out. */
  lemma {:induction false} FailedAttemptsPileUp(cfg: Config, listing: Option<seq<ContainerEntry>>, reply: Reply, n: nat, k: Kind)
    requires cfg.Valid() && cfg.autoRestart && cfg.maxRestartsPerDay > 0
    requires !RestartContainer(cfg, cfg.teslamateContainer, listing, reply).ok
    requires IsOf(cfg, k, DockerCheck(false, listing, reply))
    ensures var ws := StoppedFor(n, listing, reply);
            && ReadyToFail(After(cfg, Boot(EMPTY_DISK), ws))
            && CountIn(AttemptLog(cfg, Boot(EMPTY_DISK), ws, k), 0.0, 0.0) >= n
  {
    if n == 0 {
      FirstCheckIsReady(cfg, listing, reply);
    } else {
      FailedAttemptsPileUp(cfg, listing, reply, n - 1, k);
      OneMoreFailure(cfg, StoppedFor(n - 1, listing, reply), listing, reply, k);
    }
  }

  lemma OneMoreFailure(cfg: Config, ws: seq<World>, listing: Option<seq<ContainerEntry>>, reply: Reply, k: Kind)
    requires cfg.Valid() && cfg.autoRestart && cfg.maxRestartsPerDay > 0 && ReadyToFail(After(cfg, Boot(EMPTY_DISK), ws))
    requires !RestartContainer(cfg, cfg.teslamateContainer, listing, reply).ok
    requires IsOf(cfg, k, DockerCheck(false, listing, reply))
    ensures var s0, longer := Boot(EMPTY_DISK), ws + [DockerCheck(false, listing, reply)];
            && ReadyToFail(After(cfg, s0, longer))
            && CountIn(AttemptLog(cfg, s0, longer, k), 0.0, 0.0) == CountIn(AttemptLog(cfg, s0, ws, k), 0.0, 0.0) + 1
  {
    var s0, longer := Boot(EMPTY_DISK), ws + [DockerCheck(false, listing, reply)];
    assert Front(longer) == ws;
    FailedAttemptComesBack(cfg, After(cfg, s0, ws), listing, reply);
    LastAttempt(cfg, s0, longer, k, 0.0, 0.0);
  }

  // ---- When the documented budget holds of attempts ------------------------------------------------

  /** A run whose restart requests all meet this listing and this reply. */
  ghost predicate Meets(ws: seq<World>, listing: Option<seq<ContainerEntry>>, reply: Reply) {
    forall w | w in ws :: w.listing == listing && w.reply == reply
  }

  /** The attempts of this kind keep the budget, in every window of every such run. */
  ghost predicate AttemptsKeepTheBudget(cfg: Config, listing: Option<seq<ContainerEntry>>, reply: Reply, k: Kind) {
    forall d, ws, a: real, b: real | ClockHoldsInCycles(ws) && Meets(ws, listing, reply) && a <= b ::
      WithinBudget(cfg, CountIn(AttemptLog(cfg, Boot(d), ws, k), a, b), a, b)
  }

  lemma {:induction false} NoAttempts(cfg: Config, s: System, ws: seq<World>, k: Kind)
    requires !cfg.autoRestart || cfg.maxRestartsPerDay == 0 || forall w | w in ws :: !IsOf(cfg, k, w)
    ensures AttemptLog(cfg, s, ws, k) == []
  {
    if ws != [] {
      assert Last(ws) in ws && forall x | x in Front(ws) :: x in ws;
      NoAttempts(cfg, s, Front(ws), k);
      AttemptsAreGuardedMoves(cfg, After(cfg, s, Front(ws)), Last(ws));
    }
  }

  lemma NoFailures(cfg: Config, s: System, ws: seq<World>, listing: Option<seq<ContainerEntry>>, reply: Reply, k: Kind)
    requires Meets(ws, listing, reply) && k in {Failed, PostedAndFailed}
    requires var r := RestartContainer(cfg, cfg.teslamateContainer, listing, reply);
             r.ok || !cfg.autoRestart || cfg.maxRestartsPerDay == 0
    ensures AttemptLog(cfg, s, ws, k) == []
  {
    if RestartContainer(cfg, cfg.teslamateContainer, listing, reply).ok {
      forall w | w in ws
        ensures !IsOf(cfg, k, w)
      {
        assert w.listing == listing && w.reply == reply;
      }
    }
    NoAttempts(cfg, s, ws, k);
  }

  /** Where Docker carries the restarts out, or none is attempted, every attempt is within the budget. */
  lemma UnfailingAttemptsKeepTheBudget(cfg: Config, listing: Option<seq<ContainerEntry>>, reply: Reply, d: Disk, ws: seq<World>,
                                       a: real, b: real)
    requires cfg.Valid() && ClockHoldsInCycles(ws) && Meets(ws, listing, reply) && a <= b
    requires var r := RestartContainer(cfg, cfg.teslamateContainer, listing, reply);
             r.ok || !cfg.autoRestart || cfg.maxRestartsPerDay == 0
    ensures WithinBudget(cfg, CountIn(AttemptLog(cfg, Boot(d), ws, Every), a, b), a, b)
    ensures WithinBudget(cfg, CountIn(AttemptLog(cfg, Boot(d), ws, Posted), a, b), a, b)
  {
    AttemptsExceedByFailures(cfg, d, ws, a, b);
    NoFailures(cfg, Boot(d), ws, listing, reply, Failed);
    NoFailures(cfg, Boot(d), ws, listing, reply, PostedAndFailed);
  }

  lemma PiledUpAttemptsBreakTheBudget(cfg: Config, listing: Option<seq<ContainerEntry>>, reply: Reply, k: Kind)
    requires cfg.Valid() && cfg.autoRestart && cfg.maxRestartsPerDay > 0
    requires !RestartContainer(cfg, cfg.teslamateContainer, listing, reply).ok
    requires IsOf(cfg, k, DockerCheck(false, listing, reply))
    ensures !AttemptsKeepTheBudget(cfg, listing, reply, k)
  {
    var n := cfg.maxRestartsPerDay + 1;
    var ws := StoppedFor(n, listing, reply);
    StoppedForMeets(n, listing, reply);
    FailedAttemptsPileUp(cfg, listing, reply, n, k);
    assert ((0.0 - 0.0) / 86400.0).Floor == 0;
    assert !WithinBudget(cfg, CountIn(AttemptLog(cfg, Boot(EMPTY_DISK), ws, k), 0.0, 0.0), 0.0, 0.0);
  }

  /**
   The documented conditions on a restart bound the attempts exactly where Docker carries them out (or
   none is ever made): otherwise a run with a stopped container exceeds every bound.
   */
  lemma AttemptsKeepTheBudgetExactly(cfg: Config, listing: Option<seq<ContainerEntry>>, reply: Reply)
    requires cfg.Valid()
    ensures AttemptsKeepTheBudget(cfg, listing, reply, Every) <==>
            || RestartContainer(cfg, cfg.teslamateContainer, listing, reply).ok
            || !cfg.autoRestart || cfg.maxRestartsPerDay == 0
  {
    var r := RestartContainer(cfg, cfg.teslamateContainer, listing, reply);
    if r.ok || !cfg.autoRestart || cfg.maxRestartsPerDay == 0 {
      forall d, ws, a: real, b: real | ClockHoldsInCycles(ws) && Meets(ws, listing, reply) && a <= b
        ensures WithinBudget(cfg, CountIn(AttemptLog(cfg, Boot(d), ws, Every), a, b), a, b)
      {
        UnfailingAttemptsKeepTheBudget(cfg, listing, reply, d, ws, a, b);
      }
    } else {
      PiledUpAttemptsBreakTheBudget(cfg, listing, reply, Every);
    }
  }

  /** They bound the requests that go out exactly where none goes out unanswered. */
  lemma RequestsKeepTheBudgetExactly(cfg: Config, listing: Option<seq<ContainerEntry>>, reply: Reply)
    requires cfg.Valid()
    ensures var r := RestartContainer(cfg, cfg.teslamateContainer, listing, reply);
            AttemptsKeepTheBudget(cfg, listing, reply, Posted) <==>
            r.ok || r.posted.None? || !cfg.autoRestart || cfg.maxRestartsPerDay == 0
  {
    var r := RestartContainer(cfg, cfg.teslamateContainer, listing, reply);
    if r.ok || r.posted.None? || !cfg.autoRestart || cfg.maxRestartsPerDay == 0 {
      forall d, ws, a: real, b: real | ClockHoldsInCycles(ws) && Meets(ws, listing, reply) && a <= b
        ensures WithinBudget(cfg, CountIn(AttemptLog(cfg, Boot(d), ws, Posted), a, b), a, b)
      {
        if r.posted.None? {
          NoAttempts(cfg, Boot(d), ws, Posted);
          RestartBudget(cfg, [], [], a, b);
        } else {
          UnfailingAttemptsKeepTheBudget(cfg, listing, reply, d, ws, a, b);
        }
      }
    } else {
      PiledUpAttemptsBreakTheBudget(cfg, listing, reply, Posted);
    }
  }
}
