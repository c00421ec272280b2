/** The language of event traces (src/main.py, src/recovery.py): what may follow what, over every run. */
module EventProtocol {
  import opened Common
  import opened Settings
  import opened Verdicts
  import opened RestartHistory
  import opened Events
  import opened Recovery
  import opened WatchdogLoop

  /** Where a trace stands; the last three are inside a restart, and `Broken` is never left. */
  datatype Phase =
    | Quiet
    | Detected(state: State)
    | Bundled(state: State)
    | GaveUp(state: State)
    | Announced(state: State)
    | RestartFailed(state: State)
    | Awaiting(state: State)
    | Broken
  {
    /** A trace may rest here at the end of a cycle without recovery. */
    predicate Resting() {
      Quiet? || Detected? || Bundled? || GaveUp?
    }

    predicate Open() {
      Announced? || RestartFailed? || Awaiting?
    }
  }

  function Follow(ph: Phase, e: Event): Phase {
    if ph.Resting() && e.FailureDetected? then Detected(e.state)
    else if ph.Detected? && e == DiagnosticsCaptured(ph.state) then Bundled(ph.state)
    else if (ph.Detected? || ph.Bundled?) && e == RecoveryStarted(ph.state) then Announced(ph.state)
    else if (ph.Detected? || ph.Bundled?) && e == DatabaseUnhealthyReported && ph.state == DatabaseUnhealthy then Quiet
    else if (ph.Detected? || ph.Bundled? || ph.GaveUp?) && e == AuthenticationRequired(ph.state) && IsAuthState(ph.state) then Quiet
    else if ph.Announced? && e == RestartExecuted(ph.state, true) then Awaiting(ph.state)
    else if ph.Announced? && e == RestartExecuted(ph.state, false) then RestartFailed(ph.state)
    else if ph.RestartFailed? && e == ManualIntervention then GaveUp(ph.state)
    else if ph.Awaiting? && (e == ManualIntervention || e == Recovered(ph.state)) then Quiet
    else Broken
  }

  function FollowAll(ph: Phase, es: seq<Event>): Phase {
    if es == [] then ph else Follow(FollowAll(ph, Front(es)), Last(es))
  }

  lemma {:induction false} FollowConcat(ph: Phase, a: seq<Event>, b: seq<Event>)
    ensures FollowAll(ph, a + b) == FollowAll(FollowAll(ph, a), b)
  {
    if b == [] {
      assert a + b == a;
    } else {
      assert Front(a + b) == a + Front(b);
      FollowConcat(ph, a, Front(b));
    }
  }

  lemma FollowOne(ph: Phase, e: Event)
    ensures FollowAll(ph, [e]) == Follow(ph, e)
  {
    assert Front([e]) == [];
  }

  lemma FollowTwo(ph: Phase, e: Event, next: Event)
    ensures FollowAll(ph, [e, next]) == Follow(Follow(ph, e), next)
  {
    FollowOne(ph, e);
    assert Front([e, next]) == [e];
  }

  /** The phase a trace may be in when the system stands at `s` between cycles. */
  ghost predicate Fits(ph: Phase, s: System) {
    if s.progress.Some? then ph == Awaiting(s.progress.value.trigger) else ph.Resting()
  }

  lemma FollowThree(ph: Phase, a: Event, b: Event, c: Event)
    ensures FollowAll(ph, [a, b, c]) == Follow(Follow(Follow(ph, a), b), c)
  {
    FollowTwo(ph, a, b);
    assert Front([a, b, c]) == [a, b];
  }

  lemma RestartFollows(ph: Phase, state: State)
    requires ph == Detected(state) || ph == Bundled(state)
    ensures FollowAll(ph, [RecoveryStarted(state), RestartExecuted(state, true)]) == Awaiting(state)
    ensures FollowAll(ph, [RecoveryStarted(state), RestartExecuted(state, false), ManualIntervention]) == GaveUp(state)
  {
    FollowTwo(ph, RecoveryStarted(state), RestartExecuted(state, true));
    FollowThree(ph, RecoveryStarted(state), RestartExecuted(state, false), ManualIntervention);
  }

  lemma BeginFollows(cfg: Config, s: System, state: State, w: World, ph: Phase)
    requires ph == Detected(state) || ph == Bundled(state)
    ensures FollowAll(ph, BeginRecovery(cfg, s, state, w).events)
         == if RestartOk(cfg, w) then Awaiting(state) else GaveUp(state)
  {
    RestartFollows(ph, state);
  }

  lemma ConsiderationFollows(cfg: Config, s: System, state: State, w: World)
    requires s.progress.None?
    ensures var c := ConsiderRecovery(cfg, s, state, w);
            var ph := FollowAll(Detected(state), c.events);
            if c.restarting then RestartAllowed(state) && Fits(ph, c.system) && c.system.progress.Some?
            else c.system.progress.None? && ph in {Detected(state), Bundled(state), GaveUp(state)}
                 && (ph == GaveUp(state) ==> RestartAllowed(state))
  {
    var bundle := Bundle(state, w);
    if bundle != [] {
      FollowOne(Detected(state), bundle[0]);
    }
    if GuardAllows(cfg, s, state, w) {
      var ph := FollowAll(Detected(state), bundle);
      FollowConcat(Detected(state), bundle, BeginRecovery(cfg, s, state, w).events);
      BeginFollows(cfg, s, state, w, ph);
    }
  }

  lemma AdviceFollows(state: State, restarting: bool, ph: Phase)
    requires if restarting then RestartAllowed(state)
             else ph in {Detected(state), Bundled(state), GaveUp(state)} && (ph == GaveUp(state) ==> RestartAllowed(state))
    ensures var after := FollowAll(ph, Advice(state, restarting));
            if restarting then after == ph else after.Resting()
  {
    var advice := Advice(state, restarting);
    if advice != [] {
      FollowOne(ph, advice[0]);
    }
  }

  lemma TransitionFollows(cfg: Config, s: System, state: State, w: World, ph: Phase)
    requires s.progress.None? && ph.Resting()
    ensures var r := OnTransition(cfg, s, state, w);
            Fits(FollowAll(ph, r.events), r.system)
  {
    if IsFailureState(state) {
      var c := ConsiderRecovery(cfg, s, state, w);
      var head, advice := [FailureDetected(state)], Advice(state, c.restarting);
      FollowOne(ph, FailureDetected(state));
      ConsiderationFollows(cfg, s, state, w);
      FollowConcat(ph, head, c.events);
      FollowConcat(ph, head + c.events, advice);
      AdviceFollows(state, c.restarting, FollowAll(Detected(state), c.events));
    }
  }

  lemma CycleFollows(cfg: Config, s: System, w: World, ph: Phase)
    requires Fits(ph, s)
    ensures var r := Cycle(cfg, s, w);
            Fits(FollowAll(ph, r.events), r.system)
  {
    if s.progress.Some? {
      var es := Cycle(cfg, s, w).events;
      if es != [] {
        FollowOne(ph, es[0]);
      }
    } else {
      var o := Observed(cfg, s, w);
      TransitionFollows(cfg, o, o.machine.state, w, ph);
    }
  }

  /** Every run's trace is accepted, and ends waiting for an outcome exactly while a recovery is active. */
  lemma {:induction false} TraceFollows(cfg: Config, d: Disk, ws: seq<World>)
    ensures Fits(FollowAll(Quiet, Trace(cfg, Boot(d), ws)), After(cfg, Boot(d), ws))
  {
    if ws != [] {
      TraceFollows(cfg, d, Front(ws));
      var s := After(cfg, Boot(d), Front(ws));
      CycleFollows(cfg, s, Last(ws), FollowAll(Quiet, Trace(cfg, Boot(d), Front(ws))));
      FollowConcat(Quiet, Trace(cfg, Boot(d), Front(ws)), Cycle(cfg, s, Last(ws)).events);
    }
  }

  // ---- What an accepted trace looks like -------------------------------------------------------------------

  lemma {:induction false} AcceptedPrefix(es: seq<Event>, i: nat)
    requires i <= |es| && FollowAll(Quiet, es) != Broken
    ensures FollowAll(Quiet, es[..i]) != Broken
    decreases |es|
  {
    if i == |es| {
      assert es[..i] == es;
    } else {
      AcceptedPrefix(Front(es), i);
      assert Front(es)[..i] == es[..i];
    }
  }

  /** What may come right after an event. */
  predicate MayFollow(e: Event, next: Event) {
    match e
    case RecoveryStarted(s) => next == RestartExecuted(s, true) || next == RestartExecuted(s, false)
    case RestartExecuted(s, false) => next == ManualIntervention
    case RestartExecuted(s, true) => next == Recovered(s) || next == ManualIntervention
    case _ => !next.RestartExecuted? && !next.Recovered? && !next.ManualIntervention?
  }

  /** What must come after event `i`, in a trace that ends between cycles. */
  ghost predicate NextFits(es: seq<Event>, i: nat)
    requires i < |es|
  {
    if i + 1 < |es| then MayFollow(es[i], es[i + 1])
    else !es[i].RecoveryStarted? && (es[i].RestartExecuted? ==> es[i].success)
  }

  /** What must have come before event `i`. */
  ghost predicate PreviousFits(es: seq<Event>, i: nat)
    requires i < |es|
  {
    match es[i]
    case FailureDetected(_) => true
    case DiagnosticsCaptured(s) => i > 0 && es[i - 1] == FailureDetected(s)
    case RecoveryStarted(s) => i > 0 && (es[i - 1] == FailureDetected(s) || es[i - 1] == DiagnosticsCaptured(s))
    case RestartExecuted(s, _) => i > 0 && es[i - 1] == RecoveryStarted(s)
    case Recovered(s) => i > 0 && es[i - 1] == RestartExecuted(s, true)
    case ManualIntervention => i > 0 && es[i - 1].RestartExecuted?
    case DatabaseUnhealthyReported =>
      i > 0 && (es[i - 1] == FailureDetected(DatabaseUnhealthy) || es[i - 1] == DiagnosticsCaptured(DatabaseUnhealthy))
    case AuthenticationRequired(s) =>
      && IsAuthState(s) && i > 0
      && (es[i - 1] == FailureDetected(s) || es[i - 1] == DiagnosticsCaptured(s)
          || (es[i - 1] == ManualIntervention && i > 1 && es[i - 2] == RestartExecuted(s, false)))
  }

  lemma StepOfTrace(es: seq<Event>, i: nat)
    requires i < |es| && FollowAll(Quiet, es) != Broken
    ensures FollowAll(Quiet, es[..i + 1]) == Follow(FollowAll(Quiet, es[..i]), es[i]) != Broken
  {
    assert Front(es[..i + 1]) == es[..i];
    AcceptedPrefix(es, i + 1);
  }

  lemma FollowPair(ph: Phase, e: Event, next: Event)
    requires Follow(Follow(ph, e), next) != Broken
    ensures MayFollow(e, next)
  {
    match Follow(ph, e)
    case Announced(s) => assert e == RecoveryStarted(s);
    case RestartFailed(s) => assert e == RestartExecuted(s, false);
    case Awaiting(s) => assert e == RestartExecuted(s, true);
    case Broken => assert false;
    case _ => assert !e.RecoveryStarted? && !e.RestartExecuted?;
  }

  lemma AcceptedNext(es: seq<Event>, i: nat)
    requires FollowAll(Quiet, es).Resting() || FollowAll(Quiet, es).Awaiting?
    requires i < |es|
    ensures NextFits(es, i)
  {
    StepOfTrace(es, i);
    if i + 1 < |es| {
      StepOfTrace(es, i + 1);
      FollowPair(FollowAll(Quiet, es[..i]), es[i], es[i + 1]);
    } else {
      assert es[..i + 1] == es;
    }
  }

  /** The events that lead into a phase. */
  ghost predicate Shown(ph: Phase, es: seq<Event>, i: nat)
    requires i <= |es|
  {
    match ph
    case Detected(s) => i > 0 && es[i - 1] == FailureDetected(s)
    case Bundled(s) => i > 0 && es[i - 1] == DiagnosticsCaptured(s)
    case Announced(s) => i > 0 && es[i - 1] == RecoveryStarted(s)
    case RestartFailed(s) => i > 0 && es[i - 1] == RestartExecuted(s, false)
    case Awaiting(s) => i > 0 && es[i - 1] == RestartExecuted(s, true)
    case GaveUp(s) => i > 1 && es[i - 1] == ManualIntervention && es[i - 2] == RestartExecuted(s, false)
    case _ => true
  }

  lemma {:induction false} PhaseIsShown(es: seq<Event>, i: nat)
    requires i <= |es| && FollowAll(Quiet, es) != Broken
    ensures Shown(FollowAll(Quiet, es[..i]), es, i)
    decreases i
  {
    if i > 0 {
      StepOfTrace(es, i - 1);
      PhaseIsShown(es, i - 1);
    }
  }

  lemma AcceptedPrevious(es: seq<Event>, i: nat)
    requires FollowAll(Quiet, es) != Broken && i < |es|
    ensures PreviousFits(es, i)
  {
    StepOfTrace(es, i);
    PhaseIsShown(es, i);
  }

  predicate IsStart(e: Event) { e.RecoveryStarted? }
  predicate IsEnd(e: Event) { e.Recovered? || e.ManualIntervention? }

  function Tally(es: seq<Event>, p: Event -> bool): nat {
    if es == [] then 0 else Tally(Front(es), p) + if p(Last(es)) then 1 else 0
  }

  lemma {:induction false} AcceptedBalance(es: seq<Event>)
    requires FollowAll(Quiet, es) != Broken
    ensures Tally(es, IsStart) == Tally(es, IsEnd) + if FollowAll(Quiet, es).Open() then 1 else 0
  {
    if es != [] {
      AcceptedBalance(Front(es));
    }
  }

  /**
   The event order of every run: a failure is detected before its diagnostics, the diagnostics come
   before the recovery starts, a started recovery is followed at once by its restart, a failed
   restart at once by the call for a human, a successful one by exactly one outcome, advice comes
   last; and every started recovery has ended, except the one still active.
   */
  lemma EventOrder(cfg: Config, d: Disk, ws: seq<World>)
    ensures var es := Trace(cfg, Boot(d), ws);
            && (forall i: nat | i < |es| :: NextFits(es, i) && PreviousFits(es, i))
            && Tally(es, IsStart)
               == Tally(es, IsEnd) + if After(cfg, Boot(d), ws).progress.Some? then 1 else 0
  {
    TraceFollows(cfg, d, ws);
    var es := Trace(cfg, Boot(d), ws);
    forall i: nat | i < |es|
      ensures NextFits(es, i) && PreviousFits(es, i)
    {
      AcceptedNext(es, i);
      AcceptedPrevious(es, i);
    }
    AcceptedBalance(es);
  }

  // ---- Asking the human for tokens -------------------------------------------------------------

  /** No cycle both asks for fresh tokens and leaves a recovery active. */
  lemma TokensAreNotRequestedDuringRecovery(cfg: Config, s: System, w: World, a: State)
    requires AuthenticationRequired(a) in Cycle(cfg, s, w).events
    ensures Cycle(cfg, s, w).system.progress.None?
  {
    CycleEvents(cfg, s, w, a, true);
    CycleSystem(cfg, s, w);
  }

  /**
   A cycle asks for fresh tokens although it attempted a restart exactly when its check confirms a
   logout, the guard allows the restart and Docker does not carry it out.
   */
  lemma TokensAreRequestedAfterAFailedLogoutRestart(cfg: Config, s: System, w: World)
    ensures var es := Cycle(cfg, s, w).events;
            (exists a, b, ok :: AuthenticationRequired(a) in es && RestartExecuted(b, ok) in es) <==>
            MovesTo(cfg, s, w, LoggedOut) && GuardAllows(cfg, Observed(cfg, s, w), LoggedOut, w) && !RestartOk(cfg, w)
  {
    var es := Cycle(cfg, s, w).events;
    CycleEvents(cfg, s, w, LoggedOut, false);
    forall a, b, ok | AuthenticationRequired(a) in es && RestartExecuted(b, ok) in es
      ensures b == LoggedOut && !ok
    {
      CycleEvents(cfg, s, w, a, ok);
      CycleEvents(cfg, s, w, b, ok);
    }
  }

  /** Such a cycle happens: two checks with a healthy database, a confirmed logout, and a container that is not listed. */
  lemma FailedLogoutRestartHappens(cfg: Config)
    requires cfg.Valid() && cfg.failureConfirmations == 1
    requires cfg.autoRestart && cfg.loggedOutRestart && cfg.maxRestartsPerDay > 0
    ensures var es := Trace(cfg, Boot(EMPTY_DISK), [CheckOf(Authenticated, true), CheckOf(SignInPage, true)]);
            RestartExecuted(LoggedOut, false) in es && AuthenticationRequired(LoggedOut) in es
  {
    var s0, a, b := Boot(EMPTY_DISK), CheckOf(Authenticated, true), CheckOf(SignInPage, true);
    assert Front([a, b]) == [a] && Front([a]) == [];
    var s := Cycle(cfg, s0, a).system;
    assert After(cfg, s0, [a]) == s;
    FirstGoodCheck(cfg, EMPTY_DISK, true);
    SignInPageConfirms(cfg, s, true);
    CycleEvents(cfg, s, b, LoggedOut, false);
    assert forall e | e in Cycle(cfg, s, b).events :: e in Trace(cfg, s0, [a, b]);
  }
}
