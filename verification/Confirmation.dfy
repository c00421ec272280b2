/**
 The confirmation state machine (src/state_machine.py, `StateMachine`): streak counters decide
 when a verdict becomes the state. `Next` is the step on values, the class is the object that
 carries it out, and the lemmas say what the counters mean in terms of the verdict history.
 */
module Confirmation {
  import opened Common
  import opened Settings
  import opened Verdicts

  datatype Machine = Machine(
    state: State,
    candidate: Option<State>,
    candidateStreak: nat,
    healthyStreak: nat)

  datatype Transition = Transition(previous: State, current: State)

  /** A machine just created, or just put into `s` by `force_state`. */
  function Fresh(s: State): Machine {
    Machine(s, None, 0, 0)
  }

  function Required(cfg: Config, s: State): nat {
    if s == Healthy then cfg.recoveryConfirmations
    else if s == LoggerUnhealthy then cfg.loggerConfirmations
    else cfg.failureConfirmations
  }

  function ObserveHealthy(cfg: Config, m: Machine): Machine {
    var streak := m.healthyStreak + 1;
    Machine(if streak >= cfg.recoveryConfirmations then Healthy else m.state, None, 0, streak)
  }

  function ObserveFailure(cfg: Config, m: Machine, e: Verdict): Machine {
    var streak := if m.candidate == Some(e.state) then m.candidateStreak + 1 else 1;
    var confirmed := e.immediate || streak >= Required(cfg, e.state);
    Machine(if confirmed then e.state else m.state, Some(e.state), streak, 0)
  }

  function Next(cfg: Config, m: Machine, e: Verdict): Machine {
    if m.state == Recovering || e.inconclusive then m
    else if e.state == Healthy then ObserveHealthy(cfg, m)
    else ObserveFailure(cfg, m, e)
  }

  class StateMachine {
    const config: Config
    var state: State
    var candidate: Option<State>
    var candidateStreak: nat
    var healthyStreak: nat

    ghost function View(): Machine
      reads this
    {
      Machine(state, candidate, candidateStreak, healthyStreak)
    }

    constructor (config: Config, initial: State)
      ensures this.config == config
      ensures View() == Fresh(initial)
    {
      this.config := config;
      state := initial;
      candidate := None;
      candidateStreak := 0;
      healthyStreak := 0;
    }

    /** Takes the verdict on one observation; the result names the two states if they differ. */
    method Step(o: Observation) returns (t: Option<Transition>)
      modifies this
      ensures View() == Next(config, old(View()), Evaluate(o))
      ensures t == if state == old(state) then None else Some(Transition(old(state), state))
    {
      if state == Recovering {
        return None;
      }
      var evaluation := Evaluate(o);
      if evaluation.inconclusive {
        return None;
      }
      if evaluation.state == Healthy {
        t := StepHealthy();
      } else {
        t := StepFailure(evaluation);
      }
    }

    method ForceState(s: State) returns (t: Transition)
      modifies this
      ensures View() == Fresh(s)
      ensures t == Transition(old(state), s)
    {
      t := Transition(state, s);
      state := s;
      candidate := None;
      candidateStreak := 0;
      healthyStreak := 0;
    }

    method StepHealthy() returns (t: Option<Transition>)
      modifies this
      ensures View() == ObserveHealthy(config, old(View()))
      ensures t == if state == old(state) then None else Some(Transition(old(state), state))
    {
      healthyStreak := healthyStreak + 1;
      candidate := None;
      candidateStreak := 0;
      if state == Healthy {
        return None;
      }
      if healthyStreak < config.recoveryConfirmations {
        return None;
      }
      var previous := state;
      state := Healthy;
      t := Some(Transition(previous, Healthy));
    }

    method StepFailure(e: Verdict) returns (t: Option<Transition>)
      requires e.state != Healthy
      modifies this
      ensures View() == ObserveFailure(config, old(View()), e)
      ensures t == if state == old(state) then None else Some(Transition(old(state), state))
    {
      healthyStreak := 0;
      if candidate == Some(e.state) {
        candidateStreak := candidateStreak + 1;
      } else {
        candidate := Some(e.state);
        candidateStreak := 1;
      }
      var required :=
        if e.state == LoggerUnhealthy then config.loggerConfirmations else config.failureConfirmations;
      var confirmed := e.immediate || candidateStreak >= required;
      if !confirmed || state == e.state {
        return None;
      }
      var previous := state;
      state := e.state;
      t := Some(Transition(previous, e.state));
    }
  }

  // ---- Runs ------------------------------------------------------------------------------------

  function Run(cfg: Config, m: Machine, es: seq<Verdict>): Machine {
    if es == [] then m else Next(cfg, Run(cfg, m, Front(es)), Last(es))
  }

  /** The verdicts that count. */
  function Conclusive(es: seq<Verdict>): (cs: seq<Verdict>)
    ensures forall c | c in cs :: !c.inconclusive
  {
    if es == [] then []
    else if Last(es).inconclusive then Conclusive(Front(es))
    else Conclusive(Front(es)) + [Last(es)]
  }

  function VerdictsOf(os: seq<Observation>): (es: seq<Verdict>)
    ensures |es| == |os|
  {
    seq(|os|, i requires 0 <= i < |os| => Evaluate(os[i]))
  }

  /** Inconclusive checks are stutter steps: a run is determined by its conclusive subsequence. */
  lemma {:induction false} InconclusiveChecksStutter(cfg: Config, m: Machine, es: seq<Verdict>)
    ensures Run(cfg, m, es) == Run(cfg, m, Conclusive(es))
  {
    if es != [] {
      InconclusiveChecksStutter(cfg, m, Front(es));
      var cs := Conclusive(Front(es));
      if !Last(es).inconclusive {
        assert Front(cs + [Last(es)]) == cs;
      }
    }
  }

  lemma {:induction false} ConclusiveDistributes(a: seq<Verdict>, b: seq<Verdict>)
    ensures Conclusive(a + b) == Conclusive(a) + Conclusive(b)
  {
    if b == [] {
      assert a + b == a;
    } else {
      assert Front(a + b) == a + Front(b) && Last(a + b) == Last(b);
      ConclusiveDistributes(a, Front(b));
    }
  }

  lemma {:induction false} ConclusiveOfNothing(es: seq<Verdict>)
    requires forall e | e in es :: e.inconclusive
    ensures Conclusive(es) == []
  {
    if es != [] {
      assert Last(es) in es;
      assert forall e | e in Front(es) :: e in es;
      ConclusiveOfNothing(Front(es));
    }
  }

  /** Inserting any number of inconclusive checks anywhere changes nothing about the machine reached. */
  lemma InsertedStuttersAreInvisible(cfg: Config, m: Machine, before: seq<Verdict>, stutters: seq<Verdict>, after: seq<Verdict>)
    requires forall e | e in stutters :: e.inconclusive
    ensures Run(cfg, m, before + stutters + after) == Run(cfg, m, before + after)
  {
    ConclusiveDistributes(before + stutters, after);
    ConclusiveDistributes(before, stutters);
    ConclusiveDistributes(before, after);
    ConclusiveOfNothing(stutters);
    assert Conclusive(before) + [] == Conclusive(before);
    InconclusiveChecksStutter(cfg, m, before + stutters + after);
    InconclusiveChecksStutter(cfg, m, before + after);
  }

  // ---- What the streaks count ------------------------------------------------------------------

  /** How many of the latest verdicts in a row report `s`. */
  function TailRun(cs: seq<Verdict>, s: State): nat {
    if cs == [] || Last(cs).state != s then 0 else 1 + TailRun(Front(cs), s)
  }

  ghost predicate RunEndsAt(cs: seq<Verdict>, i: nat, s: State, n: nat)
    requires i < |cs|
  {
    n <= i + 1 && forall j | i + 1 - n <= j <= i :: cs[j].state == s
  }

  lemma {:induction false} TailRunIsARun(cs: seq<Verdict>, s: State, n: nat)
    requires cs != []
    ensures TailRun(cs, s) >= n <==> RunEndsAt(cs, |cs| - 1, s, n)
  {
    var k := |cs| - 1;
    if Last(cs).state != s {
      if n > 0 && n <= |cs| {
        assert k + 1 - n <= k && cs[k].state != s;
      }
    } else if n > 0 && k > 0 {
      TailRunIsARun(Front(cs), s, n - 1);
      if RunEndsAt(cs, k, s, n) {
        assert forall j | k - (n - 1) <= j <= k - 1 :: Front(cs)[j] == cs[j];
      }
      if RunEndsAt(Front(cs), k - 1, s, n - 1) {
        assert forall j | k + 1 - n <= j <= k - 1 :: cs[j] == Front(cs)[j];
      }
    }
  }

  /** The machine's counters are the lengths of the trailing runs of conclusive verdicts. */
  ghost predicate StreaksMatch(m: Machine, cs: seq<Verdict>) {
    if cs == [] then m.candidate == None && m.candidateStreak == 0 && m.healthyStreak == 0
    else if Last(cs).state == Healthy then
      m.candidate == None && m.candidateStreak == 0 && m.healthyStreak == TailRun(cs, Healthy)
    else
      && m.candidate == Some(Last(cs).state)
      && m.candidateStreak == TailRun(cs, Last(cs).state)
      && m.healthyStreak == 0
  }

  /** Verdict `i` confirms its state: it needs no confirmation, or it ends a long enough run. */
  ghost predicate Confirmed(cfg: Config, cs: seq<Verdict>, i: nat)
    requires i < |cs|
  {
    var s := cs[i].state;
    || cs[i].immediate
    || (s == Healthy && RunEndsAt(cs, i, s, cfg.recoveryConfirmations))
    || (s == LoggerUnhealthy && RunEndsAt(cs, i, s, cfg.loggerConfirmations))
    || (s in {LoggedOut, TeslamateUnreachable, DatabaseUnhealthy, AuthRefreshFailed} && RunEndsAt(cs, i, s, cfg.failureConfirmations))
  }

  ghost predicate LastConfirmed(cfg: Config, cs: seq<Verdict>, i: nat)
    requires i < |cs|
  {
    Confirmed(cfg, cs, i) && forall j | i < j < |cs| :: !Confirmed(cfg, cs, j)
  }

  /** The state without counters: the verdict confirmed last, or the initial state. */
  ghost predicate DeclaredState(cfg: Config, initial: State, cs: seq<Verdict>, s: State) {
    || (exists i: nat | i < |cs| :: LastConfirmed(cfg, cs, i) && s == cs[i].state)
    || ((forall i: nat | i < |cs| :: !Confirmed(cfg, cs, i)) && s == initial)
  }

  lemma DeclaredStateIsUnique(cfg: Config, initial: State, cs: seq<Verdict>, s: State, t: State)
    requires DeclaredState(cfg, initial, cs, s) && DeclaredState(cfg, initial, cs, t)
    ensures s == t
  {
    if i: nat, j: nat :| i < |cs| && j < |cs| && LastConfirmed(cfg, cs, i) && LastConfirmed(cfg, cs, j)
                         && s == cs[i].state && t == cs[j].state {
      assert i == j;
    }
  }

  lemma ConfirmedInPrefix(cfg: Config, cs: seq<Verdict>, c: Verdict, i: nat)
    requires i < |cs|
    ensures Confirmed(cfg, cs + [c], i) <==> Confirmed(cfg, cs, i)
  {
    var longer := cs + [c];
    assert forall j | 0 <= j <= i :: longer[j] == cs[j];
  }

  /** One more verdict either becomes the declared state or leaves it alone. */
  lemma DeclaredStateStep(cfg: Config, initial: State, cs: seq<Verdict>, c: Verdict, s: State)
    requires DeclaredState(cfg, initial, cs, s)
    ensures var longer := cs + [c];
            DeclaredState(cfg, initial, longer, if Confirmed(cfg, longer, |cs|) then c.state else s)
  {
    var longer := cs + [c];
    forall i: nat | i < |cs|
      ensures Confirmed(cfg, longer, i) <==> Confirmed(cfg, cs, i)
    {
      ConfirmedInPrefix(cfg, cs, c, i);
    }
    if Confirmed(cfg, longer, |cs|) {
      assert LastConfirmed(cfg, longer, |cs|);
    } else if i: nat :| i < |cs| && LastConfirmed(cfg, cs, i) && s == cs[i].state {
      assert LastConfirmed(cfg, longer, i) && longer[i] == cs[i];
    }
  }

  /** One conclusive verdict keeps the counters true, and moves the state exactly when it is confirmed. */
  lemma ConclusiveStep(cfg: Config, m: Machine, cs: seq<Verdict>, c: Verdict)
    requires cfg.Valid() && m.state != Recovering && StreaksMatch(m, cs) && !c.inconclusive
    ensures var n := Next(cfg, m, c);
            && StreaksMatch(n, cs + [c])
            && n.state == if Confirmed(cfg, cs + [c], |cs|) then c.state else m.state
  {
    var longer := cs + [c];
    assert Front(longer) == cs;
    TailRunIsARun(longer, c.state, Required(cfg, c.state));
    if cs != [] && Last(cs).state != c.state {
      assert TailRun(cs, c.state) == 0;
    }
  }

  lemma {:induction false} ConclusiveRun(cfg: Config, initial: State, cs: seq<Verdict>)
    requires cfg.Valid() && initial != Recovering
    requires forall c | c in cs :: !c.inconclusive
    ensures var m := Run(cfg, Fresh(initial), cs);
            && m.state != Recovering
            && StreaksMatch(m, cs)
            && DeclaredState(cfg, initial, cs, m.state)
  {
    if cs != [] {
      var front, c := Front(cs), Last(cs);
      assert cs == front + [c] && c in cs;
      assert forall x | x in front :: x in cs;
      ConclusiveRun(cfg, initial, front);
      var m := Run(cfg, Fresh(initial), front);
      ConclusiveStep(cfg, m, front, c);
      DeclaredStateStep(cfg, initial, front, c, m.state);
    }
  }

  /**
   The streak machine refines the declarative reading: over any observations, from any state but
   RECOVERING, the state is the verdict confirmed last among the conclusive ones, and the counters
   are the lengths of its trailing runs.
   */
  lemma MachineFollowsItsHistory(cfg: Config, initial: State, os: seq<Observation>)
    requires cfg.Valid() && initial != Recovering
    ensures var cs := Conclusive(VerdictsOf(os));
            var m := Run(cfg, Fresh(initial), VerdictsOf(os));
            StreaksMatch(m, cs) && DeclaredState(cfg, initial, cs, m.state)
  {
    InconclusiveChecksStutter(cfg, Fresh(initial), VerdictsOf(os));
    ConclusiveRun(cfg, initial, Conclusive(VerdictsOf(os)));
  }

  /** A verdict moves the machine exactly when the history confirms it and the state is a different one. */
  lemma TransitionNeedsConfirmation(cfg: Config, initial: State, cs: seq<Verdict>, v: Verdict)
    requires cfg.Valid() && initial != Recovering
    requires forall c | c in cs + [v] :: !c.inconclusive
    ensures var m := Run(cfg, Fresh(initial), cs);
            Next(cfg, m, v).state == if Confirmed(cfg, cs + [v], |cs|) then v.state else m.state
    ensures Next(cfg, Run(cfg, Fresh(initial), cs), v) == Run(cfg, Fresh(initial), cs + [v])
  {
    var longer := cs + [v];
    assert Front(longer) == cs && v in longer;
    assert forall c | c in cs :: c in longer;
    ConclusiveRun(cfg, initial, cs);
    ConclusiveStep(cfg, Run(cfg, Fresh(initial), cs), cs, v);
  }

  /** The same for a verdict that is not immediate, in terms of the last checks alone. */
  lemma LastChecksDecide(cfg: Config, initial: State, cs: seq<Verdict>, v: Verdict)
    requires cfg.Valid() && initial != Recovering && !v.immediate
    requires forall c | c in cs + [v] :: !c.inconclusive
    ensures var m, all := Run(cfg, Fresh(initial), cs), cs + [v];
            var n := match v.state
                     case Healthy => cfg.recoveryConfirmations
                     case LoggerUnhealthy => cfg.loggerConfirmations
                     case _ => cfg.failureConfirmations;
            Next(cfg, m, v).state != m.state <==>
            m.state != v.state && |all| >= n && forall j | |all| - n <= j < |all| :: all[j].state == v.state
  {
    TransitionNeedsConfirmation(cfg, initial, cs, v);
  }

  /**
   "A single bad check never changes anything" holds, for a check that is the first of its kind in a
   row, exactly when it is not a stopped container and its failure needs more than one confirmation.
   */
  lemma SingleBadCheck(cfg: Config, initial: State, cs: seq<Verdict>, bad: Verdict)
    requires cfg.Valid() && initial != Recovering
    requires bad.state != Healthy && forall c | c in cs + [bad] :: !c.inconclusive
    requires cs == [] || Last(cs).state != bad.state
    ensures var m := Run(cfg, Fresh(initial), cs);
            m.state != bad.state ==>
              (Next(cfg, m, bad).state != m.state <==>
                bad.immediate || (if bad.state == LoggerUnhealthy then cfg.loggerConfirmations else cfg.failureConfirmations) == 1)
  {
    TransitionNeedsConfirmation(cfg, initial, cs, bad);
    var longer, k := cs + [bad], |cs|;
    assert k > 0 ==> longer[k - 1].state != bad.state;
  }

  /** While recovery owns the machine, ordinary checks cannot move it. */
  lemma {:induction false} RecoveringIsHeld(cfg: Config, m: Machine, es: seq<Verdict>)
    requires m.state == Recovering
    ensures Run(cfg, m, es) == m
  {
    if es != [] {
      RecoveringIsHeld(cfg, m, Front(es));
    }
  }

  // ---- The invariant of every reachable machine ------------------------------------------------

  ghost predicate MachineInv(cfg: Config, m: Machine) {
    && !(m.healthyStreak > 0 && m.candidateStreak > 0)
    && (m.candidate.Some? <==> m.candidateStreak > 0)
    && (m.candidate.Some? ==> IsFailureVerdict(m.candidate.value))
    && (m.candidate.Some? && m.candidateStreak >= Required(cfg, m.candidate.value) ==> m.state == m.candidate.value)
    && (m.healthyStreak >= cfg.recoveryConfirmations ==> m.state == Healthy)
    && (m.state == Recovering ==> m == Fresh(Recovering))
  }

  lemma MachineInvIsInductive(cfg: Config, m: Machine, e: Verdict)
    requires cfg.Valid() && MachineInv(cfg, m)
    ensures MachineInv(cfg, Next(cfg, m, e))
    ensures var n := Next(cfg, m, e);
            n.state == m.state || n.state == Healthy || IsFailureVerdict(n.state)
  {
  }

  // ---- Anti-flapping ---------------------------------------------------------------------------

  function Transitions(cfg: Config, m: Machine, es: seq<Verdict>): nat {
    if es == [] then 0
    else Transitions(cfg, m, Front(es))
         + if Run(cfg, m, es).state != Run(cfg, m, Front(es)).state then 1 else 0
  }

  function Immediates(es: seq<Verdict>): (n: nat)
    ensures n <= |es|
  {
    if es == [] then 0 else Immediates(Front(es)) + if Last(es).immediate then 1 else 0
  }

  function Least(cfg: Config): nat {
    var a := if cfg.recoveryConfirmations < cfg.failureConfirmations then cfg.recoveryConfirmations else cfg.failureConfirmations;
    if a < cfg.loggerConfirmations then a else cfg.loggerConfirmations
  }

  /** Verdicts of the current run not yet spent on a transition. */
  function Unspent(m: Machine): nat {
    if m.candidate.Some? && m.candidate.value != m.state then m.candidateStreak
    else if m.candidate.None? && m.state != Healthy then m.healthyStreak
    else 0
  }

  /** A transition that is not immediate spends at least `Least(cfg)` verdicts, its own among them. */
  lemma StepSpends(cfg: Config, m: Machine, v: Verdict)
    requires cfg.Valid() && MachineInv(cfg, m) && m.state != Recovering && !v.inconclusive
    ensures var n := Next(cfg, m, v);
            && n.state != Recovering
            && Pays(Least(cfg), if n.state != m.state then 1 else 0, if v.immediate then 1 else 0, 1 + Unspent(m), Unspent(n))
  {
  }

  /** The potential behind the bound: every transition that is not immediate is paid for by `Least(cfg)` verdicts. */
  lemma {:induction false} TransitionsSpendVerdicts(cfg: Config, initial: State, cs: seq<Verdict>)
    requires cfg.Valid() && initial != Recovering
    requires forall c | c in cs :: !c.inconclusive
    ensures Pays(Least(cfg), Transitions(cfg, Fresh(initial), cs), Immediates(cs), |cs|, Unspent(Run(cfg, Fresh(initial), cs)))
    ensures Run(cfg, Fresh(initial), cs).state != Recovering
    ensures MachineInv(cfg, Run(cfg, Fresh(initial), cs))
  {
    if cs != [] {
      var front, c := Front(cs), Last(cs);
      assert c in cs;
      assert forall x | x in front :: x in cs;
      TransitionsSpendVerdicts(cfg, initial, front);
      var m := Run(cfg, Fresh(initial), front);
      var n := Next(cfg, m, c);
      MachineInvIsInductive(cfg, m, c);
      StepSpends(cfg, m, c);
      PaymentsAdd(Least(cfg), Transitions(cfg, Fresh(initial), front), Immediates(front), |front|, Unspent(m),
                  if n.state != m.state then 1 else 0, if c.immediate then 1 else 0, 1, Unspent(n));
    }
  }

  /** `n` verdicts, `i` of them immediate, pay for `t` transitions at `d` verdicts each, and `left` more remain. */
  ghost predicate Pays(d: int, t: int, i: int, n: int, left: int) {
    d * (t - i) + left <= n - i
  }

  lemma PaymentsAdd(d: int, t: int, i: int, n: int, left: int, t': int, i': int, n': int, left': int)
    requires Pays(d, t, i, n, left) && Pays(d, t', i', n' + left, left')
    ensures Pays(d, t + t', i + i', n + n', left')
  {
    assert d * ((t + t') - (i + i')) == d * (t - i) + d * (t' - i');
  }

  lemma PaidTransitionsAreBounded(d: int, t: int, i: int, n: int, left: int)
    requires d > 0 && left >= 0 && i <= n && Pays(d, t, i, n, left)
    ensures t <= i + (n - i) / d
  {
    if t - i > (n - i) / d {
      BeyondTheQuotient(d, t - i, n - i);
    }
  }

  lemma {:induction false} StuttersDoNotTransition(cfg: Config, m: Machine, es: seq<Verdict>)
    ensures Transitions(cfg, m, es) == Transitions(cfg, m, Conclusive(es))
    ensures Immediates(es) == Immediates(Conclusive(es))
  {
    if es != [] {
      StuttersDoNotTransition(cfg, m, Front(es));
      InconclusiveChecksStutter(cfg, m, Front(es));
      InconclusiveChecksStutter(cfg, m, es);
      assert Front(Conclusive(Front(es)) + [Last(es)]) == Conclusive(Front(es));
    }
  }

  /** At most one transition per immediate verdict and one per `Least(cfg)` other conclusive verdicts. */
  lemma TransitionsAreBounded(cfg: Config, initial: State, es: seq<Verdict>)
    requires cfg.Valid() && initial != Recovering
    ensures var n, i := |Conclusive(es)|, Immediates(es);
            i <= n && Transitions(cfg, Fresh(initial), es) <= i + (n - i) / Least(cfg)
  {
    var cs := Conclusive(es);
    StuttersDoNotTransition(cfg, Fresh(initial), es);
    TransitionsSpendVerdicts(cfg, initial, cs);
    PaidTransitionsAreBounded(Least(cfg), Transitions(cfg, Fresh(initial), cs), Immediates(cs), |cs|,
                              Unspent(Run(cfg, Fresh(initial), cs)));
  }

  lemma BeyondTheQuotient(d: int, k: int, n: int)
    requires d > 0 && n >= 0 && k > n / d
    ensures d * k > n
  {
    var rest := k - n / d - 1;
    assert d * k == d * (n / d) + d + d * rest;
    assert d * rest >= 0;
  }
}
