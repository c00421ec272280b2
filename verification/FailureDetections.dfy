/** How often a run of the watchdog reports a failure: the anti-flapping bound, carried across forced states. */
module FailureDetections {
  import opened Common
  import opened Settings
  import opened Verdicts
  import opened Confirmation
  import opened RestartHistory
  import opened Events
  import opened Recovery
  import opened WatchdogLoop
  import opened EventProtocol

  predicate IsDetection(e: Event) { e.FailureDetected? }

  lemma {:induction false} TallyAppends(a: seq<Event>, b: seq<Event>, p: Event -> bool)
    ensures Tally(a + b, p) == Tally(a, p) + Tally(b, p)
  {
    if b == [] {
      assert a + b == a;
    } else {
      assert Front(a + b) == a + Front(b);
      TallyAppends(a, Front(b), p);
    }
  }

  lemma {:induction false} NoDetections(es: seq<Event>)
    requires forall e | e in es :: !IsDetection(e)
    ensures Tally(es, IsDetection) == 0
  {
    if es != [] {
      assert Last(es) in es;
      assert forall e | e in Front(es) :: e in es;
      NoDetections(Front(es));
    }
  }

  lemma ConsideringDetectsNothing(cfg: Config, s: System, state: State, w: World)
    ensures Tally(ConsiderRecovery(cfg, s, state, w).events, IsDetection) == 0
  {
    var bundle, begun := Bundle(state, w), BeginRecovery(cfg, s, state, w).events;
    NoDetections(bundle);
    NoDetections(begun);
    TallyAppends(bundle, begun, IsDetection);
  }

  /** A transition into a failure is reported once, whatever follows it. */
  lemma DetectionsOfTransition(cfg: Config, s: System, state: State, w: World)
    ensures Tally(OnTransition(cfg, s, state, w).events, IsDetection) == if IsFailureState(state) then 1 else 0
  {
    if IsFailureState(state) {
      var c := ConsiderRecovery(cfg, s, state, w);
      var detected, advice := [FailureDetected(state)], Advice(state, c.restarting);
      ConsideringDetectsNothing(cfg, s, state, w);
      NoDetections(advice);
      assert Front(detected) == [];
      TallyAppends(detected, c.events, IsDetection);
      TallyAppends(detected + c.events, advice, IsDetection);
    }
  }

  lemma DetectionsOfCycle(cfg: Config, s: System, w: World)
    ensures var o := Observed(cfg, s, w);
            Tally(Cycle(cfg, s, w).events, IsDetection)
            == if s.progress.None? && o.machine.state != s.machine.state && IsFailureState(o.machine.state) then 1 else 0
  {
    var o := Observed(cfg, s, w);
    if s.progress.Some? {
      NoDetections(Cycle(cfg, s, w).events);
    } else if o.machine.state != s.machine.state {
      assert Cycle(cfg, s, w) == OnTransition(cfg, o, o.machine.state, w);
      DetectionsOfTransition(cfg, o, o.machine.state, w);
    }
  }

  /** The conclusive verdict that a cycle gives to the machine, if any: recovery takes its own. */
  function TakenIn(s: System, w: World): seq<Verdict> {
    var v := Evaluate(w.observation);
    if s.progress.None? && !v.inconclusive then [v] else []
  }

  function Taken(cfg: Config, s: System, ws: seq<World>): seq<Verdict> {
    if ws == [] then [] else Taken(cfg, s, Front(ws)) + TakenIn(After(cfg, s, Front(ws)), Last(ws))
  }

  /** A forced state forgets the verdicts not yet spent, so it never pays for a report. */
  lemma CyclePays(cfg: Config, s: System, w: World)
    requires cfg.Valid() && SystemInv(cfg, s)
    ensures var cycle, taken := Cycle(cfg, s, w), TakenIn(s, w);
            Pays(Least(cfg), Tally(cycle.events, IsDetection), Immediates(taken), |taken| + Unspent(s.machine),
                 Unspent(cycle.system.machine))
  {
    DetectionsOfCycle(cfg, s, w);
    var v := Evaluate(w.observation);
    if s.progress.None? {
      CycleSystem(cfg, s, w);
      if v.inconclusive {
        assert Next(cfg, s.machine, v) == s.machine;
      } else {
        TakenCyclePays(cfg, s, w);
      }
    }
  }

  lemma TakenCyclePays(cfg: Config, s: System, w: World)
    requires cfg.Valid() && SystemInv(cfg, s) && s.progress.None? && !Evaluate(w.observation).inconclusive
    ensures var cycle := Cycle(cfg, s, w);
            Pays(Least(cfg), Tally(cycle.events, IsDetection), Immediates([Evaluate(w.observation)]), 1 + Unspent(s.machine),
                 Unspent(cycle.system.machine))
  {
    var m, v := s.machine, Evaluate(w.observation);
    var n, cycle := Next(cfg, m, v), Cycle(cfg, s, w);
    DetectionsOfCycle(cfg, s, w);
    CycleSystem(cfg, s, w);
    StepSpends(cfg, m, v);
    assert Front([v]) == [];
    FewerNeedLess(Least(cfg), if n.state != m.state then 1 else 0, if v.immediate then 1 else 0, 1 + Unspent(m), Unspent(n),
                  Tally(cycle.events, IsDetection), Unspent(cycle.system.machine));
  }

  lemma FewerNeedLess(d: int, t: int, i: int, n: int, left: int, t': int, left': int)
    requires Pays(d, t, i, n, left) && d >= 0 && t' <= t && left' <= left
    ensures Pays(d, t', i, n, left')
  {
    assert d * (t' - i) <= d * (t - i);
  }

  lemma ImmediatesOfTaken(taken: seq<Verdict>, s: System, w: World)
    ensures Immediates(taken + TakenIn(s, w)) == Immediates(taken) + Immediates(TakenIn(s, w))
  {
    var v := Evaluate(w.observation);
    assert Front(taken + [v]) == taken && Front([v]) == [];
    assert taken + [] == taken;
  }

  /** The reports of a run, the verdicts taken and the immediate ones among them, and what is left to spend. */
  datatype Account = Account(detections: nat, immediates: nat, taken: nat, left: nat)

  ghost predicate Settled(cfg: Config, x: Account) {
    x.immediates <= x.taken && Pays(Least(cfg), x.detections, x.immediates, x.taken, x.left)
  }

  ghost function AccountOf(cfg: Config, d: Disk, ws: seq<World>): Account {
    var taken := Taken(cfg, Boot(d), ws);
    Account(Tally(Trace(cfg, Boot(d), ws), IsDetection), Immediates(taken), |taken|, Unspent(After(cfg, Boot(d), ws).machine))
  }

  /** What one cycle adds to an account; the machine's unspent verdicts carry over. */
  ghost function CycleAccount(cfg: Config, s: System, w: World): Account {
    var cycle, taken := Cycle(cfg, s, w), TakenIn(s, w);
    Account(Tally(cycle.events, IsDetection), Immediates(taken), |taken|, Unspent(cycle.system.machine))
  }

  function AddAccounts(x: Account, y: Account): Account {
    Account(x.detections + y.detections, x.immediates + y.immediates, x.taken + y.taken, y.left)
  }

  lemma AccountGrows(cfg: Config, d: Disk, ws: seq<World>)
    requires ws != []
    ensures AccountOf(cfg, d, ws) == AddAccounts(AccountOf(cfg, d, Front(ws)), CycleAccount(cfg, After(cfg, Boot(d), Front(ws)), Last(ws)))
  {
    var s, w := After(cfg, Boot(d), Front(ws)), Last(ws);
    TallyAppends(Trace(cfg, Boot(d), Front(ws)), Cycle(cfg, s, w).events, IsDetection);
    ImmediatesOfTaken(Taken(cfg, Boot(d), Front(ws)), s, w);
  }

  lemma AddingSettles(cfg: Config, x: Account, y: Account)
    requires Settled(cfg, x) && y.immediates <= y.taken && Pays(Least(cfg), y.detections, y.immediates, y.taken + x.left, y.left)
    ensures Settled(cfg, AddAccounts(x, y))
  {
    PaymentsAdd(Least(cfg), x.detections, x.immediates, x.taken, x.left, y.detections, y.immediates, y.taken, y.left);
  }

  lemma {:induction false} DetectionsArePaid(cfg: Config, d: Disk, ws: seq<World>)
    requires cfg.Valid()
    ensures Settled(cfg, AccountOf(cfg, d, ws))
  {
    if ws != [] {
      var s := After(cfg, Boot(d), Front(ws));
      DetectionsArePaid(cfg, d, Front(ws));
      SystemInvHolds(cfg, d, Front(ws));
      CyclePays(cfg, s, Last(ws));
      AddingSettles(cfg, AccountOf(cfg, d, Front(ws)), CycleAccount(cfg, s, Last(ws)));
      AccountGrows(cfg, d, ws);
    }
  }

  lemma SettledIsBounded(cfg: Config, x: Account)
    requires cfg.Valid() && Settled(cfg, x)
    ensures x.detections <= x.immediates + (x.taken - x.immediates) / Least(cfg)
  {
    PaidTransitionsAreBounded(Least(cfg), x.detections, x.immediates, x.taken, x.left);
  }

  /**
   Over every run, with its recoveries and forced states, failures are reported at most once per
   immediate verdict and once per `Least(cfg)` other conclusive verdicts outside recovery.
   */
  lemma DetectionsAreBounded(cfg: Config, d: Disk, ws: seq<World>)
    requires cfg.Valid()
    ensures var x := AccountOf(cfg, d, ws);
            x.detections <= x.immediates + (x.taken - x.immediates) / Least(cfg)
  {
    DetectionsArePaid(cfg, d, ws);
    SettledIsBounded(cfg, AccountOf(cfg, d, ws));
  }
}
