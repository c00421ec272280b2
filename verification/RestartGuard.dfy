/**
 The restart guard (src/restart_manager.py): cooldown, rolling daily cap and the pruned history.
 Wall-clock times are reals. The budget theorems are about the full log of recorded restarts,
 which the guard itself never sees: it decides on the pruned history. The theorems write a day and
 the retention period out in seconds, so that the two constants below are checked against them.
 */
module RestartGuard {
  import opened Common
  import opened Settings
  import opened Verdicts

  const SECONDS_PER_DAY: real := 86400.0
  const RETENTION_SECONDS: real := 604800.0
  const DATABASE_CONFIRMATIONS: nat := 2

  datatype RestartRecord = RestartRecord(at: real, state: State)

  datatype Refusal =
    | AutoRestartDisabled
    | NotRestartable(state: State)
    | LoggedOutRestartDisabled
    | TeslaAuthUnreachable
    | DatabaseUnconfirmed(streak: nat)
    | CooldownActive(remaining: real)
    | DailyCapReached(recent: nat)

  datatype Decision = Allowed(state: State) | Refused(why: Refusal)

  function CountSince(h: seq<RestartRecord>, cutoff: real): (n: nat)
    ensures n <= |h|
  {
    if h == [] then 0 else CountSince(Front(h), cutoff) + if Last(h).at >= cutoff then 1 else 0
  }

  function CooldownRemaining(cfg: Config, h: seq<RestartRecord>, now: real): real {
    if h == [] then 0.0
    else
      var left := cfg.cooldownSeconds as real - (now - Last(h).at);
      if left > 0.0 then left else 0.0
  }

  function Guard(cfg: Config, h: seq<RestartRecord>, s: State, databaseStreak: nat, reachable: Option<bool>, now: real): Decision {
    if !cfg.autoRestart then Refused(AutoRestartDisabled)
    else if !RestartAllowed(s) then Refused(NotRestartable(s))
    else if NeedsTeslaAuth(s) && !cfg.loggedOutRestart then Refused(LoggedOutRestartDisabled)
    else if NeedsTeslaAuth(s) && reachable != Some(true) then Refused(TeslaAuthUnreachable)
    else if databaseStreak < DATABASE_CONFIRMATIONS then Refused(DatabaseUnconfirmed(databaseStreak))
    else if CooldownRemaining(cfg, h, now) > 0.0 then Refused(CooldownActive(CooldownRemaining(cfg, h, now)))
    else if CountSince(h, now - SECONDS_PER_DAY) >= cfg.maxRestartsPerDay then
      Refused(DailyCapReached(CountSince(h, now - SECONDS_PER_DAY)))
    else Allowed(s)
  }

  function Prune(h: seq<RestartRecord>, cutoff: real): seq<RestartRecord> {
    if h == [] then []
    else if Last(h).at >= cutoff then Prune(Front(h), cutoff) + [Last(h)]
    else Prune(Front(h), cutoff)
  }

  /** The history after a restart was recorded: appended, then pruned relative to the new record. */
  function Recorded(h: seq<RestartRecord>, r: RestartRecord): seq<RestartRecord> {
    Prune(h + [r], r.at - RETENTION_SECONDS)
  }

  ghost predicate Sorted(h: seq<RestartRecord>) {
    forall i, j | 0 <= i <= j < |h| :: h[i].at <= h[j].at
  }

  // ---- Counting and pruning --------------------------------------------------------------------

  lemma {:induction false} CountSinceAppends(a: seq<RestartRecord>, b: seq<RestartRecord>, c: real)
    ensures CountSince(a + b, c) == CountSince(a, c) + CountSince(b, c)
  {
    if b == [] {
      assert a + b == a;
    } else {
      assert Front(a + b) == a + Front(b);
      CountSinceAppends(a, Front(b), c);
    }
  }

  lemma {:induction false} NoneSince(h: seq<RestartRecord>, c: real)
    requires forall r | r in h :: r.at < c
    ensures CountSince(h, c) == 0
  {
    if h != [] {
      assert Last(h) in h;
      assert forall r | r in Front(h) :: r in h;
      NoneSince(Front(h), c);
    }
  }

  /** Pruning a sorted history drops a prefix, and only records older than the cutoff. */
  lemma {:induction false} PruningDropsAPrefix(h: seq<RestartRecord>, cutoff: real) returns (d: nat)
    requires Sorted(h)
    ensures d <= |h| && Prune(h, cutoff) == h[d..]
    ensures forall i | 0 <= i < d :: h[i].at < cutoff
    ensures forall i | d <= i < |h| :: h[i].at >= cutoff
  {
    if h == [] {
      d := 0;
    } else {
      d := PruningDropsAPrefix(Front(h), cutoff);
      if Last(h).at >= cutoff {
        assert h[d..] == Front(h)[d..] + [Last(h)];
      } else {
        assert forall i | 0 <= i < |h| :: h[i].at <= Last(h).at;
        assert d == |Front(h)|;
        d := |h|;
      }
    }
  }

  lemma SortedAppend(h: seq<RestartRecord>, r: RestartRecord)
    requires Sorted(h) && (h != [] ==> Last(h).at <= r.at)
    ensures Sorted(h + [r])
  {
    var longer := h + [r];
    forall i, j | 0 <= i <= j < |longer|
      ensures longer[i].at <= longer[j].at
    {
      if j == |h| && i < |h| {
        assert h[i].at <= h[|h| - 1].at;
      }
    }
  }

  lemma SortedSuffix(h: seq<RestartRecord>, d: nat)
    requires Sorted(h) && d <= |h|
    ensures Sorted(h[d..])
  {
    var rest := h[d..];
    forall i, j | 0 <= i <= j < |rest|
      ensures rest[i].at <= rest[j].at
    {
      assert rest[i] == h[d + i] && rest[j] == h[d + j];
    }
  }

  /** Recording drops an aged prefix and ends in the new record, which is never dropped itself. */
  lemma RecordedShape(h: seq<RestartRecord>, r: RestartRecord) returns (d: nat)
    requires Sorted(h) && (h != [] ==> Last(h).at <= r.at)
    ensures d <= |h| && Recorded(h, r) == h[d..] + [r]
    ensures forall i | 0 <= i < |h| :: i < d <==> h[i].at < r.at - 604800.0
    ensures Sorted(Recorded(h, r))
  {
    assert Front(h + [r]) == h;
    d := PruningDropsAPrefix(h, r.at - 604800.0);
    SortedSuffix(h, d);
    assert d < |h| ==> Last(h[d..]) == Last(h);
    SortedAppend(h[d..], r);
  }

  // ---- What the guard promises -----------------------------------------------------------------

  /** Among records in time order, at least `n` are not before `c` exactly when the one `n` from the end is not. */
  lemma {:induction false} CountSinceInOrder(h: seq<RestartRecord>, c: real, n: nat)
    requires Sorted(h)
    ensures CountSince(h, c) >= n <==> n == 0 || (n <= |h| && h[|h| - n].at >= c)
  {
    if h != [] && n > 0 {
      CountSinceInOrder(Front(h), c, n - 1);
      if Last(h).at < c {
        assert forall r | r in h :: r.at < c by {
          assert forall i | 0 <= i < |h| :: h[i].at <= Last(h).at;
        }
        NoneSince(h, c);
        assert n <= |h| ==> h[|h| - n].at <= Last(h).at;
      } else if n > 1 && n <= |h| {
        assert Front(h)[|h| - n] == h[|h| - n];
      }
    }
  }

  /**
   On a sorted history the guard allows exactly when every switch is on, every recorded restart is a
   cooldown old, and the one as many restarts back as the cap allows in a day is more than a day old.
   */
  lemma GuardAllowsExactly(cfg: Config, h: seq<RestartRecord>, s: State, databaseStreak: nat, reachable: Option<bool>, now: real)
    requires Sorted(h)
    ensures Guard(cfg, h, s, databaseStreak, reachable, now).Allowed? <==>
            && cfg.autoRestart
            && s in {LoggerUnhealthy, TeslamateUnreachable, LoggedOut}
            && (s == LoggedOut ==> cfg.loggedOutRestart && reachable == Some(true))
            && databaseStreak >= 2
            && (forall r | r in h :: r.at + cfg.cooldownSeconds as real <= now)
            && cfg.maxRestartsPerDay > 0
            && (|h| >= cfg.maxRestartsPerDay ==> h[|h| - cfg.maxRestartsPerDay].at < now - 86400.0)
  {
    CountSinceInOrder(h, now - 86400.0, cfg.maxRestartsPerDay);
    if h != [] {
      assert Last(h) in h;
      assert forall i | 0 <= i < |h| :: h[i].at <= Last(h).at;
    }
  }

  /** A refusal gives a true reason: how long the cooldown still runs, how many restarts the last day holds. */
  lemma RefusalsSayWhy(cfg: Config, h: seq<RestartRecord>, s: State, databaseStreak: nat, reachable: Option<bool>, now: real)
    requires Sorted(h)
    ensures match Guard(cfg, h, s, databaseStreak, reachable, now)
            case Allowed(f) => f == s
            case Refused(AutoRestartDisabled) => !cfg.autoRestart
            case Refused(NotRestartable(f)) => f == s && s !in {LoggerUnhealthy, TeslamateUnreachable, LoggedOut}
            case Refused(LoggedOutRestartDisabled) => s == LoggedOut && !cfg.loggedOutRestart
            case Refused(TeslaAuthUnreachable) => s == LoggedOut && reachable != Some(true)
            case Refused(DatabaseUnconfirmed(n)) => n == databaseStreak < 2
            case Refused(CooldownActive(left)) => left > 0.0 && h != [] && now + left == Last(h).at + cfg.cooldownSeconds as real
            case Refused(DailyCapReached(n)) =>
              cfg.maxRestartsPerDay <= n <= |h| && forall i | 0 <= i < |h| :: h[i].at >= now - 86400.0 <==> i >= |h| - n
  {
    var n := CountSince(h, now - 86400.0);
    CountSinceInOrder(h, now - 86400.0, n);
    CountSinceInOrder(h, now - 86400.0, n + 1);
    assert n < |h| ==> h[|h| - n - 1].at < now - 86400.0;
    forall i | 0 <= i < |h|
      ensures h[i].at >= now - 86400.0 <==> i >= |h| - n
    {
      if i >= |h| - n {
        assert h[|h| - n].at <= h[i].at;
      } else {
        assert h[i].at <= h[|h| - n - 1].at;
      }
    }
  }

  /** Cooldown and cap are clear on `h` at `now`. */
  ghost predicate BudgetIsClear(cfg: Config, h: seq<RestartRecord>, now: real) {
    && (h != [] ==> Last(h).at + cfg.cooldownSeconds as real <= now)
    && CountSince(h, now - 86400.0) < cfg.maxRestartsPerDay
  }

  datatype RestartLog = RestartLog(records: seq<RestartRecord>, asked: seq<real>)

  /** Restart `k` was granted: asked before it was recorded, cooldown over, fewer than the cap in the last day. */
  ghost predicate Granted(cfg: Config, log: seq<RestartRecord>, asked: seq<real>, k: nat)
    requires |asked| == |log| && k < |log|
  {
    && asked[k] <= log[k].at
    && (k > 0 ==> log[k - 1].at + cfg.cooldownSeconds as real <= asked[k])
    && CountSince(log[..k], asked[k] - 86400.0) < cfg.maxRestartsPerDay
  }

  /** A full, unpruned log every entry of which was granted. */
  ghost predicate GuardedLog(cfg: Config, log: seq<RestartRecord>, asked: seq<real>) {
    |asked| == |log| && forall k: nat | k < |log| :: Granted(cfg, log, asked, k)
  }

  lemma GuardedPrefix(cfg: Config, log: seq<RestartRecord>, asked: seq<real>, n: nat)
    requires n <= |log| && GuardedLog(cfg, log, asked)
    ensures GuardedLog(cfg, log[..n], asked[..n])
  {
    forall k: nat | k < n
      ensures Granted(cfg, log[..n], asked[..n], k)
    {
      assert Granted(cfg, log, asked, k);
      assert log[..n][..k] == log[..k];
    }
  }

  lemma GuardedExtends(cfg: Config, log: seq<RestartRecord>, asked: seq<real>, r: RestartRecord, now: real)
    requires GuardedLog(cfg, log, asked)
    requires now <= r.at && BudgetIsClear(cfg, log, now)
    ensures GuardedLog(cfg, log + [r], asked + [now])
  {
    var log', asked' := log + [r], asked + [now];
    forall k: nat | k < |log'|
      ensures Granted(cfg, log', asked', k)
    {
      if k < |log| {
        assert Granted(cfg, log, asked, k);
        assert log'[..k] == log[..k];
      } else {
        assert log'[..k] == log;
      }
    }
  }

  // ---- The budget in any window ----------------------------------------------------------------

  /** Restarts recorded in the closed window from `a` to `b`. */
  function CountIn(log: seq<RestartRecord>, a: real, b: real): nat {
    if log == [] then 0 else CountIn(Front(log), a, b) + if a <= Last(log).at <= b then 1 else 0
  }

  lemma {:induction false} CountInSplits(log: seq<RestartRecord>, a: real, m: real, b: real)
    requires a <= m
    ensures CountIn(log, a, b) <= CountIn(log, a, m) + CountIn(log, m, b)
  {
    if log != [] {
      CountInSplits(Front(log), a, m, b);
    }
  }

  lemma {:induction false} CountInIsRecent(log: seq<RestartRecord>, a: real, b: real, c: real)
    requires c <= a
    ensures CountIn(log, a, b) <= CountSince(log, c)
  {
    if log != [] {
      CountInIsRecent(Front(log), a, b, c);
    }
  }

  lemma {:induction false} CountInTightens(log: seq<RestartRecord>, a: real, b: real, tight: real)
    requires tight <= b && forall r | r in log :: r.at <= tight
    ensures CountIn(log, a, b) == CountIn(log, a, tight)
  {
    if log != [] {
      assert Last(log) in log;
      assert forall r | r in Front(log) :: r in log;
      CountInTightens(Front(log), a, b, tight);
    }
  }

  /** Recorded restarts are in order, and any two are at least one cooldown per step apart. */
  lemma {:induction false} RestartsAreSpaced(cfg: Config, log: seq<RestartRecord>, asked: seq<real>, i: nat, j: nat)
    requires GuardedLog(cfg, log, asked) && i <= j < |log|
    ensures log[i].at + ((j - i) * cfg.cooldownSeconds) as real <= log[j].at
    decreases j
  {
    if i < j {
      RestartsAreSpaced(cfg, log, asked, i, j - 1);
      assert Granted(cfg, log, asked, j);
      assert (j - i) * cfg.cooldownSeconds == (j - 1 - i) * cfg.cooldownSeconds + cfg.cooldownSeconds;
    }
  }

  lemma EarlierRestartsAreOneCooldownOlder(cfg: Config, log: seq<RestartRecord>, asked: seq<real>)
    requires GuardedLog(cfg, log, asked) && log != []
    ensures forall r | r in Front(log) :: r.at + cfg.cooldownSeconds as real <= Last(log).at
  {
    var k := |log| - 1;
    assert Granted(cfg, log, asked, k);
    forall r | r in Front(log)
      ensures r.at + cfg.cooldownSeconds as real <= Last(log).at
    {
      var i :| 0 <= i < k && Front(log)[i] == r;
      RestartsAreSpaced(cfg, log, asked, i, k - 1);
      assert (k - 1 - i) * cfg.cooldownSeconds >= 0;
    }
  }

  /** Every closed day holds at most the cap. */
  lemma {:induction false} DailyCapHolds(cfg: Config, log: seq<RestartRecord>, asked: seq<real>, a: real)
    requires GuardedLog(cfg, log, asked)
    ensures CountIn(log, a, a + 86400.0) <= cfg.maxRestartsPerDay
  {
    if log != [] {
      GuardedPrefix(cfg, log, asked, |log| - 1);
      DailyCapHolds(cfg, Front(log), Front(asked), a);
      var k := |log| - 1;
      if a <= Last(log).at <= a + 86400.0 {
        assert Granted(cfg, log, asked, k);
        assert log[..k] == Front(log);
        CountInIsRecent(Front(log), a, a + 86400.0, asked[k] - 86400.0);
      }
    }
  }

  /** So any restart and the one as many places later as the cap are more than a day apart. */
  lemma RestartsBeyondTheCapAreADayApart(cfg: Config, log: seq<RestartRecord>, asked: seq<real>, i: nat)
    requires GuardedLog(cfg, log, asked) && i + cfg.maxRestartsPerDay < |log|
    ensures log[i].at + 86400.0 < log[i + cfg.maxRestartsPerDay].at
  {
    var k := i + cfg.maxRestartsPerDay;
    assert Granted(cfg, log, asked, k);
    GuardedIsSorted(cfg, log, asked);
    var before := log[..k];
    assert Sorted(before);
    CountSinceInOrder(before, asked[k] - 86400.0, cfg.maxRestartsPerDay);
    assert before[k - cfg.maxRestartsPerDay] == log[i];
  }

  lemma GuardedIsSorted(cfg: Config, log: seq<RestartRecord>, asked: seq<real>)
    requires GuardedLog(cfg, log, asked)
    ensures Sorted(log)
  {
    forall i, j | 0 <= i <= j < |log|
      ensures log[i].at <= log[j].at
    {
      RestartsAreSpaced(cfg, log, asked, i, j);
      assert (j - i) * cfg.cooldownSeconds >= 0;
    }
  }

  /** The restarts of any closed window span at least one cooldown each after the first. */
  lemma {:induction false} WindowSpansCooldowns(cfg: Config, log: seq<RestartRecord>, asked: seq<real>, a: real, b: real)
    requires GuardedLog(cfg, log, asked) && CountIn(log, a, b) > 0
    ensures ((CountIn(log, a, b) - 1) * cfg.cooldownSeconds) as real <= b - a
    decreases |log|
  {
    GuardedPrefix(cfg, log, asked, |log| - 1);
    var front, last := Front(log), Last(log);
    if !(a <= last.at <= b) {
      WindowSpansCooldowns(cfg, front, Front(asked), a, b);
    } else if CountIn(front, a, b) > 0 {
      var n, c := CountIn(log, a, b), cfg.cooldownSeconds;
      EarlierRestartsAreOneCooldownOlder(cfg, log, asked);
      CountInTightens(front, a, b, last.at - c as real);
      WindowSpansCooldowns(cfg, front, Front(asked), a, last.at - c as real);
      assert (n - 1) * c == (n - 2) * c + c;
    } else {
      assert (CountIn(log, a, b) - 1) * cfg.cooldownSeconds == 0;
    }
  }

  lemma {:induction false} PeriodsHoldTheCap(cfg: Config, log: seq<RestartRecord>, asked: seq<real>, a: real, b: real, days: nat)
    requires GuardedLog(cfg, log, asked) && b - a < days as real * 86400.0
    ensures CountIn(log, a, b) <= cfg.maxRestartsPerDay * days
    decreases days
  {
    if days == 0 {
      EmptyWindow(log, a, b);
    } else {
      var m := a + 86400.0;
      CountInSplits(log, a, m, b);
      DailyCapHolds(cfg, log, asked, a);
      PeriodsHoldTheCap(cfg, log, asked, m, b, days - 1);
      assert cfg.maxRestartsPerDay * days == cfg.maxRestartsPerDay * (days - 1) + cfg.maxRestartsPerDay;
    }
  }

  lemma {:induction false} EmptyWindow(log: seq<RestartRecord>, a: real, b: real)
    requires b < a
    ensures CountIn(log, a, b) == 0
  {
    if log != [] {
      EmptyWindow(Front(log), a, b);
    }
  }

  lemma FloorOfQuotient(k: nat, c: real, length: real)
    requires c > 0.0 && k as real * c <= length
    ensures k <= (length / c).Floor
  {
    assert k as real <= length / c;
  }

  lemma CooldownBudget(cfg: Config, log: seq<RestartRecord>, asked: seq<real>, a: real, b: real)
    requires GuardedLog(cfg, log, asked) && a <= b && cfg.cooldownSeconds > 0
    ensures CountIn(log, a, b) <= ((b - a) / cfg.cooldownSeconds as real).Floor + 1
  {
    var n, c := CountIn(log, a, b), cfg.cooldownSeconds as real;
    if n > 0 {
      WindowSpansCooldowns(cfg, log, asked, a, b);
      ProductOfReals(n - 1, cfg.cooldownSeconds);
      FloorOfQuotient(n - 1, c, b - a);
    } else {
      FloorOfQuotient(0, c, b - a);
    }
  }

  lemma ProductOfReals(n: nat, c: nat)
    ensures (n * c) as real == n as real * c as real
  {
  }

  lemma StartedDays(length: real)
    requires length >= 0.0
    ensures (length / 86400.0).Floor >= 0
    ensures length < ((length / 86400.0).Floor + 1) as real * 86400.0
  {
  }

  /** A count that the budget of a closed window allows: one per full cooldown plus one, and the cap per started day. */
  ghost predicate WithinBudget(cfg: Config, n: int, a: real, b: real)
    requires a <= b
  {
    && (cfg.cooldownSeconds > 0 ==> n <= ((b - a) / cfg.cooldownSeconds as real).Floor + 1)
    && n <= cfg.maxRestartsPerDay * (((b - a) / 86400.0).Floor + 1)
  }

  /** The restart budget: no closed window holds more than it allows. */
  lemma RestartBudget(cfg: Config, log: seq<RestartRecord>, asked: seq<real>, a: real, b: real)
    requires GuardedLog(cfg, log, asked) && a <= b
    ensures WithinBudget(cfg, CountIn(log, a, b), a, b)
  {
    if cfg.cooldownSeconds > 0 {
      CooldownBudget(cfg, log, asked, a, b);
    }
    StartedDays(b - a);
    PeriodsHoldTheCap(cfg, log, asked, a, b, ((b - a) / 86400.0).Floor + 1);
  }

  // ---- The clock assumption ----------------------------------------------------------------------

  /** In order, and at least one cooldown per step apart. */
  ghost predicate Spaced(cfg: Config, log: seq<RestartRecord>) {
    forall i: nat, j: nat | i <= j < |log| :: log[i].at + ((j - i) * cfg.cooldownSeconds) as real <= log[j].at
  }

  ghost predicate DayCapped(cfg: Config, log: seq<RestartRecord>, a: real) {
    CountIn(log, a, a + 86400.0) <= cfg.maxRestartsPerDay
  }

  /** A restart that the guard allows at `asked` and that is recorded at `recorded` keeps the budget of every guarded log. */
  ghost predicate RecordingIsSafe(cfg: Config, s: State, asked: real, recorded: real) {
    forall log, times | GuardedLog(cfg, log, times) && BudgetIsClear(cfg, log, asked) ::
      Spaced(cfg, log + [RestartRecord(recorded, s)]) && forall a :: DayCapped(cfg, log + [RestartRecord(recorded, s)], a)
  }

  lemma GuardedKeepsTheBudget(cfg: Config, log: seq<RestartRecord>, asked: seq<real>)
    requires GuardedLog(cfg, log, asked)
    ensures Spaced(cfg, log) && forall a :: DayCapped(cfg, log, a)
  {
    forall i: nat, j: nat | i <= j < |log|
      ensures log[i].at + ((j - i) * cfg.cooldownSeconds) as real <= log[j].at
    {
      RestartsAreSpaced(cfg, log, asked, i, j);
    }
    forall a
      ensures DayCapped(cfg, log, a)
    {
      DailyCapHolds(cfg, log, asked, a);
    }
  }

  /** A single restart that the guard is clear after at `asked`, and that a record before `asked` comes too close to. */
  lemma OneRestart(cfg: Config, s: State, at: real, asked: real)
    requires cfg.maxRestartsPerDay > 0 && at + cfg.cooldownSeconds as real <= asked
    requires cfg.maxRestartsPerDay > 1 || at < asked - 86400.0
    ensures GuardedLog(cfg, [RestartRecord(at, s)], [at])
    ensures BudgetIsClear(cfg, [RestartRecord(at, s)], asked)
  {
    var log := [RestartRecord(at, s)];
    assert Front(log) == [] && log[..0] == [];
    assert Granted(cfg, log, [at], 0);
  }

  lemma TooClose(cfg: Config, x: RestartRecord, r: RestartRecord)
    ensures Spaced(cfg, [x] + [r]) ==> x.at + cfg.cooldownSeconds as real <= r.at
    ensures x.at <= r.at <= x.at + 86400.0 && DayCapped(cfg, [x] + [r], x.at) ==> cfg.maxRestartsPerDay >= 2
  {
    var log := [x] + [r];
    assert Front(log) == [x] && Front([x]) == [];
    assert CountIn([x], x.at, x.at + 86400.0) == 1;
    if Spaced(cfg, log) {
      assert log[0].at + ((1 - 0) * cfg.cooldownSeconds) as real <= log[1].at;
    }
  }

  lemma SteppingBackIsUnsafe(cfg: Config, s: State, asked: real, recorded: real)
    requires cfg.maxRestartsPerDay > 0 && recorded < asked
    ensures !RecordingIsSafe(cfg, s, asked, recorded)
  {
    var at := asked - cfg.cooldownSeconds as real;
    if cfg.maxRestartsPerDay == 1 && at >= asked - 86400.0 {
      at := asked - 86400.0 - (asked - recorded) / 2.0;
    }
    OneRestart(cfg, s, at, asked);
    TooClose(cfg, RestartRecord(at, s), RestartRecord(recorded, s));
  }

  /**
   The one clock assumption is exact, under every configuration that allows restarts: a restart keeps
   cooldown and cap of whatever came before exactly when it is not recorded before it was asked for.
   */
  lemma ClockAssumptionIsExact(cfg: Config, s: State, asked: real, recorded: real)
    ensures RecordingIsSafe(cfg, s, asked, recorded) <==> asked <= recorded || cfg.maxRestartsPerDay == 0
  {
    if asked <= recorded {
      var r := RestartRecord(recorded, s);
      forall log, times | GuardedLog(cfg, log, times) && BudgetIsClear(cfg, log, asked)
        ensures Spaced(cfg, log + [r]) && forall a :: DayCapped(cfg, log + [r], a)
      {
        GuardedExtends(cfg, log, times, r, asked);
        GuardedKeepsTheBudget(cfg, log + [r], times + [asked]);
      }
    } else if cfg.maxRestartsPerDay > 0 {
      SteppingBackIsUnsafe(cfg, s, asked, recorded);
    }
  }

  // ---- The history the guard sees --------------------------------------------------------------

  /** `h` is the full log without its oldest records, all of them older than the retention period. */
  ghost predicate PrunedFrom(h: seq<RestartRecord>, full: seq<RestartRecord>) {
    && Sorted(full)
    && |h| <= |full| && h == full[|full| - |h|..]
    && (full != [] ==> h != [])
    && forall i | 0 <= i < |full| - |h| :: full[i].at < Last(full).at - 604800.0
  }

  lemma RecordingPrunes(h: seq<RestartRecord>, full: seq<RestartRecord>, r: RestartRecord)
    requires PrunedFrom(h, full) && (full != [] ==> Last(full).at <= r.at)
    ensures PrunedFrom(Recorded(h, r), full + [r])
  {
    var dropped, all := |full| - |h|, full + [r];
    assert h != [] ==> Last(h) == Last(full);
    SortedSuffix(full, dropped);
    SortedAppend(full, r);
    var d := RecordedShape(h, r);
    assert h[d..] + [r] == all[dropped + d..];
    forall i | 0 <= i < dropped + d
      ensures all[i].at < r.at - 604800.0
    {
      assert i >= dropped ==> full[i] == h[i - dropped];
    }
  }

  lemma OldRecordsDoNotCount(full: seq<RestartRecord>, n: nat, c: real)
    requires n <= |full| && forall i | 0 <= i < n :: full[i].at < c
    ensures CountSince(full[n..], c) == CountSince(full, c)
  {
    var aged, rest := full[..n], full[n..];
    forall r | r in aged
      ensures r.at < c
    {
      var i :| 0 <= i < n && aged[i] == r;
      assert full[i] == r;
    }
    NoneSince(aged, c);
    CountSinceAppends(aged, rest, c);
    assert aged + rest == full;
  }

  lemma AgedRecordsAreNotRecent(h: seq<RestartRecord>, full: seq<RestartRecord>, c: real)
    requires PrunedFrom(h, full) && h != [] && Last(h).at - 604800.0 <= c
    ensures CountSince(h, c) == CountSince(full, c)
  {
    assert Last(h) == Last(full);
    OldRecordsDoNotCount(full, |full| - |h|, c);
  }

  /**
   Pruning is invisible: at every query time, before or after the newest record, the guard answers
   on the pruned history exactly what it would answer on the full log.
   */
  lemma PruningIsInvisible(cfg: Config, h: seq<RestartRecord>, full: seq<RestartRecord>,
                           s: State, databaseStreak: nat, reachable: Option<bool>, now: real)
    requires PrunedFrom(h, full)
    ensures Guard(cfg, h, s, databaseStreak, reachable, now) == Guard(cfg, full, s, databaseStreak, reachable, now)
  {
    assert CooldownRemaining(cfg, h, now) == CooldownRemaining(cfg, full, now);
    if h != [] && CooldownRemaining(cfg, h, now) == 0.0 {
      AgedRecordsAreNotRecent(h, full, now - 86400.0);
    }
  }

  lemma PruningKeepsTheBudgetClear(cfg: Config, h: seq<RestartRecord>, full: seq<RestartRecord>, now: real)
    requires PrunedFrom(h, full)
    ensures BudgetIsClear(cfg, h, now) <==> BudgetIsClear(cfg, full, now)
  {
    if h != [] {
      assert Last(h) == Last(full);
      if Last(h).at + cfg.cooldownSeconds as real <= now {
        AgedRecordsAreNotRecent(h, full, now - 86400.0);
      }
    }
  }

  lemma ClearOnTheLatest(cfg: Config, base: seq<RestartRecord>, log: seq<RestartRecord>, now: real)
    requires BudgetIsClear(cfg, base + log, now)
    ensures BudgetIsClear(cfg, log, now)
  {
    CountSinceAppends(base, log, now - 86400.0);
    assert log != [] ==> Last(base + log) == Last(log);
  }

  /** A decision taken on the pruned history of `base` and a guarded log is a grant on that log. */
  lemma AllowedIsGranted(cfg: Config, h: seq<RestartRecord>, base: seq<RestartRecord>, log: seq<RestartRecord>, asked: seq<real>,
                         s: State, databaseStreak: nat, reachable: Option<bool>, now: real, r: RestartRecord)
    requires GuardedLog(cfg, log, asked) && PrunedFrom(h, base + log)
    requires Guard(cfg, h, s, databaseStreak, reachable, now).Allowed? && now <= r.at
    ensures BudgetIsClear(cfg, base + log, now)
    ensures GuardedLog(cfg, log + [r], asked + [now])
    ensures PrunedFrom(Recorded(h, r), base + (log + [r]))
  {
    assert BudgetIsClear(cfg, h, now);
    PruningKeepsTheBudgetClear(cfg, h, base + log, now);
    ClearOnTheLatest(cfg, base, log, now);
    GuardedExtends(cfg, log, asked, r, now);
    RecordingPrunes(h, base + log, r);
    assert base + (log + [r]) == base + log + [r];
  }
}
