/**
 The restart history on the data volume (src/restart_manager.py, `RestartManager`): load, record,
 prune, and a write-then-rename save that can fail or be cut short by a crash after any step.
 */
module RestartHistory {
  import opened Common
  import opened Settings
  import opened Verdicts
  import opened RestartGuard

  datatype Entry = Malformed | Stored(record: RestartRecord)

  /** `Unreadable` covers a file that cannot be read or does not parse, such as a half-written one. */
  datatype File = Absent | Unreadable | Complete(entries: seq<Entry>)

  datatype Disk = Disk(main: File, temp: File)

  const SAVE_STEPS: nat := 3

  function Entries(h: seq<RestartRecord>): (es: seq<Entry>)
    ensures |es| == |h|
  {
    seq(|h|, i requires 0 <= i < |h| => Stored(h[i]))
  }

  function WellFormed(es: seq<Entry>): seq<RestartRecord> {
    if es == [] then []
    else if Last(es).Stored? then WellFormed(Front(es)) + [Last(es).record]
    else WellFormed(Front(es))
  }

  /** Insert behind every record that is not newer, as a stable sort does. */
  function InsertByAt(h: seq<RestartRecord>, r: RestartRecord): seq<RestartRecord> {
    if h == [] || Last(h).at <= r.at then h + [r] else InsertByAt(Front(h), r) + [Last(h)]
  }

  function SortByAt(h: seq<RestartRecord>): seq<RestartRecord> {
    if h == [] then [] else InsertByAt(SortByAt(Front(h)), Last(h))
  }

  function Loaded(f: File): seq<RestartRecord> {
    if f.Complete? then SortByAt(WellFormed(f.entries)) else []
  }

  /** The disk after the first `steps` of: start a temporary file, complete it, rename it. */
  function SaveUpTo(d: Disk, h: seq<RestartRecord>, steps: nat): Disk {
    if steps == 0 then d
    else if steps == 1 then d.(temp := Unreadable)
    else if steps == 2 then d.(temp := Complete(Entries(h)))
    else Disk(Complete(Entries(h)), Absent)
  }

  class HistoryFile {
    var main: File
    var temp: File

    ghost function View(): Disk
      reads this
    {
      Disk(main, temp)
    }

    constructor (main: File)
      ensures View() == Disk(main, Absent)
    {
      this.main := main;
      temp := Absent;
    }
  }

  class RestartManager {
    const config: Config
    const file: HistoryFile
    var history: seq<RestartRecord>

    constructor (config: Config, file: HistoryFile)
      ensures this.config == config && this.file == file
      ensures history == Loaded(file.main)
    {
      this.config := config;
      this.file := file;
      history := [];
      new;
      Load();
    }

    method Load()
      requires history == []
      modifies this
      ensures history == Loaded(file.main)
    {
      if !file.main.Complete? {
        return;
      }
      var entries := file.main.entries;
      for i := 0 to |entries|
        invariant file.main == old(file.main)
        invariant history == WellFormed(entries[..i])
      {
        assert Front(entries[..i + 1]) == entries[..i];
        if entries[i].Stored? {
          history := history + [entries[i].record];
        }
      }
      assert entries[..|entries|] == entries;
      history := SortByAt(history);
    }

    /** `saveSteps` is how far the save gets before the file system fails it. */
    method Record(state: State, now: real, saveSteps: nat) returns (r: RestartRecord)
      modifies this, file
      ensures r == RestartRecord(now, state)
      ensures history == Recorded(old(history), r)
      ensures file.View() == SaveUpTo(old(file.View()), history, saveSteps)
    {
      r := RestartRecord(now, state);
      history := history + [r];
      history := Prune(history, now - RETENTION_SECONDS);
      Save(saveSteps);
    }

    method Save(saveSteps: nat)
      modifies file
      ensures file.View() == SaveUpTo(old(file.View()), history, saveSteps)
    {
      if saveSteps == 0 {
        return;
      }
      file.temp := Unreadable;
      if saveSteps == 1 {
        return;
      }
      file.temp := Complete(Entries(history));
      if saveSteps == 2 {
        return;
      }
      file.main := file.temp;
      file.temp := Absent;
    }

    function Decide(s: State, databaseStreak: nat, reachable: Option<bool>, now: real): Decision
      reads this
    {
      Guard(config, history, s, databaseStreak, reachable, now)
    }
  }

  // ---- Loading what was saved ------------------------------------------------------------------

  lemma {:induction false} EntriesAreWellFormed(h: seq<RestartRecord>)
    ensures WellFormed(Entries(h)) == h
  {
    if h != [] {
      EntriesAreWellFormed(Front(h));
      assert Front(Entries(h)) == Entries(Front(h));
    }
  }

  lemma {:induction false} InsertKeepsOrder(h: seq<RestartRecord>, r: RestartRecord)
    requires Sorted(h)
    ensures Sorted(InsertByAt(h, r))
    ensures h != [] ==> Last(InsertByAt(h, r)).at == if Last(h).at <= r.at then r.at else Last(h).at
  {
    if h == [] || Last(h).at <= r.at {
      SortedAppend(h, r);
    } else {
      var front := Front(h);
      assert Sorted(front) by {
        assert forall i | 0 <= i < |front| :: front[i] == h[i];
      }
      assert front != [] ==> Last(front).at <= Last(h).at;
      InsertKeepsOrder(front, r);
      SortedAppend(InsertByAt(front, r), Last(h));
    }
  }

  /** The records of one moment, in the order in which they stand. */
  ghost function RecordsAt(h: seq<RestartRecord>, at: real): seq<RestartRecord> {
    if h == [] then [] else RecordsAt(Front(h), at) + if Last(h).at == at then [Last(h)] else []
  }

  ghost function EntriesAt(es: seq<Entry>, at: real): seq<RestartRecord> {
    if es == [] then []
    else EntriesAt(Front(es), at) + if Last(es).Stored? && Last(es).record.at == at then [Last(es).record] else []
  }

  lemma RecordsAtAppend(h: seq<RestartRecord>, r: RestartRecord, at: real)
    ensures RecordsAt(h + [r], at) == RecordsAt(h, at) + if r.at == at then [r] else []
  {
    assert Front(h + [r]) == h;
  }

  lemma {:induction false} InsertAddsLast(h: seq<RestartRecord>, r: RestartRecord, at: real)
    ensures RecordsAt(InsertByAt(h, r), at) == RecordsAt(h, at) + if r.at == at then [r] else []
  {
    if h == [] || Last(h).at <= r.at {
      RecordsAtAppend(h, r, at);
    } else {
      InsertAddsLast(Front(h), r, at);
      RecordsAtAppend(InsertByAt(Front(h), r), Last(h), at);
    }
  }

  lemma {:induction false} SortingKeepsEachMoment(h: seq<RestartRecord>, at: real)
    ensures RecordsAt(SortByAt(h), at) == RecordsAt(h, at)
  {
    if h != [] {
      SortingKeepsEachMoment(Front(h), at);
      InsertAddsLast(SortByAt(Front(h)), Last(h), at);
    }
  }

  lemma {:induction false} WellFormedKeepsEachMoment(es: seq<Entry>, at: real)
    ensures RecordsAt(WellFormed(es), at) == EntriesAt(es, at)
  {
    if es != [] {
      WellFormedKeepsEachMoment(Front(es), at);
      if Last(es).Stored? {
        RecordsAtAppend(WellFormed(Front(es)), Last(es).record, at);
      }
    }
  }

  /** Loading puts the records in time order. */
  lemma {:induction false} SortingSorts(h: seq<RestartRecord>)
    ensures Sorted(SortByAt(h))
  {
    if h != [] {
      SortingSorts(Front(h));
      InsertKeepsOrder(SortByAt(Front(h)), Last(h));
    }
  }

  /**
   What loading makes of a file: the records in time order and, for each moment, exactly the well-formed
   entries of that moment in the order of the file; nothing of a file that is missing or unreadable.
   */
  lemma LoadingIsExact(f: File, at: real)
    ensures Sorted(Loaded(f))
    ensures RecordsAt(Loaded(f), at) == if f.Complete? then EntriesAt(f.entries, at) else []
  {
    if f.Complete? {
      SortingSorts(WellFormed(f.entries));
      SortingKeepsEachMoment(WellFormed(f.entries), at);
      WellFormedKeepsEachMoment(f.entries, at);
    }
  }

  lemma {:induction false} SortingKeepsSorted(h: seq<RestartRecord>)
    requires Sorted(h)
    ensures SortByAt(h) == h
  {
    if h != [] {
      SortingKeepsSorted(Front(h));
      assert Front(h) != [] ==> Last(Front(h)).at <= Last(h).at;
      assert h == Front(h) + [Last(h)];
    }
  }

  lemma LoadingSortsTheSaved(d: Disk, h: seq<RestartRecord>)
    ensures Loaded(SaveUpTo(d, h, SAVE_STEPS).main) == SortByAt(h)
  {
    EntriesAreWellFormed(h);
  }

  /** Save then load gives the history back exactly when it is in time order. */
  lemma SaveThenLoad(d: Disk, h: seq<RestartRecord>)
    ensures Loaded(SaveUpTo(d, h, SAVE_STEPS).main) == h <==> Sorted(h)
  {
    LoadingSortsTheSaved(d, h);
    var sorted := SortByAt(h);
    assert Sorted(sorted) by {
      SortingSorts(h);
    }
    if Sorted(h) {
      SortingKeepsSorted(h);
    }
  }

  // ---- Restarts, failed saves, crashes and recreations -----------------------------------------

  /** One restart attempt; `crashed` means the process dies right after the completed save steps. */
  datatype Attempt = Attempt(
    state: State,
    databaseStreak: nat,
    reachable: Option<bool>,
    askedAt: real,
    recordedAt: real,
    dockerOk: bool,
    saveSteps: nat,
    crashed: bool)

  datatype StoreEvent = Restart(attempt: Attempt) | Recreate

  /**
   The running manager and its disk beside what really happened: of all the restarts Docker carried
   out, the ones the disk knows, the later ones only the running manager knows, and the ones that
   were still only in memory when a process ended.
   */
  datatype Ledger = Ledger(
    memory: seq<RestartRecord>,
    disk: Disk,
    successes: seq<RestartRecord>,
    stored: RestartLog,
    unsaved: RestartLog,
    lost: seq<RestartRecord>)

  const EMPTY_LOG: RestartLog := RestartLog([], [])

  function Joined(a: RestartLog, b: RestartLog): RestartLog {
    RestartLog(a.records + b.records, a.asked + b.asked)
  }

  /** The restarts the running manager knows of. */
  function Known(l: Ledger): RestartLog {
    Joined(l.stored, l.unsaved)
  }

  /** The guard agreed and Docker carried the restart out. */
  predicate Succeeds(cfg: Config, l: Ledger, a: Attempt) {
    Guard(cfg, l.memory, a.state, a.databaseStreak, a.reachable, a.askedAt).Allowed? && a.dockerOk
  }

  function RecordOf(a: Attempt): RestartRecord {
    RestartRecord(a.recordedAt, a.state)
  }

  /** A new process knows what the disk knows. */
  function Reload(l: Ledger): Ledger {
    l.(memory := Loaded(l.disk.main), unsaved := EMPTY_LOG, lost := l.lost + l.unsaved.records)
  }

  function RecordAndSave(l: Ledger, a: Attempt): Ledger {
    var r := RecordOf(a);
    var memory := Recorded(l.memory, r);
    var known := Joined(Known(l), RestartLog([r], [a.askedAt]));
    var after := l.(memory := memory, disk := SaveUpTo(l.disk, memory, a.saveSteps), successes := l.successes + [r]);
    if a.saveSteps >= SAVE_STEPS
    then after.(stored := known, unsaved := EMPTY_LOG)
    else after.(unsaved := Joined(l.unsaved, RestartLog([r], [a.askedAt])))
  }

  function LedgerStep(cfg: Config, l: Ledger, e: StoreEvent): Ledger {
    match e
    case Recreate => Reload(l)
    case Restart(a) =>
      if !Succeeds(cfg, l, a) then l
      else if a.crashed then Reload(RecordAndSave(l, a))
      else RecordAndSave(l, a)
  }

  /** From a manager just started on disk `d`. */
  function Replay(cfg: Config, d: Disk, es: seq<StoreEvent>): Ledger {
    if es == [] then Ledger(Loaded(d.main), d, [], EMPTY_LOG, EMPTY_LOG, [])
    else LedgerStep(cfg, Replay(cfg, d, Front(es)), Last(es))
  }

  /** The wall clock does not step back between asking the guard and recording the restart. */
  ghost predicate ClockHolds(es: seq<StoreEvent>) {
    forall e | e in es :: e.Restart? ==> e.attempt.askedAt <= e.attempt.recordedAt
  }

  // ---- What the file holds -----------------------------------------------------------------------

  /** The history that the last completed save of the run wrote. */
  function LastSaved(cfg: Config, d: Disk, es: seq<StoreEvent>): Option<seq<RestartRecord>> {
    if es == [] then None
    else
      var l, e := Replay(cfg, d, Front(es)), Last(es);
      if e.Restart? && Succeeds(cfg, l, e.attempt) && e.attempt.saveSteps >= SAVE_STEPS
      then Some(Recorded(l.memory, RecordOf(e.attempt)))
      else LastSaved(cfg, d, Front(es))
  }

  /**
   Wherever saves fail or crashes strike, and whatever the clock does, the history file is the one
   the last completed save wrote, or the one there was before any.
   */
  lemma {:induction false} HistoryFileIsAlwaysWhole(cfg: Config, d: Disk, es: seq<StoreEvent>)
    ensures Replay(cfg, d, es).disk.main == match LastSaved(cfg, d, es) case Some(h) => Complete(Entries(h)) case None => d.main
  {
    if es != [] {
      HistoryFileIsAlwaysWhole(cfg, d, Front(es));
    }
  }

  /** Some restart of the run is on no disk yet: the last one's save was cut short, and its process goes on. */
  predicate Dirty(cfg: Config, d: Disk, es: seq<StoreEvent>) {
    if es == [] then false
    else
      match Last(es)
      case Recreate => false
      case Restart(a) =>
        if Succeeds(cfg, Replay(cfg, d, Front(es)), a) then a.saveSteps < SAVE_STEPS && !a.crashed
        else Dirty(cfg, d, Front(es))
  }

  lemma {:induction false} DirtyMeansUnsaved(cfg: Config, d: Disk, es: seq<StoreEvent>)
    ensures Dirty(cfg, d, es) <==> Replay(cfg, d, es).unsaved.records != []
  {
    if es != [] {
      DirtyMeansUnsaved(cfg, d, Front(es));
    }
  }

  // ---- The invariant of every replay -------------------------------------------------------------

  ghost predicate LedgerInv(cfg: Config, base: seq<RestartRecord>, l: Ledger) {
    && GuardedLog(cfg, Known(l).records, Known(l).asked)
    && |l.stored.asked| == |l.stored.records|
    && PrunedFrom(l.memory, base + Known(l).records)
    && PrunedFrom(Loaded(l.disk.main), base + l.stored.records)
    && (l.unsaved.records == [] ==> l.memory == Loaded(l.disk.main))
    && (forall r | r in l.successes :: r in Known(l).records || r in l.lost)
    && (l.lost == [] ==> l.successes == Known(l).records)
  }

  lemma ReloadKeepsTheLedger(cfg: Config, base: seq<RestartRecord>, l: Ledger)
    requires LedgerInv(cfg, base, l)
    ensures LedgerInv(cfg, base, Reload(l))
  {
    var stored, known := l.stored, Known(l);
    GuardedPrefix(cfg, known.records, known.asked, |stored.records|);
    assert known.records[..|stored.records|] == stored.records && known.asked[..|stored.records|] == stored.asked;
    assert Known(Reload(l)) == stored;
    if l.lost + l.unsaved.records == [] {
      assert known.records == stored.records;
    }
  }

  lemma SavingStoresAll(d: Disk, h: seq<RestartRecord>, steps: nat)
    requires Sorted(h)
    ensures Loaded(SaveUpTo(d, h, steps).main) == if steps >= SAVE_STEPS then h else Loaded(d.main)
  {
    SaveThenLoad(d, h);
    if steps >= SAVE_STEPS {
      assert SaveUpTo(d, h, steps) == SaveUpTo(d, h, SAVE_STEPS);
    }
  }

  lemma RecordingKnowsOneMore(l: Ledger, a: Attempt)
    ensures Known(RecordAndSave(l, a)) == RestartLog(Known(l).records + [RecordOf(a)], Known(l).asked + [a.askedAt])
  {
  }

  lemma RecordingKeepsTheLedger(cfg: Config, base: seq<RestartRecord>, l: Ledger, a: Attempt)
    requires LedgerInv(cfg, base, l) && a.askedAt <= a.recordedAt && Succeeds(cfg, l, a)
    ensures LedgerInv(cfg, base, RecordAndSave(l, a))
  {
    var r, known := RecordOf(a), Known(l);
    AllowedIsGranted(cfg, l.memory, base, known.records, known.asked, a.state, a.databaseStreak, a.reachable, a.askedAt, r);
    var memory := Recorded(l.memory, r);
    PrunedIsSorted(memory, base + (known.records + [r]));
    SavingStoresAll(l.disk, memory, a.saveSteps);
    RecordingKnowsOneMore(l, a);
  }

  lemma PrunedIsSorted(h: seq<RestartRecord>, full: seq<RestartRecord>)
    requires PrunedFrom(h, full)
    ensures Sorted(h)
  {
    SortedSuffix(full, |full| - |h|);
  }

  lemma {:induction false} ReplayKeepsTheLedger(cfg: Config, d: Disk, es: seq<StoreEvent>)
    requires ClockHolds(es)
    ensures LedgerInv(cfg, Loaded(d.main), Replay(cfg, d, es))
  {
    var base := Loaded(d.main);
    if es == [] {
      LoadingIsExact(d.main, 0.0);
      assert base + [] == base;
    } else {
      assert Last(es) in es;
      assert forall e | e in Front(es) :: e in es;
      ReplayKeepsTheLedger(cfg, d, Front(es));
      var l, e := Replay(cfg, d, Front(es)), Last(es);
      match e
      case Recreate => ReloadKeepsTheLedger(cfg, base, l);
      case Restart(a) =>
        if Succeeds(cfg, l, a) {
          RecordingKeepsTheLedger(cfg, base, l, a);
          ReloadKeepsTheLedger(cfg, base, RecordAndSave(l, a));
        }
    }
  }

  // ---- What recreations and crashes can and cannot change ----------------------------------------

  /** `r` is in the history, or older than the history's newest record by more than the retention period. */
  predicate Accounted(h: seq<RestartRecord>, r: RestartRecord) {
    r in h || (h != [] && r.at < Last(h).at - 604800.0)
  }

  lemma PrunedAccounts(h: seq<RestartRecord>, full: seq<RestartRecord>, r: RestartRecord)
    requires PrunedFrom(h, full) && r in full
    ensures Accounted(h, r)
  {
    var i :| 0 <= i < |full| && full[i] == r;
    assert Last(h) == Last(full);
    assert i >= |full| - |h| ==> h[i - (|full| - |h|)] == r;
  }

  /**
   Every restart that happened is on disk or aged out of it, or is known to the running manager and
   waits for the next completed save, or was lost when a process ended before such a save.
   */
  lemma EveryRestartIsAccountedFor(cfg: Config, d: Disk, es: seq<StoreEvent>, r: RestartRecord)
    requires ClockHolds(es) && r in Replay(cfg, d, es).successes
    ensures var l := Replay(cfg, d, es);
            || Accounted(Loaded(l.disk.main), r)
            || (r in l.unsaved.records && Accounted(l.memory, r))
            || r in l.lost
  {
    ReplayKeepsTheLedger(cfg, d, es);
    var l, base := Replay(cfg, d, es), Loaded(d.main);
    if r in l.stored.records {
      PrunedAccounts(Loaded(l.disk.main), base + l.stored.records, r);
    } else if r in l.unsaved.records {
      PrunedAccounts(l.memory, base + Known(l).records, r);
    }
  }

  /** Restarts are lost only where a process ends dirty; a completed save makes up for those cut short before it. */
  lemma OnlyDirtyEndsLoseRestarts(cfg: Config, d: Disk, es: seq<StoreEvent>, e: StoreEvent)
    ensures var l, l' := Replay(cfg, d, es), Replay(cfg, d, es + [e]);
            && (l'.lost != l.lost ==>
                  if e.Recreate? then Dirty(cfg, d, es)
                  else Succeeds(cfg, l, e.attempt) && e.attempt.crashed && e.attempt.saveSteps < SAVE_STEPS)
            && (e.Restart? && Succeeds(cfg, l, e.attempt) && e.attempt.saveSteps >= SAVE_STEPS ==>
                  !Dirty(cfg, d, es + [e]) && l'.stored.records == Known(l).records + [RecordOf(e.attempt)])
  {
    assert Front(es + [e]) == es;
    DirtyMeansUnsaved(cfg, d, es);
  }

  /** While every save completes, nothing is lost. */
  lemma {:induction false} OnlyFaultsLoseRestarts(cfg: Config, d: Disk, es: seq<StoreEvent>)
    requires forall e | e in es :: e.Restart? ==> e.attempt.saveSteps >= SAVE_STEPS
    ensures Replay(cfg, d, es).lost == [] && !Dirty(cfg, d, es)
  {
    if es != [] {
      assert Last(es) in es;
      assert forall e | e in Front(es) :: e in es;
      OnlyFaultsLoseRestarts(cfg, d, Front(es));
      DirtyMeansUnsaved(cfg, d, Front(es));
    }
  }

  /**
   Unless the last restart's save was cut short, a recreated manager decides every question as the
   old one would have, whatever failed before.
   */
  lemma RecreationIsInvisible(cfg: Config, d: Disk, es: seq<StoreEvent>,
                              s: State, databaseStreak: nat, reachable: Option<bool>, now: real)
    requires ClockHolds(es) && !Dirty(cfg, d, es)
    ensures Guard(cfg, Replay(cfg, d, es + [Recreate]).memory, s, databaseStreak, reachable, now)
         == Guard(cfg, Replay(cfg, d, es).memory, s, databaseStreak, reachable, now)
  {
    ReplayKeepsTheLedger(cfg, d, es);
    DirtyMeansUnsaved(cfg, d, es);
    assert Front(es + [Recreate]) == es;
  }

  /** The guard answers as if it saw the history found at the start and every restart not lost since, unpruned. */
  lemma DecisionsSeeAllKnownRestarts(cfg: Config, d: Disk, es: seq<StoreEvent>,
                                     s: State, databaseStreak: nat, reachable: Option<bool>, now: real)
    requires ClockHolds(es)
    ensures var l := Replay(cfg, d, es);
            && Guard(cfg, l.memory, s, databaseStreak, reachable, now)
               == Guard(cfg, Loaded(d.main) + Known(l).records, s, databaseStreak, reachable, now)
            && (l.lost == [] ==> Known(l).records == l.successes)
  {
    ReplayKeepsTheLedger(cfg, d, es);
    var l := Replay(cfg, d, es);
    PruningIsInvisible(cfg, l.memory, Loaded(d.main) + Known(l).records, s, databaseStreak, reachable, now);
  }

  lemma {:induction false} CountInAppends(x: seq<RestartRecord>, y: seq<RestartRecord>, a: real, b: real)
    ensures CountIn(x + y, a, b) == CountIn(x, a, b) + CountIn(y, a, b)
  {
    if y == [] {
      assert x + y == x;
    } else {
      assert Front(x + y) == x + Front(y);
      CountInAppends(x, Front(y), a, b);
    }
  }

  ghost predicate CountsSplit(l: Ledger, a: real, b: real) {
    CountIn(l.successes, a, b) == CountIn(Known(l).records, a, b) + CountIn(l.lost, a, b)
  }

  lemma RecordingSplitsCounts(l: Ledger, attempt: Attempt, a: real, b: real)
    requires CountsSplit(l, a, b)
    ensures CountsSplit(RecordAndSave(l, attempt), a, b)
  {
    var r := RecordOf(attempt);
    RecordingKnowsOneMore(l, attempt);
    CountInAppends(l.successes, [r], a, b);
    CountInAppends(Known(l).records, [r], a, b);
  }

  lemma ReloadSplitsCounts(l: Ledger, a: real, b: real)
    requires CountsSplit(l, a, b)
    ensures CountsSplit(Reload(l), a, b)
  {
    CountInAppends(l.stored.records, l.unsaved.records, a, b);
    CountInAppends(l.lost, l.unsaved.records, a, b);
    assert Known(Reload(l)) == l.stored;
  }

  lemma {:induction false} WindowCountsSplit(cfg: Config, d: Disk, es: seq<StoreEvent>, a: real, b: real)
    ensures CountsSplit(Replay(cfg, d, es), a, b)
  {
    if es != [] {
      WindowCountsSplit(cfg, d, Front(es), a, b);
      var l, e := Replay(cfg, d, Front(es)), Last(es);
      match e
      case Recreate => ReloadSplitsCounts(l, a, b);
      case Restart(attempt) =>
        if Succeeds(cfg, l, attempt) {
          RecordingSplitsCounts(l, attempt, a, b);
          ReloadSplitsCounts(RecordAndSave(l, attempt), a, b);
        }
    }
  }

  /**
   The budget across recreations and crashes: in any closed window the restarts that really happened
   exceed the budget by at most those that were lost when a process ended.
   */
  lemma BudgetSurvivesRecreation(cfg: Config, d: Disk, es: seq<StoreEvent>, a: real, b: real)
    requires ClockHolds(es) && a <= b
    ensures var l := Replay(cfg, d, es);
            WithinBudget(cfg, CountIn(l.successes, a, b) - CountIn(l.lost, a, b), a, b)
  {
    ReplayKeepsTheLedger(cfg, d, es);
    WindowCountsSplit(cfg, d, es, a, b);
    var known := Known(Replay(cfg, d, es));
    RestartBudget(cfg, known.records, known.asked, a, b);
  }
}
