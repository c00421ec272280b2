/** States, observations and the verdict of one check (src/state_machine.py, `evaluate`). */
module Verdicts {
  import opened Common

  datatype State =
    | Starting
    | Healthy
    | LoggedOut
    | LoggerUnhealthy
    | TeslamateUnreachable
    | DatabaseUnhealthy
    | AuthRefreshFailed
    | Recovering
    | ManualInterventionRequired

  datatype HttpCategory = Authenticated | SignInPage | Unreachable | ApplicationError | Unrecognised

  datatype LogSignals = LogSignals(
    authRefreshFailing: bool,
    authLost: bool,
    databaseFailure: bool,
    tokenDecryptionFailure: bool,
    refreshSuccess: bool)

  /** What the sources reported in one cycle; a source that could not tell reports `None`. */
  datatype Observation = Observation(
    http: HttpCategory,
    loggerHealthy: Option<bool>,
    loggerStale: bool,
    databaseHealthy: Option<bool>,
    containerRunning: Option<bool>,
    signals: Option<LogSignals>)

  datatype Evaluation = Evaluation(state: State, immediate: bool, inconclusive: bool)

  /** The failures one check can report. */
  predicate IsFailureVerdict(s: State) {
    s in {LoggedOut, LoggerUnhealthy, TeslamateUnreachable, DatabaseUnhealthy, AuthRefreshFailed}
  }

  predicate IsVerdict(e: Evaluation) {
    && (e.state == Healthy || IsFailureVerdict(e.state))
    && (e.immediate ==> e.state == TeslamateUnreachable && !e.inconclusive)
    && (e.inconclusive ==> e.state == Healthy)
  }

  type Verdict = e: Evaluation | IsVerdict(e) witness Evaluation(Healthy, false, false)

  predicate RestartAllowed(s: State) {
    s in {LoggerUnhealthy, TeslamateUnreachable, LoggedOut}
  }

  predicate NeedsTeslaAuth(s: State) {
    s == LoggedOut
  }

  predicate IsFailureState(s: State) {
    IsFailureVerdict(s) || s == ManualInterventionRequired
  }

  predicate IsAuthState(s: State) {
    s in {LoggedOut, AuthRefreshFailed}
  }

  /** One observation to one verdict; the first matching condition wins. */
  function Evaluate(o: Observation): Verdict {
    if o.databaseHealthy == Some(false) then
      Evaluation(DatabaseUnhealthy, false, false)
    else if o.containerRunning == Some(false) then
      Evaluation(TeslamateUnreachable, true, false)
    else if o.http == SignInPage then
      Evaluation(LoggedOut, false, false)
    else if o.http == Unreachable then
      Evaluation(TeslamateUnreachable, false, false)
    else if o.http == ApplicationError then
      Evaluation(TeslamateUnreachable, false, false)
    else if o.signals.Some? && o.signals.value.tokenDecryptionFailure then
      Evaluation(AuthRefreshFailed, false, false)
    else if o.signals.Some? && (o.signals.value.authRefreshFailing || o.signals.value.authLost) then
      Evaluation(AuthRefreshFailed, false, false)
    else if o.loggerHealthy == Some(false) then
      Evaluation(LoggerUnhealthy, false, false)
    else if o.loggerStale then
      Evaluation(LoggerUnhealthy, false, false)
    else if o.http != Authenticated then
      Evaluation(Healthy, false, true)
    else
      Evaluation(Healthy, false, false)
  }

  /** The documented decision table, in order of precedence. */
  const DECISION_TABLE: seq<State> :=
    [DatabaseUnhealthy, TeslamateUnreachable, LoggedOut, TeslamateUnreachable, AuthRefreshFailed, LoggerUnhealthy]

  const STOPPED_CONTAINER_ROW: nat := 1

  ghost predicate RowApplies(o: Observation, row: nat)
    requires row < |DECISION_TABLE|
  {
    match row
    case 0 => o.databaseHealthy == Some(false)
    case 1 => o.containerRunning == Some(false)
    case 2 => o.http == SignInPage
    case 3 => o.http == Unreachable || o.http == ApplicationError
    case 4 => o.signals.Some? && (o.signals.value.tokenDecryptionFailure || o.signals.value.authRefreshFailing || o.signals.value.authLost)
    case _ => o.loggerHealthy == Some(false) || o.loggerStale
  }

  /** A failure verdict is the first row of the table that applies, and only the second row is immediate. */
  lemma FirstRowWins(o: Observation, row: nat)
    requires row < |DECISION_TABLE| && RowApplies(o, row)
    requires forall earlier: nat | earlier < row :: !RowApplies(o, earlier)
    ensures Evaluate(o) == Evaluation(DECISION_TABLE[row], row == STOPPED_CONTAINER_ROW, false)
  {
    assert row > 0 ==> !RowApplies(o, 0);
    assert row > 1 ==> !RowApplies(o, 1);
    assert row > 2 ==> !RowApplies(o, 2);
    assert row > 3 ==> !RowApplies(o, 3);
    assert row > 4 ==> !RowApplies(o, 4);
  }

  /** A check fails exactly when some row applies, and then it is conclusive. */
  lemma FailureNeedsARow(o: Observation)
    ensures Evaluate(o).state != Healthy <==> exists row: nat :: row < |DECISION_TABLE| && RowApplies(o, row)
    ensures Evaluate(o).state != Healthy ==> !Evaluate(o).inconclusive
  {
    if row: nat :| row < |DECISION_TABLE| && RowApplies(o, row) {
      assert row in {0, 1, 2, 3, 4, 5};
    }
    assert RowApplies(o, 0) || RowApplies(o, 1) || RowApplies(o, 2) || RowApplies(o, 3) || RowApplies(o, 4) || RowApplies(o, 5)
           || Evaluate(o).state == Healthy;
  }

  /** A check tells nothing exactly when no row applies and the page was not recognised. */
  lemma InconclusiveMeansUnrecognised(o: Observation)
    ensures Evaluate(o).inconclusive <==>
            o.http == Unrecognised && forall row: nat | row < |DECISION_TABLE| :: !RowApplies(o, row)
  {
    FailureNeedsARow(o);
  }

  /** A check counts towards health exactly when the page was authenticated and no source complained. */
  lemma HealthyMeansNoComplaint(o: Observation)
    ensures var e := Evaluate(o);
            (e.state == Healthy && !e.inconclusive) <==>
            && o.http == Authenticated
            && o.databaseHealthy != Some(false)
            && o.containerRunning != Some(false)
            && o.loggerHealthy != Some(false)
            && !o.loggerStale
            && (o.signals.Some? ==>
                  var l := o.signals.value;
                  !l.tokenDecryptionFailure && !l.authRefreshFailing && !l.authLost)
  {
  }

  /** Turning the "refreshed tokens" and "database failure" log signals on or off never moves a verdict. */
  lemma InformationalSignalsAreIgnored(o: Observation, refreshed: bool, databaseLines: bool)
    requires o.signals.Some?
    ensures var flipped := o.signals.value.(refreshSuccess := refreshed, databaseFailure := databaseLines);
            Evaluate(o.(signals := Some(flipped))) == Evaluate(o)
  {
  }
}
