/** The events published over MQTT, in order. */
module Events {
  import opened Verdicts

  datatype Event =
    | FailureDetected(state: State)
    | AuthenticationRequired(state: State)
    | DatabaseUnhealthyReported
    | DiagnosticsCaptured(state: State)
    | RecoveryStarted(state: State)
    | RestartExecuted(state: State, success: bool)
    | Recovered(recoveredFrom: State)
    | ManualIntervention

  class EventLog {
    var events: seq<Event>

    constructor ()
      ensures events == []
    {
      events := [];
    }

    method Publish(e: Event)
      modifies this
      ensures events == old(events) + [e]
    {
      events := events + [e];
    }
  }
}
