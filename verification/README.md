# TeslaMate Watchdog: a verified model of the control kernel

The watchdog checks TeslaMate once per interval, confirms failures over several checks, restarts
TeslaMate under a budget, and watches whether the restart helped. This project models that kernel in
Dafny and proves what its documentation promises about whole runs: no restart without confirmed
evidence, a bounded number of restarts even when the watchdog is recreated, an exact recovery
outcome, a fixed order of events, and no false staleness after a disconnect of its own. Two
algorithms beside the kernel, the Docker log demultiplexer and the log classifier, and the naming of
diagnostics bundles and MQTT topics are modelled as well.

`dafny verify dfyconfig.toml` checks the whole project.

## Layout

Objects the program updates in place are classes (`StateMachine`, `RestartManager`, `HistoryFile`,
`RecoveryController`, `Watchdog`, `WatchdogMqtt`, `EventLog`). Each method is proved against a step
function on values, and the lemmas about runs are proved about those functions.

| file | models | step functions |
|---|---|---|
| `Settings.dfy` | configuration values and their validation (`src/config.py`) | |
| `Verdicts.dfy` | states, observations, one check's verdict (`src/state_machine.py`) | `Evaluate` |
| `Confirmation.dfy` | the confirmation state machine (`src/state_machine.py`) | `Next`, `Run` |
| `RestartGuard.dfy` | cooldown, rolling cap, pruning (`src/restart_manager.py`) | `Guard`, `Recorded` |
| `RestartHistory.dfy` | the persisted history, failed saves, crashes, recreations (`src/restart_manager.py`) | `Loaded`, `SaveUpTo`, `LedgerStep` |
| `Docker.dfy`, `LogStream.dfy` | container resolution, the guarded restart, log frames (`src/docker_client.py`) | `Resolve`, `RestartContainer`, `Demux` |
| `Events.dfy`, `Recovery.dfy` | the recovery controller (`src/recovery.py`) | `BeginRecovery`, `StepRecovery`, `Drive` |
| `WatchdogLoop.dfy` | one check cycle (`src/main.py`) | `Cycle`, `After`, `Trace` |
| `EventProtocol.dfy`, `WatchdogRuns.dfy`, `RestartAttempts.dfy`, `FailureDetections.dfy` | theorems about whole runs of the watchdog | |
| `WatchdogLives.dfy` | theorems about many process lives on one data volume | |
| `Heartbeats.dfy` | the heartbeat tracker and its racing reader (`src/mqtt_client.py`) | `Apply`, `Stale` |
| `Logs.dfy`, `Bundles.dfy`, `Topics.dfy` | log classification, bundle names, topic derivation | |

A cycle takes a `World`: the observation, the wall clock when the guard is asked, the wall clock when
the restart is recorded, the monotonic clock, the result of probing Tesla's auth host, the container
listing and the reply to the restart request, whether a diagnostics bundle could be written, and how
far the save of the history gets. Nothing is assumed about these, except where a theorem requires
`ClockHolds`, `ClockHoldsInCycles` or `ClockHoldsInLives`: within one attempt the recording clock is
not behind the asking clock. Between cycles the wall clock may jump anywhere.

## Where the code and its documentation differ

- README.md:29-30 says a single bad check never changes anything. `SingleBadCheck` gives the exact
  condition: it does when the container is stopped or when one confirmation is configured.
- README.md:206-207 says the token alert is sent only when no restart was attempted. It is sent all the
  same in a cycle whose check confirms a logout, whose restart the guard allows, and whose restart
  Docker does not carry out; `TokensAreRequestedAfterAFailedLogoutRestart` shows that this is the only
  case, and `FailedLogoutRestartHappens` gives a run. What holds is
  `TokensAreNotRequestedDuringRecovery`.
- README.md:598-599 says a logout is restarted once the auth host is reachable again. The guard is
  asked only when the state changes. `ReturningHostIsNotNoticed` is a run in which the host comes back
  and nothing happens; `DueRestartsHappenOnEntry` says which due restarts do happen, exactly those due
  at a check that finds the watchdog in another state; `WithheldRestartIsNotRetried` shows how long
  nothing happens.
- src/main.py:3-5 speaks of two restartable states and README.md:618-621 warns against adding
  `LOGGED_OUT` to the allowlist; the allowlist has three states, `LOGGED_OUT` among them. The model
  follows the allowlist.
- The docstring at src/mqtt_client.py:329-345 promises that a stale verdict reflects a real silence. The
  reader takes the time first and reads the fields later, without a lock. `RacyVerdictIsSound` says
  exactly when its verdict is true of that time: unless a fresh heartbeat or a connect or disconnect
  was in flight and its write was missed, or the state read is not the one reported by then and has
  another limit, which takes a state report in flight or one that arrives during the reads
  (`OtherLimitNeedsAReport`). Each exception has a lemma with an input.
- TESLAMATE_HEALTH_TOPIC may hold empty levels, such as a leading slash. They are dropped from the derived
  filters (src/config.py:96), which then miss the very topic they come from: `FilterMatchesItsTopic` gives
  the exact condition, `LeadingSlashExample` a topic.
- README.md:213-215 asks of every restart that it be outside the cooldown and under the cap. A failed attempt
  is not recorded (src/recovery.py:132-149), although a request that timed out may still restart TeslaMate
  (src/docker_client.py:264-272). `FailedAttemptsPileUp` shows any number of attempts at one instant;
  `AttemptsKeepTheBudgetExactly` and `RequestsKeepTheBudgetExactly` say for which answers from Docker the
  promise holds, `AttemptsExceedByFailures` by how much it can fail.
- The docstring at src/mqtt_client.py:268-270 says that any known car reporting unhealthy wins. The chosen
  car's health is read a second time for the answer; `ChosenCarIsReported` gives the exact condition,
  `UnhealthyCarIsPassedOver` an input.
- A recovery's failure streak mixes failure kinds, takes no notice of immediate verdicts and uses the
  general failure count even for the vehicle logger, unlike the state machine.

## Model

| member | source | states |
|---|---|---|
| Verdicts.FirstRowWins | src/state_machine.py:165-228 | a failure verdict is the first applicable row of the documented decision table (README.md:151-159), and only the stopped container is immediate |
| Verdicts.FailureNeedsARow | src/state_machine.py:160-228 | a check reports a failure exactly when some row of the table applies |
| Verdicts.InconclusiveMeansUnrecognised | src/state_machine.py:229-238 | a check tells nothing exactly when no row applies and the page was not recognised |
| Verdicts.HealthyMeansNoComplaint | src/state_machine.py:217-240 | a check counts as healthy exactly when the page was authenticated and no source complained; unknowns never complain |
| Verdicts.InformationalSignalsAreIgnored | src/state_machine.py:98-104 | "refreshed tokens" and database log lines can never move a verdict |
| Confirmation.StateMachine.constructor | src/state_machine.py:244-251 | a new machine has no candidate and no streaks |
| Confirmation.StateMachine.Step | src/state_machine.py:265-284 | one check takes the machine to its next value, and a transition is reported exactly when the state changed |
| Confirmation.StateMachine.ForceState | src/state_machine.py:286-294 | a forced state forgets the candidate and both streaks |
| Confirmation.StateMachine.StepHealthy | src/state_machine.py:298-311 | a healthy check advances the healthy streak, clears the candidate, and confirms at the recovery count |
| Confirmation.StateMachine.StepFailure | src/state_machine.py:313-336 | a failing check advances or replaces the candidate, and confirms at the count of its kind or at once |
| Confirmation.MachineFollowsItsHistory | src/state_machine.py:265-336 | over any observations from any state but RECOVERING, the state is the verdict confirmed last among the conclusive ones, else the initial state, and the counters are the lengths of the trailing runs |
| Confirmation.DeclaredStateIsUnique | src/state_machine.py:298-336 | that counter-free reading determines the state |
| Confirmation.TransitionNeedsConfirmation | src/state_machine.py:298-336 | a conclusive verdict becomes the state exactly when it is immediate or ends a long enough run of its kind |
| Confirmation.LastChecksDecide | src/state_machine.py:298-336 | a verdict that is not immediate moves the machine to another state exactly when the last checks all report it: as many as the recovery count for health, the logger count for the logger, the failure count for the rest |
| Confirmation.SingleBadCheck | README.md:29-30 | when the state is another one, a bad check that is the first of its kind in a row, be it the first check ever, changes it exactly when it is immediate or needs one confirmation |
| Confirmation.InconclusiveChecksStutter | src/state_machine.py:275-280 | a run reaches the same machine as its conclusive checks alone |
| Confirmation.InsertedStuttersAreInvisible | src/state_machine.py:275-280 | any number of inconclusive checks inserted anywhere changes nothing |
| Confirmation.RecoveringIsHeld | src/state_machine.py:267-270 | ordinary checks never move a machine held at RECOVERING |
| Confirmation.MachineInvIsInductive | src/state_machine.py:286-336 | the streaks are never both positive, the candidate is a failure verdict, and no confirmed verdict is pending |
| Confirmation.TransitionsAreBounded | src/state_machine.py:298-336 | among n conclusive checks with i immediate ones there are at most i + (n - i) div min(R, F, L) transitions |
| Confirmation.TransitionsSpendVerdicts | src/state_machine.py:298-336 | the potential behind the bound: every transition that is not immediate is paid for by min(R, F, L) verdicts, and the unspent verdicts of the current run are not counted yet |
| RestartGuard.GuardAllowsExactly | src/restart_manager.py:152-204 | a restart is allowed exactly when the switches are on, the state is restartable, a logout was probed reachable, the database was confirmed twice, every recorded restart is a cooldown old, and the one as many restarts back as the cap is more than 86400 s old |
| RestartGuard.RefusalsSayWhy | src/restart_manager.py:135-204 | a refusal gives a true reason: when the cooldown ends, how many restarts lie in the last 86400 s |
| RestartGuard.PruningDropsAPrefix | src/restart_manager.py:126-128 | pruning an ordered history drops exactly the records older than the cutoff |
| RestartGuard.RecordedShape | src/restart_manager.py:206-211 | recording keeps the order and drops exactly the records more than 604800 s older than the new one |
| RestartGuard.AllowedIsGranted | src/restart_manager.py:190-211 | a restart allowed on the pruned history keeps cooldown and cap on the full history, and pruning it again leaves that history without aged records, if the clock did not step back between asking and recording |
| RestartGuard.RestartsAreSpaced | src/restart_manager.py:190-194 | recorded restarts are in order and j - i cooldowns apart |
| RestartGuard.DailyCapHolds | src/restart_manager.py:196-202 | every closed 24-hour window holds at most the cap |
| RestartGuard.RestartsBeyondTheCapAreADayApart | src/restart_manager.py:196-202 | two recorded restarts as many places apart as the cap are more than 86400 s apart |
| RestartGuard.WindowSpansCooldowns | src/restart_manager.py:143-148 | n restarts in a closed window span at least n - 1 cooldowns |
| RestartGuard.RestartBudget | src/restart_manager.py:130-211 | any closed window of length L holds at most L div cooldown + 1 restarts and at most cap times (L div one day + 1) |
| RestartGuard.ClockAssumptionIsExact | src/restart_manager.py:160-207 | under every configuration, a restart allowed at one clock reading and recorded at another keeps cooldown and cap of every history it may follow exactly when the second reading is not behind the first (or no restart is ever allowed) |
| RestartGuard.PruningIsInvisible | src/restart_manager.py:126-204 | at every query time the decision on the pruned history equals the decision on the full log |
| RestartHistory.RestartManager.constructor | src/restart_manager.py:65-69 | a new manager holds what the file holds |
| RestartHistory.RestartManager.Load | src/restart_manager.py:73-101 | loading skips malformed entries, sorts by time, and treats a missing or unreadable file as empty |
| RestartHistory.RestartManager.Record | src/restart_manager.py:206-216 | recording appends, prunes and saves the resulting history |
| RestartHistory.RestartManager.Save | src/restart_manager.py:103-122 | a save that stops after any of its steps leaves the disk as those steps left it |
| RestartHistory.SortingSorts | src/restart_manager.py:97-97 | a loaded history is in time order |
| RestartHistory.LoadingIsExact | src/restart_manager.py:73-97 | loading gives the records in time order and, for each moment, exactly the well-formed entries of that moment in the order of the file; nothing from a missing or unreadable file |
| RestartHistory.SaveThenLoad | src/restart_manager.py:73-122 | save then load is the identity exactly on histories in time order |
| RestartHistory.HistoryFileIsAlwaysWhole | src/restart_manager.py:107-116 | over every sequence of restarts, failed saves, crashes and recreations the history file is exactly the one the last completed save wrote, or the one found at the start, whatever the clock does |
| RestartHistory.EveryRestartIsAccountedFor | src/restart_manager.py:206-211 | every restart that happened is on disk or aged out of it, or is known to the running manager and waits for the next completed save, or was lost when a process ended before one |
| RestartHistory.OnlyDirtyEndsLoseRestarts | src/restart_manager.py:103-122 | restarts are lost only by a crash in a cut-short save or when a process ends after one; a completed save also stores the restarts whose own saves were cut short |
| RestartHistory.OnlyFaultsLoseRestarts | src/restart_manager.py:103-122 | while every save reaches the rename nothing is lost |
| RestartHistory.RecreationIsInvisible | src/restart_manager.py:3-6 | unless the last restart's save was cut short, a recreated manager answers every question as the old one would, whatever failed before |
| RestartHistory.DecisionsSeeAllKnownRestarts | src/restart_manager.py:126-204 | over crashes and recreations the guard answers as if it saw what it found at the start and every restart not lost since, unpruned |
| RestartHistory.BudgetSurvivesRecreation | src/restart_manager.py:103-216 | across crashes and recreations a window exceeds the budget by at most the restarts lost when a process ended |
| LogStream.Demultiplex | src/docker_client.py:98-122 | the loop over frames computes the demultiplexed bytes and terminates on any input |
| LogStream.DemuxInvertsFraming | src/docker_client.py:98-122 | any list of frames with streams 0 to 2 and payloads below 2^32 bytes gives back the concatenated payloads |
| LogStream.CutIsAPrefixExactly | src/docker_client.py:110-122 | a stream cut after t bytes always gives a prefix of the payloads exactly when t is 0 or at least 8; shorter pieces pass through raw |
| LogStream.DemuxIsSafeOnAnyBytes | src/docker_client.py:110-122 | on any bytes the output is no longer than the input; input shorter than a header, or with another stream number or a byte after it that is not zero, passes through |
| LogStream.BytesAfterFrames | src/docker_client.py:108-122 | after any frames, bytes that start no frame make the whole input raw, and a piece shorter than a header is dropped |
| Docker.ResolveContainer | src/docker_client.py:157-179 | the loop over the listing computes the resolution; a failed listing resolves to nothing |
| Docker.NamesAreStripped | src/docker_client.py:169-174 | an entry is found under a name exactly when one of its names is that one without leading slashes, and its primary name is its first one without them |
| Docker.ResolutionIsExact | src/docker_client.py:167-179 | the result is the first entry with the exact name, else the first with the label, and none exactly when neither exists |
| Docker.RestartTargetIsTeslamate | src/docker_client.py:232-284 | a restart is posted exactly when TeslaMate was asked for and resolves to a container that is TeslaMate's by primary name or label and not the database's by either; it goes to that container and succeeds only on 204 or 304 |
| FailureDetections.DetectionsOfCycle | src/main.py:199-222 | a cycle reports a failure once exactly when its check moves the machine to one |
| FailureDetections.DetectionsAreBounded | src/state_machine.py:286-336 | over every run of the watchdog, recoveries and forced states included, with n conclusive checks outside recovery and i immediate ones among them at most i + (n - i) div min(R, F, L) failures are reported |
| Recovery.RecoveryController.constructor | src/recovery.py:46-63 | a new controller is idle |
| Recovery.RecoveryController.Begin | src/recovery.py:109-163 | the restart sequence: events in order, manual state on failure, recorded restart and RECOVERING on success |
| Recovery.RecoveryController.Step | src/recovery.py:165-191 | one cycle of an active recovery; nothing while idle |
| Recovery.RecoveryController.Finish | src/recovery.py:195-235 | an outcome ends the recovery, forces the state and publishes one event |
| Recovery.RecoveryOutcomeIsExact | src/recovery.py:165-191 | recovery ends healthy, or in manual intervention, exactly at the first run of R healthy, or F other, conclusive verdicts after the deadline, and goes on exactly while there is none |
| Recovery.OnlyCountedChecksMatter | src/recovery.py:171-179 | checks before the deadline and inconclusive checks leave streaks and outcome unchanged |
| Recovery.SettledPolarityConsumesTheMeasure | src/recovery.py:171-191 | once the polarity of the counted checks settles, each uses up a measure that cannot run below one, whatever inconclusive checks come between |
| Recovery.SettledPolarityEndsRecovery | src/recovery.py:171-191 | R healthy or F failing counted checks with no other counted check between them end the recovery that way, wherever it stood |
| WatchdogLoop.Watchdog.constructor | src/main.py:336-378 | the watchdog starts at STARTING, idle, with the history loaded from its file |
| WatchdogLoop.Watchdog.CheckOnce | src/main.py:113-122 | one cycle takes the whole system to its next value and publishes exactly that cycle's events |
| WatchdogLoop.Watchdog.HandleTransition | src/main.py:199-249 | a transition into a failure publishes, considers a restart, and only then advises |
| WatchdogLoop.Watchdog.Consider | src/main.py:251-293 | the probe is made only for a logout, diagnostics precede the restart, and the guard decides |
| WatchdogLoop.CycleEvents | src/main.py:199-293 | a cycle publishes a restart exactly when its check moves the machine to a state the guard allows, and the token alert exactly when it moves to an auth state without a restart carried out |
| WatchdogLoop.Announcements | src/main.py:210-249 | a cycle reports a failure exactly when its check moves the machine to one of the five, captures a bundle with it if one can be written, starts a recovery if the guard allows it, and gives the advice of the database and of the two auth states exactly where it is due |
| WatchdogLoop.SystemInvHolds | src/main.py:116-122 | at every cycle boundary recovery is active exactly when the state is RECOVERING, the streaks are consistent and below their thresholds |
| WatchdogLoop.OnlyRestartsReachRecovery | src/recovery.py:151-158 | RECOVERING is entered exactly by a restart that Docker carried out |
| WatchdogLoop.ManualEvents | src/recovery.py:132-149 | the manual state is entered only with its event, by a failed restart or at the end of a recovery |
| EventProtocol.TraceFollows | src/recovery.py:109-163 | every run's event trace is accepted by the event protocol, an automaton over the order of events, and ends awaiting the outcome of the trigger's restart exactly while a recovery is active |
| EventProtocol.EventOrder | src/main.py:199-249 | a failure is detected before its diagnostics are captured, and those before recovery starts; a started recovery is followed at once by its restart, a failed restart at once by the call for a human, a successful one by exactly one outcome, and an outcome always follows a restart; advice to the user comes last; starts equal outcomes plus the active one |
| EventProtocol.TokensAreNotRequestedDuringRecovery | src/main.py:224-238 | no cycle asks for tokens and leaves a recovery active |
| EventProtocol.TokensAreRequestedAfterAFailedLogoutRestart | src/main.py:227-238 | a cycle both attempts a restart and asks for tokens exactly when its check confirms a logout, the guard allows the restart and Docker does not carry it out |
| EventProtocol.FailedLogoutRestartHappens | README.md:206-207 | a concrete run in which the alert follows an attempted restart |
| WatchdogRuns.DatabaseStreakCountsTheRun | src/main.py:180-185 | the database streak is the number of latest cycles that saw a healthy database |
| WatchdogRuns.EvidenceExplainsTheMachine | src/main.py:116-122 | outside recovery the machine is the run of the verdicts since a state was last forced |
| WatchdogRuns.RestartsAreJustified | src/main.py:251-293 | over every run a restart is called for exactly when no recovery is active, the evidence confirms a new restartable failure, this check and the one before saw a healthy database, a logout was probed reachable, and cooldown and cap are clear |
| WatchdogRuns.RunsAreGuarded | src/recovery.py:121-151 | from any disk, the full log of every run is guarded, and the kept history is what the process found on disk and that log, without aged records |
| WatchdogRuns.WatchdogBudget | README.md:213-215 | the restarts that Docker carried out keep the budget in any window of every run, and any two as many places apart as the cap are more than 86400 s apart, whatever the process found on disk and whatever the clock does between cycles |
| RestartAttempts.CarriedOutAttemptsAreRecorded | src/recovery.py:132-151 | the recorded restarts of a run are its attempts that Docker carried out |
| RestartAttempts.AttemptsExceedByFailures | README.md:213-215 | in any window of any run the attempts exceed the budget by at most the failed ones in it, and the requests that went out by at most the failed ones among them |
| RestartAttempts.FailedAttemptsPileUp | src/docker_client.py:264-284 | whatever the cooldown and the cap, any number of attempts at one instant while the container is stopped and Docker carries none of them out |
| RestartAttempts.AttemptsKeepTheBudgetExactly | README.md:213-215 | over all runs that meet one listing and one reply, the attempts keep the budget exactly when that listing and reply make a restart succeed (or none is ever attempted) |
| RestartAttempts.RequestsKeepTheBudgetExactly | src/docker_client.py:258-284 | and the requests that go out keep it exactly when they succeed or none goes out |
| WatchdogRuns.WatchdogPruningIsInvisible | src/restart_manager.py:126-148 | after every run the guard answers every later question as if nothing had been pruned since the process started |
| WatchdogRuns.BudgetIsAboutTheWholeRun | src/restart_manager.py:190-202 | cooldown and cap are clear on the kept history exactly when they are clear on what the process found on disk and everything the run recorded |
| WatchdogRuns.RunsFollowTheRecovery | src/main.py:116-118 | while recovery is active the watchdog's run is the recovery's: nothing published and the machine held until the outcome, then one event and the forced state |
| WatchdogRuns.RecoveryWaitsThenDecides | src/recovery.py:151-191 | after a restart carried out at monotonic time t the conclusive checks from t plus the configured wait on are counted from zero: nothing is published and RECOVERING held until a long enough run of one polarity ends, and that run decides |
| WatchdogRuns.EarlyChecksAreIgnored | src/recovery.py:171-173 | checks before the wait is over publish nothing and leave both streaks at zero, whatever they report |
| WatchdogRuns.WithheldRestartIsNotRetried | src/main.py:119-122 | while the checks agree with a failure state or say nothing, no restart is considered and nothing is published, whatever else changes |
| WatchdogRuns.DueRestartsHappenOnEntry | src/main.py:119-122 | over every run, a restart that is due (confirmed, helpful, database up, auth host reachable, budget clear) happens exactly when the state before the check was another one |
| WatchdogRuns.ReturningHostIsNotNoticed | README.md:598-599 | a concrete run in which the auth host is back, the guard would allow the restart, and the cycle publishes nothing |
| WatchdogLives.LivesAreReplayed | src/restart_manager.py:64-116 | any number of process lives, each booting from the disk of the one before, leave the disk, the memory and the restarts of one replay of the history |
| WatchdogLives.BudgetOverAllLives | README.md:223-226 | however often the watchdog is recreated, the restarts of all its lives keep the budget in any window, up to those lost between lives, and none are lost exactly when every earlier life saved its last restart |
| WatchdogLives.PruningIsInvisibleAcrossLives | README.md:223-226 | while the lives end so, the guard of the running process answers as if it saw every restart of every life, unpruned |
| Heartbeats.WatchdogMqtt.OnConnect | src/mqtt_client.py:201-210 | a successful connect starts the connection clock, a refused one changes nothing |
| Heartbeats.WatchdogMqtt.OnDisconnect | src/mqtt_client.py:230-232 | a disconnect stops the connection clock |
| Heartbeats.WatchdogMqtt.OnMessage | src/mqtt_client.py:238-261 | a message updates its car only, in order of first appearance |
| Heartbeats.WatchdogMqtt.Health | src/mqtt_client.py:265-306 | the primary car if known, else the first car reporting unhealthy, else the first known car; no cars is not a failure |
| Heartbeats.TrackerFollowsTheCallbacks | src/mqtt_client.py:201-261 | heartbeat, reported health, state, connection clock and the set of known cars are facts about the callback history |
| Heartbeats.CarsAreListedByFirstMessage | src/mqtt_client.py:249-250 | the known cars are listed once each, in the order of their first messages |
| Heartbeats.StalenessIsExact | src/mqtt_client.py:329-373 | a car is stale exactly when detection is on, it was heard before, a connection is up, and both the last heartbeat and the connection start are further back than the limit: the short one if the state last reported is driving or charging, the long one for any other and for none |
| Heartbeats.RacyVerdictIsSound | src/mqtt_client.py:271-366 | a stale verdict put together from unlocked reads is true of the time of the check, by the exact reading of the callbacks entered by then, exactly when no fresh heartbeat and no disconnect or fresh connect was in flight and missed, and the times read also exceed the limit of the state reported by then |
| Heartbeats.OtherLimitNeedsAReport | src/mqtt_client.py:358-366 | the last exception takes a state report in flight, or one entered between the time of the check and the read of the state |
| Heartbeats.ChosenCarIsReported | src/mqtt_client.py:291-306 | a car chosen because a read found it unhealthy is reported as unhealthy exactly when no heartbeat written before the second read says otherwise |
| Heartbeats.UnhealthyCarIsPassedOver | src/mqtt_client.py:268-270 | a concrete interleaving that reports a healthy car although another known one is unhealthy all along |
| Heartbeats.InFlightHeartbeatIsMissed | src/mqtt_client.py:246-254 | a concrete interleaving in which a fresh heartbeat in flight is missed |
| Heartbeats.InFlightLinkChangeIsMissed | src/mqtt_client.py:209-232 | a concrete interleaving in which a disconnect, or a reconnect, in flight is missed |
| Heartbeats.InFlightStateReportIsMissed | src/mqtt_client.py:255-261 | a concrete interleaving in which a parked car is judged by the limit for driving, its state report being in flight |
| Heartbeats.LateStateReportIsRead | src/mqtt_client.py:358-366 | a concrete interleaving in which a state reported after the time of the check sets the limit |
| Logs.Classify | src/log_classifier.py:108-121 | the dictionary built by the loops holds, per category, the number of non-blank lines it hits, and no other entries |
| Logs.ClassifyLine | src/log_classifier.py:113-119 | one line adds one to every category it hits |
| Logs.EntriesAreCounts | src/log_classifier.py:46-48 | looking a category up by name gives its count, or zero |
| Logs.AsciiSpace | src/log_classifier.py:112-114 | among ASCII characters the space, the controls 9 to 13 and the separators 28 to 31 are what a blank line may hold |
| Logs.HitsAreMatchedLines | src/log_classifier.py:113-119 | a category's count is the number of lines that hold more than white space and that at least one of its patterns matches |
| Logs.SignalsAreConfirmations | src/log_classifier.py:123-137 | each signal is raised exactly when the lines matched by its own category reach the configured threshold, or else its own default; there are none without patterns or lines |
| Logs.CountsAreAdditive | src/log_classifier.py:108-121 | counts over concatenated windows are sums |
| Logs.SublistConfirmsLess | src/log_classifier.py:123-137 | fewer lines confirm no more signals |
| Logs.ResolvedIncidentsStayResolved | src/state_machine.py:205-215 | with all else fixed, a log-driven AUTH_REFRESH_FAILED that is gone for a window stays gone for every part of it |
| Bundles.UniqueDirectory | src/diagnostics.py:103-115 | for every finite set of names the loop ends with the first free one among the plain name and its suffixes 2, 3, ... |
| Bundles.CandidatesAreDistinct | src/diagnostics.py:110-114 | different attempts try different names |
| Bundles.CandidateShape | src/diagnostics.py:110-114 | a later attempt tries the plain name, a dash, and the number of the attempt in decimal without leading zeros |
| Bundles.ChosenIsFirstFree | src/diagnostics.py:110-115 | the first free name exists and is the only one the loop can end with |
| Bundles.BundlesNeverCollide | src/diagnostics.py:104-109 | for any existing names and any base names, the bundles of a run of captures are pairwise distinct and overwrite nothing |
| Bundles.SameBaseCountsUp | src/diagnostics.py:110-115 | captures with one base name take the plain name and then the suffixes 2, 3, ... in order |
| Topics.FilterMatchesItsTopic | src/config.py:94-104 | the derived health filter matches the topic it was derived from exactly when the shape was not recognised or no level is empty |
| Topics.UnrecognisedIsWatchedAsIs | src/config.py:105-111 | a topic of another shape is watched as it stands, without a state topic or a car, and one of fewer than two levels is its own car id |
| Topics.LeadingSlashIsDropped | src/config.py:96-103 | a topic with a leading slash derives the filter of the topic without it, which misses it |
| Topics.LeadingSlashExample | src/config.py:96-103 | one such topic |
| Topics.FilterMatchesExactly | src/config.py:100-104 | a derived filter matches exactly the topics of that key under that prefix, for any car |
| Topics.CarIdIsTheMatchedLevel | src/config.py:109-111 | the id read back is the level the wildcard matched, exactly when that level is not empty |
| Topics.TopicRoundTrip | src/config.py:94-111 | from any wildcard-free topic of the recognised shape, empty levels or not: the derived health and state filters match exactly the topics of every car of its prefix, each such topic gives its car back, and the topic itself gives the primary car |

## Left out

- HTTP fetching and body scanning: a check enters with its category.
- `check_database` and `tcp_probe`: database health and reachability enter as observed values.
- Reason strings, incident summaries, log messages, status payloads, Home Assistant discovery: presentation. Refusals of the guard keep a tag with their numbers.
- `restart_attempted` in the incident summary, which leaves out `LOGGED_OUT` (src/recovery.py:86): presentation.
- A watchdog built without Docker, classifier, restart manager or recovery controller: `build_watchdog` always supplies them.
- Exceptions swallowed by the run loop, signals and the interval timer: every cycle is taken to complete, except for the explicit faults of `RestartHistory`.
- Floating-point time: clock readings are reals, so rounding is not modelled.
- A history file whose top level is not an object, which the program does not survive: `File` has no such case.
- Retention of old diagnostics bundles: `BundlesNeverCollide` is about runs in which none is deleted.
- Regular expressions, YAML loading, example excerpts and UTF-8 decoding: patterns are predicates on lines, and streams are bytes.
- Payload whitespace and letter case in MQTT messages: payloads enter stripped and lower-cased.
- The shared car objects behind the tracker: `WatchdogMqtt` keeps cars as values in a map; the unlocked reads of the shared objects are the positions in `RacyVerdictIsSound`, where each callback's write is one step.
- Multi-level wildcards and `$` topics: the derived filters contain neither.
- TLS, credentials, environment parsing and redaction: no part of the kernel.
