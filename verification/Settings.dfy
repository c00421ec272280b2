/** The configuration values the control kernel depends on (src/config.py). */
module Settings {
  datatype Config = Config(
    teslamateContainer: string,
    databaseContainer: string,
    failureConfirmations: nat,
    recoveryConfirmations: nat,
    loggerConfirmations: nat,
    autoRestart: bool,
    loggedOutRestart: bool,
    cooldownSeconds: nat,
    postRestartWaitSeconds: nat,
    maxRestartsPerDay: nat,
    stalenessDetection: bool,
    staleSeconds: nat,
    parkedStaleSeconds: nat)
  {
    /** What `from_env` and `validate` enforce: the integer minimums and the distinct container names. */
    predicate Valid() {
      && failureConfirmations >= 1
      && recoveryConfirmations >= 1
      && loggerConfirmations >= 1
      && staleSeconds >= 1
      && parkedStaleSeconds >= 1
      && teslamateContainer != databaseContainer
    }
  }
}
