/** Build-time constants whose headers are not part of this model, and the
    storage directories chosen at start-up, as parameters of the model. */
module Config {
  import opened Wrappers

  /** `rebootDir` is the folder of the reboot-persistent Enable markers and
      `upgrDir` the folder of the upgrade-persistent passwords; None means
      the folder could not be set up. */
  datatype Config = Config(
    maxNrOfOnus: nat,
    shortTimeoutMs: nat,
    maxGponPasswordLen: nat,
    maxXponPasswordLen: nat,
    maxPasswordLenPlusOne: nat,
    rebootDir: Option<string>,
    upgrDir: Option<string>)
  {
    /** The constants are positive, and the password buffer holds at least
        one character plus the terminator. */
    predicate Valid() {
      && maxNrOfOnus > 0
      && shortTimeoutMs > 0
      && maxGponPasswordLen > 0
      && maxXponPasswordLen > 0
      && maxPasswordLenPlusOne >= 2
    }
  }
}
