/** Result shapes shared by the plugin-management model. */
module Wrappers {

  /** A value that may be absent: Java's nullable reference. */
  datatype Option<+T> = None | Some(value: T)

  /** The exceptions the manager's operations can throw. */
  datatype Failure =
    | IllegalState        // IllegalStateException from Check.stateCondition
    | NotLoaded           // IllegalArgumentException from unloadPlugin

  /** Normal completion, or the exception an operation throws. */
  datatype Outcome = Pass | Fail(error: Failure)
}
