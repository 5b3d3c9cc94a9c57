/** How a command of the tool ends, and the small wrappers used throughout the model. */
module Outcomes {

  /** The exit codes the CLI distinguishes. The numeric values live in a
      constants module that is not part of this model, so each code is a
      distinct variant. `GenericError` is the default code 1 of `error()`,
      `Aborted` is click's ctrl-c abort and `Crash` an uncaught Python
      exception (a traceback and exit status 1). */
  datatype ExitCode =
    | AuthorizationError
    | EndpointActivationError
    | InvalidTransferSpecificationError
    | WaitTaskTimeout
    | WaitTaskError
    | EndpointInfoError
    | GenericError
    | Aborted
    | Crash

  /** Either the command goes on with a value, or it calls `sys.exit` with a code. */
  datatype Outcome<+T> = Done(value: T) | Exit(code: ExitCode)

  datatype Result<+T, +E> = Ok(value: T) | Err(error: E)

  datatype Option<+T> = None | Some(value: T)
}
