/**
  Failure-carrying values shared by every module of the model.

  Python exceptions become `Err(e)` values; the constructor names follow the
  exception classes the adapter raises (or, for the as-written models of its
  defects, the ones the interpreter would raise).
 */
module Errors {

  datatype Option<+T> = None | Some(value: T)

  /** An exception the modelled code raises. */
  datatype Error =
    | ValueError(message: string)
    | RuntimeError(message: string)
    | NotImplementedError
    /** `BorgError(**msg)`: carries the message id and the remaining fields. */
    | BorgError(msgid: string, payload: map<string, string>)
    /** `ProcessLock.acquire` when another process holds the name. */
    | LockInUse
    /** `Popen` could not launch the executable. */
    | OSError
    /**
      `Popen` rejected an `env` that is not a mapping, before spawning. The
      exception class depends on the Python version and the spawn path
      (`AttributeError` on the fork/exec path, `TypeError` on `posix_spawn`).
     */
    | EnvironmentRejected
    /** Interpreter errors raised by the code as written. */
    | TypeError
    | AttributeError(attribute: string)
    | NameError(name: string)
    /** A missing key in a mapping, such as `os.environ['PATH']`. */
    | KeyError(key: string)

  datatype Result<+T> = Ok(value: T) | Err(error: Error) {
    predicate IsFailure() {
      Err?
    }

    function PropagateFailure<U>(): Result<U>
      requires Err?
    {
      Err(error)
    }

    function Extract(): T
      requires Ok?
    {
      value
    }
  }

  /** Python truthiness of an optional string: `None` and `''` are false. */
  predicate Truthy(s: Option<string>) {
    s.Some? && s.value != ""
  }
}
