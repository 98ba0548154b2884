/**
 * The error taxonomy shared by the library crates (TramError) and the
 * failure-compatible wrappers every operation of the model returns.
 */
module Errors {

  /** The three errors of the core crate, with their payloads. */
  datatype TramError =
    | ConfigNotFound(path: string)
    | InvalidConfig(message: string)
    | WorkspaceNotFound

  /** An optional value (Rust's Option). */
  datatype Option<+T> = None | Some(value: T) {

    /** The wrapped value, or `default` when there is none (Rust's unwrap_or). */
    function GetOr(default: T): T {
      match this
      case Some(v) => v
      case None => default
    }
  }

  /** Either a value or an error (Rust's Result). */
  datatype Result<+T, +E> = Ok(value: T) | Err(error: E) {

    predicate IsFailure() {
      Err?
    }

    function PropagateFailure<U>(): Result<U, E>
      requires Err?
    {
      Err(error)
    }

    function Extract(): T
      requires Ok?
    {
      value
    }
  }

  /** The library crates' AppResult. */
  type TramResult<T> = Result<T, TramError>

  /** The user-facing text of each error (its Display implementation). */
  function Describe(e: TramError): (s: string)
    ensures |s| > 0
    ensures e.ConfigNotFound? ==> |s| > |e.path| && s[|s| - |e.path|..] == e.path
    ensures e.InvalidConfig? ==> |s| > |e.message| && s[|s| - |e.message|..] == e.message
  {
    match e
    case ConfigNotFound(p) => "Configuration file not found: " + p
    case InvalidConfig(m) => "Invalid configuration: " + m
    case WorkspaceNotFound => "Workspace not found"
  }

  /** Distinct errors are shown with distinct texts. */
  lemma DescribeInjective(a: TramError, b: TramError)
    requires Describe(a) == Describe(b)
    ensures a == b
  {
    var s := Describe(a);
    assert s[0] == Describe(b)[0];
    match a
    case ConfigNotFound(p) =>
      assert b.ConfigNotFound?;
      assert s[|"Configuration file not found: "|..] == p;
      assert s[|"Configuration file not found: "|..] == b.path;
    case InvalidConfig(m) =>
      assert b.InvalidConfig?;
      assert s[|"Invalid configuration: "|..] == m;
      assert s[|"Invalid configuration: "|..] == b.message;
    case WorkspaceNotFound =>
  }
}
