/** Optional values, the exceptions of the source-set core, and a
    failure-compatible result type that carries them. */
module Outcomes {

  datatype Option<+T> = None | Some(value: T)

  /** The exceptions the core raises or lets propagate, by kind. */
  datatype Error =
    /** `raise UserWarning(message)`, directly or through `fail`. */
    | UserWarning(message: string)
    /** The `UserWarning` a merge raises, naming the distinct roots it saw. */
    | RootsDiffer(roots: set<string>)
    /** A loaded document is a dictionary without the expected tag. */
    | KeyError(key: string)
    /** The schema check rejects a record. */
    | ValidationError
    /** An `OSError` from the line counter other than "not found" (errno 2) and errno 7. */
    | OSError(errno: int)
    /** A subprocess exits with a status the caller does not tolerate. */
    | CalledProcessError(command: seq<string>, status: int)
    /** `re.search(...)` found no quoted name, and `.group(1)` was taken of `None`. */
    | AttributeError(line: string)

  /** How a run of an external tool ended: its exit status and what it
      printed on standard output. */
  datatype Completed = Completed(status: int, stdout: string)

  /** `runt.run(cmd, cwd, ignored)`: the printed text when the tool exits
      with status 0 or with a status the caller ignores, and otherwise the
      CalledProcessError naming the command and the status. */
  function ToolOutput(cmd: seq<string>, run: Completed, ignored: set<int>): (r: Result<string>)
    ensures r.Ok? <==> run.status == 0 || run.status in ignored
    ensures r.Ok? ==> r.value == run.stdout
    ensures r.Err? ==> r.error == CalledProcessError(cmd, run.status)
  {
    if run.status == 0 || run.status in ignored then Ok(run.stdout)
    else Err(CalledProcessError(cmd, run.status))
  }

  datatype Result<+T> = Ok(value: T) | Err(error: Error) {

    predicate IsFailure() {
      Err?
    }

    function PropagateFailure<U>(): Result<U>
      requires Err?
    {
      Err(error)
    }

    function Extract(): T
      requires Ok?
    {
      value
    }
  }
}
