/**
 * The abstract host the orchestrator runs on: a scripted command executor, the
 * set of existing file paths, a millisecond clock advanced by the controller's
 * waits and by the time each command takes, and the warning-level log lines.
 */
module Host {
  import opened Text

  /** What the shell reports for one command: exit status, raw output streams and
      how many milliseconds the command took. */
  datatype Response = Response(exitCode: int, stdout: string, stderr: string, elapsedMs: nat)

  /** The scripted environment: the answer to the `k`-th issued command `c` is `oracle(k, c)`. */
  type Oracle = (nat, string) -> Response

  /** The errors the orchestrator raises. */
  datatype Error =
    | CommandFailed(command: string, stderr: string, stdout: string)
    | IsoNotFound(path: string)
    | IpTimeout
    | KeyNotFound(key: string)

  datatype Result<T> = Ok(value: T) | Err(error: Error)

  /** The two warnings the controller logs without failing. */
  datatype Warning =
    | NotBootable(detected: string)
    | AlreadyRunning(name: string)

  /** Everything the controller observes or changes outside its own fields; `issuedAt`
      holds the clock reading at which each command of `trace` was issued. */
  datatype World = World(trace: seq<string>, issuedAt: seq<nat>, files: set<string>, clock: nat, warnings: seq<Warning>)

  /** The executor's result for one response: trimmed standard output on exit status 0,
      otherwise a failure carrying the command and both trimmed streams. */
  function Outcome(command: string, response: Response): Result<string> {
    if response.exitCode == 0 then Ok(Trim(response.stdout))
    else Err(CommandFailed(command, Trim(response.stderr), Trim(response.stdout)))
  }

  /** Issuing `command`: it is appended to the trace with the current clock reading,
      answered by the oracle, and the clock moves on by the time it took. */
  function Exec(o: Oracle, w: World, command: string): (Result<string>, World) {
    var response := o(|w.trace|, command);
    (Outcome(command, response), w.(trace := w.trace + [command], issuedAt := w.issuedAt + [w.clock], clock := w.clock + response.elapsedMs))
  }

  /** `execute(...).catch(() => "")`: a failed command reads as empty output. */
  function OrEmpty(r: Result<string>): string {
    if r.Ok? then r.value else ""
  }

  /** `await new Promise(resolve => setTimeout(resolve, ms))`. */
  function Wait(w: World, ms: nat): World {
    w.(clock := w.clock + ms)
  }

  function Warn(w: World, warning: Warning): World {
    w.(warnings := w.warnings + [warning])
  }

  /** A success yields the trimmed standard output, which trimming again leaves alone; a
      failure names the command issued and carries both trimmed streams. */
  lemma ExecSpec(o: Oracle, w: World, command: string)
    ensures var (r, w') := Exec(o, w, command);
      var response := o(|w.trace|, command);
      && w'.trace == w.trace + [command] && w'.issuedAt == w.issuedAt + [w.clock]
      && w'.files == w.files && w'.warnings == w.warnings
      && w'.clock == w.clock + response.elapsedMs
      && (r.Ok? <==> response.exitCode == 0)
      && (r.Ok? ==> r.value == Trim(response.stdout) && Trim(r.value) == r.value)
      && (r.Err? ==> r.error == CommandFailed(command, Trim(response.stderr), Trim(response.stdout)))
  {
    var (r, _) := Exec(o, w, command);
    if r.Ok? {
      TrimIdempotent(o(|w.trace|, command).stdout);
    }
  }
}
