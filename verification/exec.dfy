/**
 * The exit and exec wrappers of `exec.c`. Every wrapper appends exactly one
 * record before handing control to the real operation. The exit family
 * never returns: the record is in the report before the process ends. The
 * exec family passes the real call's outcome through unchanged: a replaced
 * image, or the value the failing call returns. `execv` and `execvp` have
 * no environment argument and record `envp` as an empty list; `fexecve`
 * records the name its descriptor resolves to.
 *
 * The report is only in memory until the library's destructor writes it.
 * `exit` runs destructors, so its record reaches the log file; `_exit`,
 * `_Exit` and a successful exec do not, so the report they leave behind,
 * their own record included, is never written.
 *
 * The function name and file name are inserted between quotes verbatim;
 * the argument and environment vectors are escaped string lists.
 */
module Exec {
  import opened Base
  import opened Scan
  import Decimal
  import opened JsonUtil
  import opened Decoders
  import opened Events
  import LinkName

  const EXIT_STATUS := "\",\"status\":"
  const EXEC_FILENAME := "\",\"filename\":\""
  const EXEC_ARGV := "\",\"argv\":"
  const EXEC_ENVP := ",\"envp\":"

  /**
   * `exit_called`: `{"type":"libc_call","timestamp":T,"data":
   * {"function_name":"exit","status":S}}`.
   */
  function ExitRecord(timestamp: nat, status: int): (r: string)
    ensures ParseExitRecord(r) == Some(ExitFields(timestamp, status))
  {
    ExitEnvelopeReadsBack(timestamp, status);
    Envelope(timestamp, "exit", Field(EXIT_STATUS, Decimal.IntToString(status), EVENT_END))
  }

  lemma ExitEnvelopeReadsBack(timestamp: nat, status: int)
    ensures ParseExitRecord(Envelope(timestamp, "exit", Field(EXIT_STATUS, Decimal.IntToString(status), EVENT_END)))
            == Some(ExitFields(timestamp, status))
  {
    var t := Field(EXIT_STATUS, Decimal.IntToString(status), EVENT_END);
    assert Lacks("exit", '"') && StartsWithQuote(t);
    var e := ParseEnvelope(Envelope(timestamp, "exit", t));
    assert e == Some((timestamp, "exit", t));
    ReadIntFieldRoundTrip(EXIT_STATUS, status, EVENT_END);
  }

  datatype ExitFields = ExitFields(timestamp: int, status: int)

  function ParseExitRecord(s: string): Option<ExitFields> {
    var env :- ParseEnvelope(s);
    if env.1 != "exit" then None
    else
      var status :- ReadIntField(EXIT_STATUS, env.2);
      if status.1 == EVENT_END then Some(ExitFields(env.0, status.0)) else None
  }

  /** The three terminating entry points; all record the function name `exit`. */
  datatype ExitFunction = Exit | UnderscoreExit | UnderscoreCapitalExit

  /**
   * `exit`, `_exit` and `_Exit`: record, then terminate through the real
   * function. The wrapper never returns to its caller; the process ends
   * with the status it was given after the record is appended to the
   * in-memory report. Only `exit` runs the destructor that writes the
   * report out; `_exit` and `_Exit` end the process without it.
   */
  function ExitCall(which: ExitFunction, now: nat, report: seq<string>, status: int): (s: Step)
    ensures !s.outcome.Returned?
    ensures s.outcome.Exited? && s.outcome.status == status
    ensures s.outcome.destructorRuns <==> which == Exit
    ensures AppendedOne(report, s.report)
    ensures ParseExitRecord(Last(s.report)) == Some(ExitFields(now, status))
  {
    Step(Exited(status, which == Exit), report + [ExitRecord(now, status)])
  }

  /**
   * `exec_called`: `{"type":"libc_call","timestamp":T,"data":
   * {"function_name":"N","filename":"F","argv":A,"envp":E}}`.
   */
  /**
   * An exec record reads back, with the quote-delimited reader of the
   * verbatim fields, as the call it describes, with the vectors in order,
   * exactly when the function name and file name have no quote.
   */
  function ExecRecord(timestamp: nat, functionName: string, filename: string, argv: seq<string>, envp: seq<string>): (r: string)
    requires AllAscii(argv) && AllAscii(envp)
    ensures ParseExecRecord(r) == Some(ExecFields(timestamp, functionName, filename, argv, envp))
        <==> Lacks(functionName, '"') && Lacks(filename, '"')
  {
    var t2 := Field(EXEC_ENVP, StringArrayToJsonList(envp), EVENT_END);
    var t1 := Field(EXEC_ARGV, StringArrayToJsonList(argv), t2);
    var t0 := Field(EXEC_FILENAME, filename, t1);
    var r := Envelope(timestamp, functionName, t0);
    assert Lacks(functionName, '"') && Lacks(filename, '"') ==>
        ParseExecRecord(r) == Some(ExecFields(timestamp, functionName, filename, argv, envp)) by {
      if Lacks(functionName, '"') && Lacks(filename, '"') {
        ReadRawFieldRoundTrip(EXEC_FILENAME, filename, t1);
        ReadListFieldRoundTrip(EXEC_ARGV, argv, t2);
        ReadListFieldRoundTrip(EXEC_ENVP, envp, EVENT_END);
      }
    }
    r
  }

  datatype ExecFields = ExecFields(timestamp: int, functionName: string, filename: string, argv: seq<string>, envp: seq<string>)

  function ParseExecRecord(s: string): (r: Option<ExecFields>)
    ensures r.Some? ==> Lacks(r.value.functionName, '"') && Lacks(r.value.filename, '"')
  {
    var env :- ParseEnvelope(s);
    var file :- ReadRawField(EXEC_FILENAME, env.2);
    var argv :- ReadListField(EXEC_ARGV, file.1);
    var envp :- ReadListField(EXEC_ENVP, argv.1);
    if envp.1 == EVENT_END then Some(ExecFields(env.0, env.1, file.0, argv.0, envp.0)) else None
  }

  /** What every exec wrapper promises about the report and the record it appends. */
  predicate RecordedExec(report: seq<string>, s: Step, now: nat, functionName: string, filename: string,
                         argv: seq<string>, envp: seq<string>)
  {
    && AppendedOne(report, s.report)
    && (Lacks(filename, '"') ==>
          ParseExecRecord(Last(s.report)) == Some(ExecFields(now, functionName, filename, argv, envp)))
  }

  /** The real `execve(filename, argv, envp)`. */
  type RealExecve = (string, seq<string>, seq<string>) -> Outcome
  /** The real `execv(path, argv)` and `execvp(file, argv)`. */
  type RealExecv = (string, seq<string>) -> Outcome
  /** The real `fexecve(fd, argv, envp)`. */
  type RealFexecve = (int, seq<string>, seq<string>) -> Outcome

  /** `exec_called` followed by the real call, whose outcome the caller sees unchanged. */
  function ExecCalled(functionName: string, now: nat, report: seq<string>, filename: string,
                      argv: seq<string>, envp: seq<string>, realOutcome: Outcome): (s: Step)
    requires AllAscii(argv) && AllAscii(envp)
    requires Lacks(functionName, '"')
    ensures s.outcome == realOutcome
    ensures RecordedExec(report, s, now, functionName, filename, argv, envp)
  {
    Step(realOutcome, report + [ExecRecord(now, functionName, filename, argv, envp)])
  }

  /** `execve`: record the call with its environment, then run the real `execve`. */
  function Execve(realExecve: RealExecve, now: nat, report: seq<string>,
                  filename: string, argv: seq<string>, envp: seq<string>): (s: Step)
    requires AllAscii(argv) && AllAscii(envp)
    ensures s.outcome == realExecve(filename, argv, envp)
    ensures RecordedExec(report, s, now, "execve", filename, argv, envp)
  {
    ExecCalled("execve", now, report, filename, argv, envp, realExecve(filename, argv, envp))
  }

  /** `execv`: no environment argument, so the record's `envp` is `[]`. */
  function Execv(realExecv: RealExecv, now: nat, report: seq<string>, path: string, argv: seq<string>): (s: Step)
    requires AllAscii(argv)
    ensures s.outcome == realExecv(path, argv)
    ensures RecordedExec(report, s, now, "execv", path, argv, [])
  {
    ExecCalled("execv", now, report, path, argv, [], realExecv(path, argv))
  }

  /** `execvp`: as `execv`, recorded under its own name. */
  function Execvp(realExecvp: RealExecv, now: nat, report: seq<string>, file: string, argv: seq<string>): (s: Step)
    requires AllAscii(argv)
    ensures s.outcome == realExecvp(file, argv)
    ensures RecordedExec(report, s, now, "execvp", file, argv, [])
  {
    ExecCalled("execvp", now, report, file, argv, [], realExecvp(file, argv))
  }

  /** `execvpe`: record the call with its environment, then run the real `execvpe`. */
  function Execvpe(realExecvpe: RealExecve, now: nat, report: seq<string>,
                   file: string, argv: seq<string>, envp: seq<string>): (s: Step)
    requires AllAscii(argv) && AllAscii(envp)
    ensures s.outcome == realExecvpe(file, argv, envp)
    ensures RecordedExec(report, s, now, "execvpe", file, argv, envp)
  {
    ExecCalled("execvpe", now, report, file, argv, envp, realExecvpe(file, argv, envp))
  }

  /**
   * `fexecve`: resolve the descriptor to a name first (standard streams by
   * name, anything else through its `/proc` link), record that name as the
   * file name, then run the real `fexecve` on the descriptor. If resolving
   * the name aborts, nothing is recorded and the process ends there.
   */
  function Fexecve(realFexecve: RealFexecve, links: LinkName.Links, now: nat, report: seq<string>,
                   fd: int, argv: seq<string>, envp: seq<string>): (s: Step)
    requires AllAscii(argv) && AllAscii(envp)
    ensures LinkName.LinknameOf(links, fd).Aborted? ==> s == Step(Aborted, report)
    ensures LinkName.LinknameOf(links, fd).Resolved? ==>
      && s.outcome == realFexecve(fd, argv, envp)
      && RecordedExec(report, s, now, "fexecve", LinkName.LinknameOf(links, fd).name, argv, envp)
    ensures fd == 0 ==> RecordedExec(report, s, now, "fexecve", "stdin", argv, envp)
    ensures fd == 1 ==> RecordedExec(report, s, now, "fexecve", "stdout", argv, envp)
    ensures fd == 2 ==> RecordedExec(report, s, now, "fexecve", "stderr", argv, envp)
  {
    match LinkName.LinknameOf(links, fd)
    case Aborted => Step(Aborted, report)
    case Resolved(linkname) =>
      ExecCalled("fexecve", now, report, linkname, argv, envp, realFexecve(fd, argv, envp))
  }
}
