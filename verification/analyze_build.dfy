/**
 * The recorded-build model of `analyze_base/src/build.rs`: the event and
 * process records the preload library leaves behind, `Event::from`'s
 * microsecond timestamp, and `Build::new`, which admits a list of processes
 * only when `Build::verify_integrity` accepts it. Launching the build and
 * reading the per-process files are I/O; the decision taken on the exit
 * status is kept, with the status and the collected processes as inputs.
 */
module AnalyzeBuild {
  import opened Base
  import Integrity
  import opened ExitStatuses

  datatype LibcExec = LibcExec(functionName: string, filename: string, argv: seq<string>, envp: seq<string>)

  datatype LibcExit = LibcExit(functionName: string, status: nat)

  datatype EventData =
    | LdPreloadLoaded
    | LdPreloadUnloaded
    | LibcExecEvent(exec: LibcExec)
    | LibcExitEvent(exit: LibcExit)

  datatype Event = Event(tid: nat, timestamp: nat, data: EventData)

  datatype Process = Process(
    pid: nat, ppid: nat, argv: seq<string>, envp: seq<string>, workingDir: string, events: seq<Event>)

  datatype Build = Build(command: string, processes: seq<Process>)

  datatype BuildExecutionError =
    | BuildExitedWithCode(code: int)
    | BuildExitedWithSignal
    | NoParentDirectory(directory: string)
    | DuplicatePid
    | MissingProcess

  const MICROS_PER_SECOND: nat := 1_000_000
  const NANOS_PER_SECOND: nat := 1_000_000_000

  /**
   * `Event::from`, with the time since the epoch (whole seconds and the
   * sub-second nanoseconds) and the thread id passed in: the timestamp is
   * in microseconds, the nanoseconds truncated.
   */
  function EventFrom(secs: nat, nanos: nat, tid: nat, data: EventData): (e: Event)
    requires nanos < NANOS_PER_SECOND
    ensures e.timestamp / MICROS_PER_SECOND == secs
    ensures e.timestamp % MICROS_PER_SECOND == nanos / 1_000
    ensures e.tid == tid && e.data == data
  {
    var micros := nanos / 1_000;
    assert micros < MICROS_PER_SECOND;
    MicrosSplit(secs, micros);
    Event(tid, secs * MICROS_PER_SECOND + micros, data)
  }

  lemma MicrosSplit(secs: nat, micros: nat)
    requires micros < 1_000_000
    ensures (secs * 1_000_000 + micros) / 1_000_000 == secs
    ensures (secs * 1_000_000 + micros) % 1_000_000 == micros
  {
  }

  /** Two instants that differ in their seconds or their microseconds get different timestamps. */
  lemma EventFromOrdered(secs1: nat, nanos1: nat, secs2: nat, nanos2: nat, tid: nat, data: EventData)
    requires nanos1 < NANOS_PER_SECOND && nanos2 < NANOS_PER_SECOND
    requires secs1 < secs2 || (secs1 == secs2 && nanos1 / 1_000 < nanos2 / 1_000)
    ensures EventFrom(secs1, nanos1, tid, data).timestamp < EventFrom(secs2, nanos2, tid, data).timestamp
  {
    var t1 := EventFrom(secs1, nanos1, tid, data).timestamp;
    var t2 := EventFrom(secs2, nanos2, tid, data).timestamp;
    if secs1 < secs2 {
      assert t1 < (secs1 + 1) * MICROS_PER_SECOND <= secs2 * MICROS_PER_SECOND <= t2;
    }
  }

  function IdsOf(ps: seq<Process>): (r: seq<Integrity.Ids>)
    ensures |r| == |ps|
    ensures forall i :: 0 <= i < |ps| ==> r[i] == Integrity.Ids(ps[i].pid, ps[i].ppid)
  {
    if ps == [] then [] else [Integrity.Ids(ps[0].pid, ps[0].ppid)] + IdsOf(ps[1..])
  }

  /**
   * `Build::verify_integrity` with its errors: `DuplicatePid` exactly when
   * a pid repeats, `MissingProcess` when the pids are distinct but more
   * than one process has an unrecorded parent.
   */
  function VerifyIntegrity(ps: seq<Process>): (r: Result<(), BuildExecutionError>)
    ensures r.Ok? <==> Integrity.DistinctPids(IdsOf(ps)) && Integrity.AtMostOneRoot(IdsOf(ps))
    ensures r == Err(DuplicatePid) <==> !Integrity.DistinctPids(IdsOf(ps))
    ensures r == Err(MissingProcess) <==> Integrity.DistinctPids(IdsOf(ps)) && !Integrity.AtMostOneRoot(IdsOf(ps))
  {
    var v := Integrity.VerifyIntegrity(IdsOf(ps));
    if v.Pass? then Ok(())
    else if v.error.DuplicatePid? then Err(DuplicatePid)
    else Err(MissingProcess)
  }

  /**
   * `Build::new`: the build is made from the command and the processes, in
   * their order, exactly when the pids are distinct and at most one process
   * has a parent outside the recording; a repeated pid is the error reported
   * first.
   */
  function New(command: string, processes: seq<Process>): (r: Result<Build, BuildExecutionError>)
    ensures r.Ok? <==> Integrity.DistinctPids(IdsOf(processes)) && Integrity.AtMostOneRoot(IdsOf(processes))
    ensures r.Ok? ==> r.value.command == command && r.value.processes == processes
    ensures r.Err? ==> (r.error == DuplicatePid <==> !Integrity.DistinctPids(IdsOf(processes)))
    ensures r.Err? ==> r.error == DuplicatePid || r.error == MissingProcess
  {
    match VerifyIntegrity(processes)
    case Ok(_) => Ok(Build(command, processes))
    case Err(e) => Err(e)
  }

  /**
   * `Build::execute_command` after the build has run: a failing build is
   * an error carrying its exit code, or the signal error when there is no
   * code; a successful one yields the processes collected from the output
   * directory (passed in).
   */
  function ExecuteCommand(status: ExitStatus, collected: seq<Process>): (r: Result<seq<Process>, BuildExecutionError>)
    ensures r.Ok? <==> status == Success
    ensures r.Ok? ==> r.value == collected
    ensures status.ExitedWithCode? ==> r == Err(BuildExitedWithCode(status.code))
    ensures status == KilledBySignal ==> r == Err(BuildExitedWithSignal)
  {
    match status
    case Success => Ok(collected)
    case ExitedWithCode(code) => Err(BuildExitedWithCode(code))
    case KilledBySignal => Err(BuildExitedWithSignal)
  }

  /** `Build::from_command`: a build comes out only of a successful run whose recording passes the integrity check. */
  function FromCommand(command: string, status: ExitStatus, collected: seq<Process>): (r: Result<Build, BuildExecutionError>)
    ensures r.Ok? <==> status == Success && New(command, collected).Ok?
    ensures r.Ok? ==> r.value == Build(command, collected)
    ensures status.ExitedWithCode? ==> r == Err(BuildExitedWithCode(status.code))
    ensures status == KilledBySignal ==> r == Err(BuildExitedWithSignal)
    ensures status == Success && r.Err? ==> r.error == DuplicatePid || r.error == MissingProcess
  {
    var processes :- ExecuteCommand(status, collected);
    New(command, processes)
  }

  /**
   * Read from the build's `code()`: the build's processes are collected
   * exactly when the code is 0; any other code is carried by the error,
   * and no code at all is the signal error.
   */
  lemma ExecuteOnCode(code: Option<int>, collected: seq<Process>)
    ensures ExecuteCommand(StatusOf(code), collected).Ok? <==> code == Some(0)
    ensures code.Some? && code.value != 0 ==> ExecuteCommand(StatusOf(code), collected) == Err(BuildExitedWithCode(code.value))
    ensures code == None ==> ExecuteCommand(StatusOf(code), collected) == Err(BuildExitedWithSignal)
  {
  }

  function DummyProcess(pid: nat, ppid: nat): Process {
    Process(pid, ppid, [], [], "", [])
  }

  /** `test_build_integrity_empty_vec` and `test_build_integriy_single_process`. */
  lemma EmptyAndSingleAccepted()
    ensures New("", []).Ok?
    ensures New("", [DummyProcess(1, 0)]).Ok?
  {
    Integrity.SingleProcessPasses(1, 0);
  }

  /** `test_build_integrity_success`: a tree rooted at pid 1. */
  lemma TreeAccepted()
    ensures New("", [DummyProcess(1, 0), DummyProcess(2, 1), DummyProcess(3, 1), DummyProcess(4, 2)]).Ok?
  {
    var ps := [DummyProcess(1, 0), DummyProcess(2, 1), DummyProcess(3, 1), DummyProcess(4, 2)];
    assert IdsOf(ps) == [Integrity.Ids(1, 0), Integrity.Ids(2, 1), Integrity.Ids(3, 1), Integrity.Ids(4, 2)];
    Integrity.TreePasses(1, 2, 3, 4, 0);
  }

  /**
   * `test_build_integrity_multiple_connected_components_failure`, which
   * records pid 5 with the missing parent 4; any process whose parent is
   * not recorded is rejected the same way.
   */
  lemma MissingParentRejected(pid: nat, ppid: nat)
    requires pid != 0 && pid != 1 && pid != 2 && pid != 3
    requires ppid != 1 && ppid != 2 && ppid != 3 && ppid != pid
    ensures New("", [DummyProcess(1, 0), DummyProcess(2, 1), DummyProcess(3, 1), DummyProcess(pid, ppid)]) == Err(MissingProcess)
  {
    var ps := [DummyProcess(1, 0), DummyProcess(2, 1), DummyProcess(3, 1), DummyProcess(pid, ppid)];
    assert IdsOf(ps) == [Integrity.Ids(1, 0), Integrity.Ids(2, 1), Integrity.Ids(3, 1), Integrity.Ids(pid, ppid)];
    Integrity.MissingParentFails(pid, ppid);
  }

  /** `test_build_integrity_duplicate_pid`: pid 1 appears twice. */
  lemma DuplicatePidRejected()
    ensures New("", [DummyProcess(1, 0), DummyProcess(2, 1), DummyProcess(3, 1), DummyProcess(1, 3)]) == Err(DuplicatePid)
  {
    var ps := [DummyProcess(1, 0), DummyProcess(2, 1), DummyProcess(3, 1), DummyProcess(1, 3)];
    assert IdsOf(ps) == [Integrity.Ids(1, 0), Integrity.Ids(2, 1), Integrity.Ids(3, 1), Integrity.Ids(1, 3)];
    Integrity.DuplicateFails();
  }
}
